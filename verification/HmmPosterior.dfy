/** The backward table and the two posteriors built from it, proved to be the exact share
    of the path weight that passes through a state, or a transition, at a bar. */
module HmmPosterior {
  import opened HmmForward
  import opened HmmPaths
  import opened Reals
  import opened Sums

  // ---------------------------------------------------------------- specification

  /** Weight of continuing from state i at bar t to the last bar, over all continuations. */
  ghost function SuffixMass(m: Hmm, obs: seq<real>, t: nat, i: int): real
    decreases |obs| - t, 0
  {
    if t + 1 >= |obs| then 1.0 else Sum(m.K(), Onward(m, obs, t, i))
  }

  ghost function Onward(m: Hmm, obs: seq<real>, t: nat, i: int): int -> real
    requires t + 1 < |obs|
    decreases |obs| - t - 1, 1
  {
    j => m.Trans(i, j) * (m.Emit(obs, t + 1, j) * SuffixMass(m, obs, t + 1, j))
  }

  /** trans[i][j] * pdf[j] * next[j], the term both backward loops accumulate. */
  function BackFactor(m: Hmm, obs: seq<real>, t: nat, next: seq<real>, i: int, j: int): real {
    m.Trans(i, j) * (m.Emit(obs, t + 1, j) * At(next, j))
  }

  ghost function BackTerm(m: Hmm, obs: seq<real>, t: nat, next: seq<real>, i: int): int -> real {
    j => BackFactor(m, obs, t, next, i, j)
  }

  ghost function BackRow(m: Hmm, obs: seq<real>, t: nat, next: seq<real>, c: real): (r: seq<real>)
    ensures |r| == m.K()
  {
    seq(m.K(), i => Sum(m.K(), BackTerm(m, obs, t, next, i)) / Max(c, TINY))
  }

  ghost function Beta(m: Hmm, obs: seq<real>, c: seq<real>, t: nat): (r: seq<real>)
    ensures |r| == m.K()
    decreases |obs| - t
  {
    if t + 1 >= |obs| then seq(m.K(), i => 1.0 / Max(At(c, t), TINY))
    else BackRow(m, obs, t, Beta(m, obs, c, t + 1), At(c, t))
  }

  /** The product of the clamped scales from bar t to the last bar. */
  ghost function ClampedProduct(obs: seq<real>, c: seq<real>, t: nat): (d: real)
    ensures d > 0.0
    decreases |obs| - t
  {
    var head := Max(At(c, t), TINY);
    if t + 1 >= |obs| then head else head * ClampedProduct(obs, c, t + 1)
  }

  // ---------------------------------------------------------------- backward theorem

  lemma {:induction false} BackStep(m: Hmm, obs: seq<real>, t: nat, next: seq<real>, d: real, i: int)
    requires t + 1 < |obs| && |next| == m.K()
    requires forall j :: 0 <= j < m.K() ==> SuffixMass(m, obs, t + 1, j) == d * next[j]
    ensures SuffixMass(m, obs, t, i) == d * Sum(m.K(), BackTerm(m, obs, t, next, i))
  {
    hide Sum;
    forall j | 0 <= j < m.K()
      ensures Onward(m, obs, t, i)(j) == d * BackTerm(m, obs, t, next, i)(j)
    {
      BackTermScale(m.Trans(i, j), m.Emit(obs, t + 1, j), next[j], d, SuffixMass(m, obs, t + 1, j));
    }
    SumFactor(m.K(), d, BackTerm(m, obs, t, next, i), Onward(m, obs, t, i));
  }

  lemma {:induction false} BackTermScale(a: real, e: real, x: real, d: real, y: real)
    requires y == d * x
    ensures a * (e * y) == d * (a * (e * x))
  {
    assert e * y == d * (e * x);
  }

  lemma {:induction false} CancelScales(x: real, head: real, d: real, product: real, scaled: real)
    requires head > 0.0 && product == head * d && scaled == x / head
    ensures d * x == product * scaled
  {
    CancelDivision(x, head, d);
  }

  /** Row t of the backward table, times the scales from t on, is the continuation weight. */
  ghost predicate BackwardRowExact(m: Hmm, obs: seq<real>, c: seq<real>, t: nat) {
    forall i :: 0 <= i < m.K() ==> SuffixMass(m, obs, t, i) == ClampedProduct(obs, c, t) * Beta(m, obs, c, t)[i]
  }

  /** The scaled backward table, times its scales, is the weight of the continuations. */
  lemma {:induction false} BackwardExact(m: Hmm, obs: seq<real>, c: seq<real>, t: nat)
    requires t < |obs|
    ensures BackwardRowExact(m, obs, c, t)
    decreases |obs| - t
  {
    if t + 1 < |obs| {
      BackwardExact(m, obs, c, t + 1);
      BackwardStep(m, obs, c, t);
    } else {
      hide Max;
      var head := Max(At(c, t), TINY);
      assert head * (1.0 / head) == 1.0;
    }
  }

  lemma {:induction false} BackwardStep(m: Hmm, obs: seq<real>, c: seq<real>, t: nat)
    requires t + 1 < |obs|
    requires BackwardRowExact(m, obs, c, t + 1)
    ensures BackwardRowExact(m, obs, c, t)
  {
    hide SuffixMass, BackTerm, ClampedProduct, Beta, Sum, Max;
    forall i | 0 <= i < m.K()
      ensures SuffixMass(m, obs, t, i) == ClampedProduct(obs, c, t) * Beta(m, obs, c, t)[i]
    {
      BackStep(m, obs, t, Beta(m, obs, c, t + 1), ClampedProduct(obs, c, t + 1), i);
      var x := Sum(m.K(), BackTerm(m, obs, t, Beta(m, obs, c, t + 1), i));
      BetaUnfold(m, obs, c, t, i, x);
    }
  }

  lemma {:induction false} BetaUnfold(m: Hmm, obs: seq<real>, c: seq<real>, t: nat, i: int, x: real)
    requires t + 1 < |obs| && 0 <= i < m.K()
    requires x == Sum(m.K(), BackTerm(m, obs, t, Beta(m, obs, c, t + 1), i))
    ensures ClampedProduct(obs, c, t + 1) * x == ClampedProduct(obs, c, t) * Beta(m, obs, c, t)[i]
  {
    hide ClampedProduct, Sum, BackTerm, Max;
    var head, d := Max(At(c, t), TINY), ClampedProduct(obs, c, t + 1);
    ClampedStep(obs, c, t);
    BetaAt(m, obs, c, t, i);
    hide Beta;
    CancelScales(x, head, d, ClampedProduct(obs, c, t), Beta(m, obs, c, t)[i]);
  }

  lemma {:induction false} ClampedStep(obs: seq<real>, c: seq<real>, t: nat)
    requires t + 1 < |obs|
    ensures Max(At(c, t), TINY) > 0.0
    ensures ClampedProduct(obs, c, t) == Max(At(c, t), TINY) * ClampedProduct(obs, c, t + 1)
  {
  }

  lemma {:induction false} BetaAt(m: Hmm, obs: seq<real>, c: seq<real>, t: nat, i: int)
    requires t + 1 < |obs| && 0 <= i < m.K()
    ensures Beta(m, obs, c, t)[i] == Sum(m.K(), BackTerm(m, obs, t, Beta(m, obs, c, t + 1), i)) / Max(At(c, t), TINY)
  {
    hide Sum, BackTerm, Max;
  }

  // ---------------------------------------------------------------- paths with a chosen prefix

  /** The weight of a partial path and of all its continuations, if its first u states
      satisfy `sel`. */
  ghost function Selected(m: Hmm, obs: seq<real>, u: nat, sel: seq<int> -> bool): seq<int> -> real {
    p => if 1 <= u <= |p| && sel(p[..u]) then Weight(m, obs, p) * SuffixMass(m, obs, |p| - 1, p[|p| - 1]) else 0.0
  }

  lemma {:induction false} ExtendedWeight(m: Hmm, obs: seq<real>, p: seq<int>, j: int)
    requires 1 <= |p| < |obs|
    ensures Weight(m, obs, p + [j]) * SuffixMass(m, obs, |p|, j)
            == Weight(m, obs, p) * Onward(m, obs, |p| - 1, p[|p| - 1])(j)
  {
    hide SuffixMass;
    var t, q := |p|, p + [j];
    assert q[..t] == p;
    assert Weight(m, obs, q) == Weight(m, obs, p) * m.Trans(p[t - 1], j) * m.Emit(obs, t, j);
    hide Weight;
    RegroupFour(Weight(m, obs, p), m.Trans(p[t - 1], j), m.Emit(obs, t, j), SuffixMass(m, obs, t, j));
  }

  lemma {:induction false} RegroupFour(w: real, a: real, e: real, x: real)
    ensures w * a * e * x == w * (a * (e * x))
  {
    assert w * a * e * x == w * a * (e * x);
  }

  lemma {:induction false} SelectedAfter(m: Hmm, obs: seq<real>, u: nat, sel: seq<int> -> bool, p: seq<int>, j: int)
    requires 1 <= u <= |p|
    ensures EndingIn(Selected(m, obs, u, sel), j)(p)
            == if sel(p[..u]) then Weight(m, obs, p + [j]) * SuffixMass(m, obs, |p|, j) else 0.0
  {
    hide Weight, SuffixMass;
    var q := p + [j];
    assert q[..u] == p[..u] && q[|q| - 1] == j && |q| - 1 == |p|;
    assert EndingIn(Selected(m, obs, u, sel), j)(p) == Selected(m, obs, u, sel)(q);
  }

  lemma {:induction false} SelectedExtends(m: Hmm, obs: seq<real>, u: nat, sel: seq<int> -> bool, p: seq<int>)
    requires 1 <= u <= |p| < |obs|
    ensures Selected(m, obs, u, sel)(p) == Sum(m.K(), j => EndingIn(Selected(m, obs, u, sel), j)(p))
  {
    hide Weight, EndingIn, Onward, Sum;
    var h, last := Selected(m, obs, u, sel), p[|p| - 1];
    var onward := Onward(m, obs, |p| - 1, last);
    assert SuffixMass(m, obs, |p| - 1, last) == Sum(m.K(), onward);
    hide SuffixMass;
    var ext := j => EndingIn(h, j)(p);
    forall j ensures ext(j) == if sel(p[..u]) then Weight(m, obs, p) * onward(j) else 0.0 {
      SelectedAfter(m, obs, u, sel, p, j);
      ExtendedWeight(m, obs, p, j);
    }
    if sel(p[..u]) {
      SumFactor(m.K(), Weight(m, obs, p), onward, ext);
    } else {
      SumZero(m.K(), ext);
    }
  }

  /** Extending every selected path by one bar moves weight from the continuation into
      the path and loses none of it. */
  lemma {:induction false} SelectedStep(m: Hmm, obs: seq<real>, u: nat, sel: seq<int> -> bool, s: nat)
    requires 1 <= u <= s < |obs|
    ensures PathSum(s + 1, m.K(), Selected(m, obs, u, sel)) == PathSum(s, m.K(), Selected(m, obs, u, sel))
  {
    var k, h := m.K(), Selected(m, obs, u, sel);
    var f: int -> seq<int> -> real := j => EndingIn(h, j);
    hide Selected, EndingIn;
    forall p | IsPath(p, s, k) ensures h(p) == Sum(k, j => f(j)(p)) {
      SelectedExtends(m, obs, u, sel, p);
      SumCong(k, j => EndingIn(h, j)(p), j => f(j)(p));
    }
    SumPathSwap(s, k, k, f, h);
    SumCong(k, j => PathSum(s, k, f(j)), ByLastState(s + 1, k, h));
  }

  /** The weight of all full paths whose first u states are selected. */
  ghost function SelectedMass(m: Hmm, obs: seq<real>, u: nat, sel: seq<int> -> bool): real {
    PathSum(|obs|, m.K(), p => if u <= |p| && sel(p[..u]) then Weight(m, obs, p) else 0.0)
  }

  lemma {:induction false} SelectedToTheEnd(m: Hmm, obs: seq<real>, u: nat, sel: seq<int> -> bool, s: nat)
    requires 1 <= u <= s <= |obs|
    ensures PathSum(s, m.K(), Selected(m, obs, u, sel)) == SelectedMass(m, obs, u, sel)
    decreases |obs| - s
  {
    if s == |obs| {
      hide Weight, PathSum;
      var full: seq<int> -> real := p => if u <= |p| && sel(p[..u]) then Weight(m, obs, p) else 0.0;
      forall p | IsPath(p, s, m.K()) ensures Selected(m, obs, u, sel)(p) == full(p) {
        assert SuffixMass(m, obs, s - 1, p[s - 1]) == 1.0;
      }
      PathSumCong(s, m.K(), Selected(m, obs, u, sel), full);
    } else {
      SelectedToTheEnd(m, obs, u, sel, s + 1);
      SelectedStep(m, obs, u, sel, s);
    }
  }

  // ---------------------------------------------------------------- states and transitions

  ghost function InState(t: nat, i: int): seq<int> -> bool {
    q => |q| == t + 1 && q[t] == i
  }

  ghost function InStates(t: nat, i: int, j: int): seq<int> -> bool {
    q => |q| == t + 2 && q[t] == i && q[t + 1] == j
  }

  /** Weight of all state paths that are in state i at bar t. */
  ghost function ThroughMass(m: Hmm, obs: seq<real>, t: nat, i: int): real {
    SelectedMass(m, obs, t + 1, InState(t, i))
  }

  /** Weight of all state paths that move from state i to state j after bar t. */
  ghost function TransitionMass(m: Hmm, obs: seq<real>, t: nat, i: int, j: int): real {
    SelectedMass(m, obs, t + 2, InStates(t, i, j))
  }

  lemma {:induction false} ThroughMassFactors(m: Hmm, obs: seq<real>, t: nat, i: int)
    requires t < |obs| && 0 <= i < m.K()
    ensures ThroughMass(m, obs, t, i) == SuffixMass(m, obs, t, i) * PrefixMass(m, obs, t, i)
  {
    hide Weight, SuffixMass, PathSum;
    var k, h := m.K(), Selected(m, obs, t + 1, InState(t, i));
    forall p | IsPath(p, t + 1, k) && p[t] != i ensures h(p) == 0.0 {
      assert p[..t + 1] == p;
    }
    PathSumLast(t + 1, k, h, i);
    forall q | IsPath(q, t, k)
      ensures EndingIn(h, i)(q) == SuffixMass(m, obs, t, i) * EndingIn(WeightOf(m, obs), i)(q)
    {
      var p := q + [i];
      assert p[..t + 1] == p;
    }
    PathSumFactors(t, k, SuffixMass(m, obs, t, i), EndingIn(WeightOf(m, obs), i), EndingIn(h, i));
    SelectedToTheEnd(m, obs, t + 1, InState(t, i), t + 1);
  }

  lemma {:induction false} TransitionMassFactors(m: Hmm, obs: seq<real>, t: nat, i: int, j: int)
    requires t + 1 < |obs| && 0 <= i < m.K() && 0 <= j < m.K()
    ensures TransitionMass(m, obs, t, i, j) == Onward(m, obs, t, i)(j) * PrefixMass(m, obs, t, i)
  {
    hide Weight, SuffixMass, PathSum, Onward;
    var k, h := m.K(), Selected(m, obs, t + 2, InStates(t, i, j));
    forall p | IsPath(p, t + 2, k) && (p[t + 1] != j || p[t] != i) ensures h(p) == 0.0 {
      assert p[..t + 2] == p;
    }
    PathSumLast(t + 2, k, h, j);
    forall q | IsPath(q, t + 1, k) && q[t] != i ensures EndingIn(h, j)(q) == 0.0 {
      assert IsPath(q + [j], t + 2, k);
    }
    PathSumLast(t + 1, k, EndingIn(h, j), i);
    forall q | IsPath(q, t, k)
      ensures EndingIn(EndingIn(h, j), i)(q) == Onward(m, obs, t, i)(j) * EndingIn(WeightOf(m, obs), i)(q)
    {
      var p := q + [i];
      assert (p + [j])[..t + 2] == p + [j];
      ExtendedWeight(m, obs, p, j);
    }
    PathSumFactors(t, k, Onward(m, obs, t, i)(j), EndingIn(WeightOf(m, obs), i), EndingIn(EndingIn(h, j), i));
    SelectedToTheEnd(m, obs, t + 2, InStates(t, i, j), t + 2);
  }

  /** At every bar the states share out the likelihood. */
  lemma {:induction false} ThroughMassTotal(m: Hmm, obs: seq<real>, t: nat)
    requires t < |obs|
    ensures Sum(m.K(), i => ThroughMass(m, obs, t, i)) == Likelihood(m, obs, |obs| - 1)
  {
    hide Weight, PathSum;
    var n, k := |obs|, m.K();
    var f: int -> seq<int> -> real
        := i => (p => if t + 1 <= |p| && InState(t, i)(p[..t + 1]) then Weight(m, obs, p) else 0.0);
    forall p | IsPath(p, n, k) ensures WeightOf(m, obs)(p) == Sum(k, i => f(i)(p)) {
      var g := i => f(i)(p);
      forall i ensures g(i) == if p[t] == i then Weight(m, obs, p) else 0.0 {
        var q := p[..t + 1];
        assert |q| == t + 1 && q[t] == p[t];
        assert InState(t, i)(q) == (p[t] == i);
        assert f(i)(p) == if InState(t, i)(q) then Weight(m, obs, p) else 0.0;
      }
      SumSingle(k, g, p[t]);
    }
    SumPathSwap(n, k, k, f, WeightOf(m, obs));
    SumCong(k, i => ThroughMass(m, obs, t, i), i => PathSum(n, k, f(i)));
  }

  // ---------------------------------------------------------------- posteriors

  /** alpha[t][i] * beta[t][i] for every state. */
  function Products(a: seq<real>, b: seq<real>): (r: seq<real>)
    requires |a| == |b|
    ensures |r| == |a|
  {
    seq(|a|, i requires 0 <= i < |a| => a[i] * b[i])
  }

  /** The common factor that turns products of scaled tables into path weights. */
  ghost function TableScale(m: Hmm, obs: seq<real>, c: seq<real>, t: nat): (f: real)
    ensures f > 0.0
  {
    ScaleProduct(m, obs, t) * ClampedProduct(obs, c, t)
  }

  lemma {:induction false} RegroupPairs(a: real, s: real, b: real, d: real)
    ensures (s * d) * (a * b) == (d * b) * (a * s)
  {
    assert (s * d) * (a * b) == s * d * a * b;
    assert (d * b) * (a * s) == d * b * a * s;
  }

  lemma {:induction false} ProductIsThroughMass(m: Hmm, obs: seq<real>, c: seq<real>, t: nat, i: int)
    requires t < |obs| && 0 <= i < m.K() && ScaledExactly(m, obs, t)
    ensures TableScale(m, obs, c, t) * Products(Alpha(m, obs, t), Beta(m, obs, c, t))[i] == ThroughMass(m, obs, t, i)
  {
    hide ThroughMass, SuffixMass, PrefixMass, ScaleProduct, ClampedProduct, Beta, Normalised, RawRow;
    BackwardExact(m, obs, c, t);
    ThroughMassFactors(m, obs, t, i);
    RegroupPairs(Alpha(m, obs, t)[i], ScaleProduct(m, obs, t), Beta(m, obs, c, t)[i], ClampedProduct(obs, c, t));
  }

  /** If every entry times f is a weight, and the weights total L > 0, then the normalised
      entry is that weight's share of L. */
  lemma {:induction false} NormalisedShares(row: seq<real>, f: real, mass: int -> real, total: real)
    requires f > 0.0 && total > 0.0 && Sum(|row|, mass) == total
    requires forall i :: 0 <= i < |row| ==> mass(i) == f * row[i]
    ensures Total(row) > 0.0
    ensures forall i :: 0 <= i < |row| ==> Normalised(row)[i] * total == mass(i)
  {
    TotalIsSum(row);
    SumFactor(|row|, f, Reading(row), mass);
    hide Total, Sum;
    var s := Total(row);
    SignOfProduct(f, s);
    forall i | 0 <= i < |row| ensures Normalised(row)[i] * total == mass(i) {
      CancelDivision(row[i], s, f);
    }
  }

  /** The state posterior is exact: gamma[t][i] is the share of the likelihood carried by
      the paths in state i at bar t.  The clamping of small scales cancels, so this holds
      for any recorded scales c. */
  lemma {:induction false} GammaExact(m: Hmm, obs: seq<real>, c: seq<real>, t: nat)
    requires t < |obs| && NoFallback(m, obs, |obs|)
    ensures forall i :: 0 <= i < m.K() ==>
      Normalised(Products(Alpha(m, obs, t), Beta(m, obs, c, t)))[i] * Likelihood(m, obs, |obs| - 1)
          == ThroughMass(m, obs, t, i)
  {
    hide ThroughMass, Likelihood, TableScale, Beta, Normalised, RawRow, Sum, Products, Total, Alpha, ScaledExactly,
         ScaleProduct;
    FallbackIffImpossible(m, obs, |obs|);
    assert NoFallback(m, obs, t + 1);
    ForwardExact(m, obs, t);
    ThroughMassTotal(m, obs, t);
    var raw := Products(Alpha(m, obs, t), Beta(m, obs, c, t));
    var mass := i => ThroughMass(m, obs, t, i);
    forall i | 0 <= i < m.K() ensures mass(i) == TableScale(m, obs, c, t) * raw[i] {
      ProductIsThroughMass(m, obs, c, t, i);
    }
    NormalisedShares(raw, TableScale(m, obs, c, t), mass, Likelihood(m, obs, |obs| - 1));
  }

  // ---------------------------------------------------------------- transition posterior

  /** alpha[t][i] * trans[i][j] * pdf[j] * beta[t+1][j] as j runs. */
  ghost function XiTerm(m: Hmm, obs: seq<real>, t: nat, a: seq<real>, next: seq<real>, i: int): int -> real {
    j => At(a, i) * BackTerm(m, obs, t, next, i)(j)
  }

  ghost function XiTotal(m: Hmm, obs: seq<real>, t: nat, a: seq<real>, next: seq<real>): real {
    Sum(m.K(), i => Sum(m.K(), XiTerm(m, obs, t, a, next, i)))
  }

  /** One row of a k by k table divided by its grand total, or spread evenly when that
      total is not positive. */
  ghost function Shares(k: nat, total: real, f: int -> real): (r: seq<real>)
    ensures |r| == k
  {
    if total <= 0.0 then seq(k, j requires 0 <= j < k => 1.0 / (k * k) as real)
    else seq(k, j => f(j) / total)
  }

  ghost function XiRow(m: Hmm, obs: seq<real>, t: nat, a: seq<real>, next: seq<real>, i: int): (r: seq<real>)
    ensures |r| == m.K()
  {
    Shares(m.K(), XiTotal(m, obs, t, a, next), XiTerm(m, obs, t, a, next, i))
  }

  lemma {:induction false} SharesTotal(k: nat, total: real, f: int -> real)
    requires k > 0
    ensures total <= 0.0 ==> Total(Shares(k, total, f)) == 1.0 / k as real
    ensures total > 0.0 ==> Total(Shares(k, total, f)) == 1.0 / total * Sum(k, f)
  {
    hide Total, Sum;
    var row := Shares(k, total, f);
    TotalIsSum(row);
    if total <= 0.0 {
      SumConst(k, 1.0 / (k * k) as real, Reading(row));
      SquareShare(k);
    } else {
      forall j | 0 <= j < k ensures Reading(row)(j) == 1.0 / total * f(j) {
        DivisionIsScaling(f(j), total);
      }
      SumFactor(k, 1.0 / total, f, Reading(row));
    }
  }

  lemma {:induction false} XiRowUnscaled(m: Hmm, obs: seq<real>, t: nat, a: seq<real>, next: seq<real>, c: real, i: int)
    requires |a| == m.K() && 0 <= i < m.K()
    ensures Sum(m.K(), XiTerm(m, obs, t, a, next, i)) == Max(c, TINY) * Products(a, BackRow(m, obs, t, next, c))[i]
  {
    hide BackTerm, Sum;
    var x := Sum(m.K(), BackTerm(m, obs, t, next, i));
    SumFactor(m.K(), a[i], BackTerm(m, obs, t, next, i), XiTerm(m, obs, t, a, next, i));
    assert BackRow(m, obs, t, next, c)[i] == x / Max(c, TINY);
    UndoDivision(a[i], x, Max(c, TINY));
  }

  lemma {:induction false} UndoDivision(a: real, x: real, d: real)
    requires d > 0.0
    ensures a * x == d * (a * (x / d))
  {
    assert d * (x / d) == x;
    assert a * (d * (x / d)) == d * (a * (x / d));
  }

  lemma {:induction false} XiTotalUnscaled(m: Hmm, obs: seq<real>, t: nat, a: seq<real>, next: seq<real>, c: real)
    requires |a| == m.K()
    ensures XiTotal(m, obs, t, a, next) == Max(c, TINY) * Total(Products(a, BackRow(m, obs, t, next, c)))
  {
    hide Max, BackRow, XiTerm, Products;
    var raw := Products(a, BackRow(m, obs, t, next, c));
    var rows := i => Sum(m.K(), XiTerm(m, obs, t, a, next, i));
    forall i | 0 <= i < m.K() ensures rows(i) == Max(c, TINY) * Reading(raw)(i) {
      XiRowUnscaled(m, obs, t, a, next, c, i);
    }
    TotalIsSum(raw);
    SumFactor(m.K(), Max(c, TINY), Reading(raw), rows);
  }

  /** Summing xi over the arrival state gives gamma exactly: in every branch, for every
      forward row, every following backward row and every scale. */
  lemma {:induction false} XiSumsToGamma(m: Hmm, obs: seq<real>, t: nat, a: seq<real>, next: seq<real>, c: real, i: int)
    requires |a| == m.K() && 0 <= i < m.K()
    ensures Total(XiRow(m, obs, t, a, next, i)) == Normalised(Products(a, BackRow(m, obs, t, next, c)))[i]
  {
    hide BackRow, XiTerm, XiTotal, Products, Sum, Total, Shares;
    var d, total, f := Max(c, TINY), XiTotal(m, obs, t, a, next), XiTerm(m, obs, t, a, next, i);
    var raw := Products(a, BackRow(m, obs, t, next, c));
    XiTotalUnscaled(m, obs, t, a, next, c);
    XiRowUnscaled(m, obs, t, a, next, c, i);
    SignOfProduct(d, Total(raw));
    SharesTotal(m.K(), total, f);
    if total > 0.0 {
      hide Max;
      CommonFactor(d, raw[i], Total(raw));
    }
  }

  lemma {:induction false} SquareShare(k: nat)
    requires k > 0
    ensures k as real * (1.0 / (k * k) as real) == 1.0 / k as real
  {
    var x := k as real;
    assert (k * k) as real == x * x;
    assert x * (1.0 / (x * x)) * x == x * x * (1.0 / (x * x)) == 1.0;
  }

  lemma {:induction false} CommonFactor(d: real, x: real, s: real)
    requires d > 0.0 && s > 0.0
    ensures d * s > 0.0 && 1.0 / (d * s) * (d * x) == x / s
  {
    var y := x / s;
    assert y * s == x;
    assert d * x == y * (d * s);
    assert 1.0 / (d * s) * (y * (d * s)) == y * (1.0 / (d * s) * (d * s));
  }

  lemma {:induction false} XiTermIsTransitionMass(m: Hmm, obs: seq<real>, c: seq<real>, t: nat, i: int, j: int)
    requires t + 1 < |obs| && 0 <= i < m.K() && 0 <= j < m.K() && ScaledExactly(m, obs, t)
    ensures ScaleProduct(m, obs, t) * ClampedProduct(obs, c, t + 1)
            * XiTerm(m, obs, t, Alpha(m, obs, t), Beta(m, obs, c, t + 1), i)(j)
            == TransitionMass(m, obs, t, i, j)
  {
    hide TransitionMass, SuffixMass, PrefixMass, ScaleProduct, ClampedProduct, Beta, Normalised, RawRow, Alpha,
         BackTerm;
    var next, d, sp, a := Beta(m, obs, c, t + 1), ClampedProduct(obs, c, t + 1), ScaleProduct(m, obs, t),
        Alpha(m, obs, t)[i];
    TransitionMassFactors(m, obs, t, i, j);
    OnwardScaled(m, obs, c, t, i, j);
    RegroupPairs(a, sp, BackTerm(m, obs, t, next, i)(j), d);
  }

  lemma {:induction false} OnwardScaled(m: Hmm, obs: seq<real>, c: seq<real>, t: nat, i: int, j: int)
    requires t + 1 < |obs| && 0 <= j < m.K()
    ensures Onward(m, obs, t, i)(j) == ClampedProduct(obs, c, t + 1) * BackTerm(m, obs, t, Beta(m, obs, c, t + 1), i)(j)
  {
    hide SuffixMass, ClampedProduct, Beta;
    BackwardExact(m, obs, c, t + 1);
    BackTermScale(m.Trans(i, j), m.Emit(obs, t + 1, j), Beta(m, obs, c, t + 1)[j], ClampedProduct(obs, c, t + 1),
                  SuffixMass(m, obs, t + 1, j));
  }

  lemma {:induction false} XiTotalIsLikelihood(m: Hmm, obs: seq<real>, c: seq<real>, t: nat)
    requires t + 1 < |obs| && NoFallback(m, obs, |obs|)
    ensures ScaleProduct(m, obs, t) * ClampedProduct(obs, c, t + 1)
            * XiTotal(m, obs, t, Alpha(m, obs, t), Beta(m, obs, c, t + 1))
            == Likelihood(m, obs, |obs| - 1)
  {
    hide Likelihood, ScaleProduct, ClampedProduct, Beta, Alpha, ThroughMass, RawRow, Total, ScaledExactly, XiTerm,
         SuffixMass, PrefixMass, Onward;
    var a, next := Alpha(m, obs, t), Beta(m, obs, c, t + 1);
    var f := ScaleProduct(m, obs, t) * ClampedProduct(obs, c, t + 1);
    assert NoFallback(m, obs, t + 1);
    ForwardExact(m, obs, t);
    var rows := i => Sum(m.K(), XiTerm(m, obs, t, a, next, i));
    forall i | 0 <= i < m.K() ensures ThroughMass(m, obs, t, i) == f * rows(i) {
      XiRowIsThroughMass(m, obs, c, t, i);
    }
    ThroughMassTotal(m, obs, t);
    SumFactor(m.K(), f, rows, i => ThroughMass(m, obs, t, i));
  }

  lemma {:induction false} Commute(x: real, y: real)
    ensures x * y == y * x
  {
  }

  lemma {:induction false} SuffixMassUnfold(m: Hmm, obs: seq<real>, t: nat, i: int)
    requires t + 1 < |obs|
    ensures SuffixMass(m, obs, t, i) == Sum(m.K(), Onward(m, obs, t, i))
  {
    hide Sum;
  }

  lemma {:induction false} XiRowIsThroughMass(m: Hmm, obs: seq<real>, c: seq<real>, t: nat, i: int)
    requires t + 1 < |obs| && 0 <= i < m.K() && ScaledExactly(m, obs, t)
    ensures ThroughMass(m, obs, t, i)
            == ScaleProduct(m, obs, t) * ClampedProduct(obs, c, t + 1)
               * Sum(m.K(), XiTerm(m, obs, t, Alpha(m, obs, t), Beta(m, obs, c, t + 1), i))
  {
    hide SuffixMass, PrefixMass, Sum, ThroughMass, ScaledExactly, XiTerm, Onward, ScaleProduct, ClampedProduct, Alpha,
         Beta, RawRow;
    var f := ScaleProduct(m, obs, t) * ClampedProduct(obs, c, t + 1);
    var onward, prefix := Onward(m, obs, t, i), PrefixMass(m, obs, t, i);
    ThroughMassFactors(m, obs, t, i);
    SuffixMassUnfold(m, obs, t, i);
    var xi := XiTerm(m, obs, t, Alpha(m, obs, t), Beta(m, obs, c, t + 1), i);
    var scaled := j => f * xi(j);
    forall j | 0 <= j < m.K() ensures scaled(j) == prefix * onward(j) {
      XiTermIsTransitionMass(m, obs, c, t, i, j);
      TransitionMassFactors(m, obs, t, i, j);
      Commute(onward(j), prefix);
    }
    Commute(Sum(m.K(), onward), prefix);
    SumFactor(m.K(), prefix, onward, scaled);
    SumFactor(m.K(), f, xi, scaled);
  }

  /** The transition posterior is exact: xi[t][i][j] is the share of the likelihood
      carried by the paths that move from i to j after bar t. */
  lemma {:induction false} XiExact(m: Hmm, obs: seq<real>, c: seq<real>, t: nat, i: int, j: int)
    requires t + 1 < |obs| && NoFallback(m, obs, |obs|) && 0 <= i < m.K() && 0 <= j < m.K()
    ensures XiRow(m, obs, t, Alpha(m, obs, t), Beta(m, obs, c, t + 1), i)[j] * Likelihood(m, obs, |obs| - 1)
            == TransitionMass(m, obs, t, i, j)
  {
    hide Likelihood, ScaleProduct, ClampedProduct, Beta, Alpha, RawRow, Total, ScaledExactly, XiTerm, XiTotal,
         TransitionMass;
    var a, next := Alpha(m, obs, t), Beta(m, obs, c, t + 1);
    var f, total := ScaleProduct(m, obs, t) * ClampedProduct(obs, c, t + 1), XiTotal(m, obs, t, a, next);
    assert NoFallback(m, obs, t + 1);
    ForwardExact(m, obs, t);
    FallbackIffImpossible(m, obs, |obs|);
    XiTotalIsLikelihood(m, obs, c, t);
    XiTermIsTransitionMass(m, obs, c, t, i, j);
    Product(ScaleProduct(m, obs, t), ClampedProduct(obs, c, t + 1));
    SignOfProduct(f, total);
    ShareOf(XiTerm(m, obs, t, a, next, i)(j), total, f, Likelihood(m, obs, |obs| - 1));
  }

  lemma {:induction false} ShareOf(x: real, total: real, f: real, l: real)
    requires total > 0.0 && l == f * total
    ensures x / total * l == f * x
  {
    CancelDivision(x, total, f);
  }

  // ---------------------------------------------------------------- the program

  /** The backward table, filled from the last bar to the first. */
  method BackwardTable(m: Hmm, obs: seq<real>, c: seq<real>) returns (beta: seq<seq<real>>)
    requires m.Shaped() && |obs| == |c| > 0
    ensures |beta| == |obs| && forall t :: 0 <= t < |obs| ==> beta[t] == Beta(m, obs, c, t)
  {
    hide SuffixMass, BackTerm, Sum;
    var n, k := |obs|, m.K();
    beta := seq(n, _ => seq(k, _ => 0.0));
    var row := beta[n - 1];
    for i := 0 to k
      invariant |row| == k && forall l :: 0 <= l < i ==> row[l] == 1.0 / Max(At(c, n - 1), TINY)
    {
      row := row[i := 1.0 / Max(At(c, n - 1), TINY)];
    }
    beta := beta[n - 1 := row];
    assert beta[n - 1] == Beta(m, obs, c, n - 1);
    for t := n - 1 downto 0
      invariant |beta| == n
      invariant forall u :: t <= u < n ==> beta[u] == Beta(m, obs, c, u)
    {
      hide Beta;
      row := FillBackRow(m, obs, t, beta[t + 1], At(c, t));
      BetaIsBackRow(m, obs, c, t);
      beta := beta[t := row];
    }
  }

  lemma {:induction false} BetaIsBackRow(m: Hmm, obs: seq<real>, c: seq<real>, t: nat)
    requires t + 1 < |obs|
    ensures Beta(m, obs, c, t) == BackRow(m, obs, t, Beta(m, obs, c, t + 1), At(c, t))
  {
  }

  method FillBackRow(m: Hmm, obs: seq<real>, t: nat, next: seq<real>, c: real) returns (row: seq<real>)
    requires m.Shaped() && t + 1 < |obs| && |next| == m.K()
    ensures row == BackRow(m, obs, t, next, c)
  {
    var k, denom := m.K(), Max(c, TINY);
    row := seq(k, _ => 0.0);
    for i := 0 to k
      invariant |row| == k && forall l :: 0 <= l < i ==> row[l] == BackRow(m, obs, t, next, c)[l]
    {
      var acc := 0.0;
      for j := 0 to k
        invariant acc == Sum(j, BackTerm(m, obs, t, next, i))
      {
        acc := acc + BackFactor(m, obs, t, next, i, j);
      }
      row := row[i := acc / denom];
    }
  }

  /** Row by row products of the two tables, normalised. */
  method PosteriorGamma(alpha: seq<seq<real>>, beta: seq<seq<real>>) returns (gamma: seq<seq<real>>)
    requires |alpha| == |beta| && forall t :: 0 <= t < |alpha| ==> |alpha[t]| == |beta[t]|
    ensures |gamma| == |alpha|
    ensures forall t :: 0 <= t < |alpha| ==> gamma[t] == Normalised(Products(alpha[t], beta[t]))
  {
    gamma := [];
    for t := 0 to |alpha|
      invariant |gamma| == t
      invariant forall u :: 0 <= u < t ==> gamma[u] == Normalised(Products(alpha[u], beta[u]))
    {
      hide Normalised, Products;
      var row, _ := Rescale(Products(alpha[t], beta[t]));
      gamma := gamma + [row];
    }
  }

  method PosteriorXi(m: Hmm, obs: seq<real>, alpha: seq<seq<real>>, beta: seq<seq<real>>)
      returns (xi: seq<seq<seq<real>>>)
    requires m.Shaped() && |obs| == |alpha| == |beta| > 0
    requires forall t :: 0 <= t < |obs| ==> |alpha[t]| == |beta[t]| == m.K()
    ensures |xi| == |obs| - 1
    ensures forall t :: 0 <= t < |xi| ==> |xi[t]| == m.K()
    ensures forall t, i :: 0 <= t < |xi| && 0 <= i < m.K() ==> xi[t][i] == XiRow(m, obs, t, alpha[t], beta[t + 1], i)
  {
    xi := [];
    for t := 0 to |obs| - 1
      invariant |xi| == t
      invariant forall u :: 0 <= u < t ==> |xi[u]| == m.K()
      invariant forall u, i :: 0 <= u < t && 0 <= i < m.K() ==> xi[u][i] == XiRow(m, obs, u, alpha[u], beta[u + 1], i)
    {
      hide XiRow;
      var slice := FillXi(m, obs, t, alpha[t], beta[t + 1]);
      xi := xi + [slice];
    }
  }

  method FillXi(m: Hmm, obs: seq<real>, t: nat, a: seq<real>, next: seq<real>) returns (slice: seq<seq<real>>)
    requires m.Shaped() && t + 1 < |obs| && |a| == |next| == m.K()
    ensures |slice| == m.K() && forall i :: 0 <= i < m.K() ==> slice[i] == XiRow(m, obs, t, a, next, i)
  {
    var k := m.K();
    var raw: seq<seq<real>> := [];
    var total := 0.0;
    for i := 0 to k
      invariant |raw| == i && total == Sum(i, l => Sum(m.K(), XiTerm(m, obs, t, a, next, l)))
      invariant forall l :: 0 <= l < i ==> |raw[l]| == k
      invariant forall l, j :: 0 <= l < i && 0 <= j < k ==> raw[l][j] == XiTerm(m, obs, t, a, next, l)(j)
    {
      var row, part := FillXiRow(m, obs, t, a, next, i);
      raw, total := raw + [row], total + part;
    }
    assert total == XiTotal(m, obs, t, a, next);
    slice := [];
    for i := 0 to k
      invariant |slice| == i && forall l :: 0 <= l < i ==> slice[l] == XiRow(m, obs, t, a, next, l)
    {
      hide XiTerm, XiTotal;
      var row := ShareRow(raw[i], total);
      ghost var want := XiRow(m, obs, t, a, next, i);
      assert forall j :: 0 <= j < k ==> row[j] == want[j];
      slice := slice + [row];
    }
  }

  method FillXiRow(m: Hmm, obs: seq<real>, t: nat, a: seq<real>, next: seq<real>, i: nat)
      returns (row: seq<real>, part: real)
    requires m.Shaped() && t + 1 < |obs| && |a| == |next| == m.K() && i < m.K()
    ensures |row| == m.K() && forall j :: 0 <= j < m.K() ==> row[j] == XiTerm(m, obs, t, a, next, i)(j)
    ensures part == Sum(m.K(), XiTerm(m, obs, t, a, next, i))
  {
    row, part := [], 0.0;
    for j := 0 to m.K()
      invariant |row| == j && part == Sum(j, XiTerm(m, obs, t, a, next, i))
      invariant forall l :: 0 <= l < j ==> row[l] == XiTerm(m, obs, t, a, next, i)(l)
    {
      var val := At(a, i) * BackFactor(m, obs, t, next, i, j);
      assert XiTerm(m, obs, t, a, next, i)(j) == At(a, i) * BackTerm(m, obs, t, next, i)(j);
      row, part := row + [val], part + val;
    }
  }

  method ShareRow(raw: seq<real>, total: real) returns (row: seq<real>)
    ensures |row| == |raw|
    ensures forall j :: 0 <= j < |raw| ==>
              row[j] == if total <= 0.0 then 1.0 / (|raw| * |raw|) as real else raw[j] / total
  {
    var k := |raw|;
    row := raw;
    for j := 0 to k
      invariant |row| == k
      invariant forall l :: 0 <= l < j ==> row[l] == if total <= 0.0 then 1.0 / (k * k) as real else raw[l] / total
      invariant forall l :: j <= l < k ==> row[l] == raw[l]
    {
      row := row[j := if total <= 0.0 then 1.0 / (k * k) as real else row[j] / total];
    }
  }

  /** Forward, backward, then gamma.  For valid parameters entry [t][i] is the probability
      of state i at bar t given every observation, under the sum-over-paths definition. */
  method PosteriorProbs(m: Hmm, obs: seq<real>) returns (gamma: seq<seq<real>>)
    requires m.Shaped() && |obs| > 0
    ensures |gamma| == |obs| && forall t :: 0 <= t < |obs| ==> |gamma[t]| == m.K()
    ensures (forall s: nat :: s < |obs| ==> Likelihood(m, obs, s) > 0.0) ==>
              forall t, i :: 0 <= t < |obs| && 0 <= i < m.K() ==>
                gamma[t][i] * Likelihood(m, obs, |obs| - 1) == ThroughMass(m, obs, t, i)
  {
    hide Likelihood, ThroughMass, RawRow, Alpha, Beta, Normalised, Products, Total;
    var alpha, c := ForwardScaled(m, obs);
    var beta := BackwardTable(m, obs, c);
    gamma := PosteriorGamma(alpha, beta);
    FallbackIffImpossible(m, obs, |obs|);
    if NoFallback(m, obs, |obs|) {
      forall t | 0 <= t < |obs|
        ensures forall i :: 0 <= i < m.K() ==> gamma[t][i] * Likelihood(m, obs, |obs| - 1) == ThroughMass(m, obs, t, i)
      {
        GammaExact(m, obs, c, t);
      }
    }
  }
}
