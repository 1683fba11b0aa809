/** Scaled forward-backward inference, and the proof that it computes exactly the sums
    over state paths that define the likelihood and the state posterior. */
module HmmForward {
  import opened HmmPaths
  import opened Reals
  import opened Sums

  type Positive = r: real | r > 0.0 witness 1.0

  /** Stand-in scale factor for a bar whose total mass underflows to zero.  The program's is
      1e-300; all results here hold for any positive number. */
  const TINY: Positive

  // ---------------------------------------------------------------- specification

  /** Divide a row by its sum, or spread it evenly when the sum is not positive. */
  function Normalised(row: seq<real>): (r: seq<real>)
    ensures |r| == |row|
  {
    var s := Total(row);
    if s <= 0.0 then seq(|row|, i requires 0 <= i < |row| => 1.0 / |row| as real)
    else seq(|row|, i requires 0 <= i < |row| => row[i] / s)
  }

  /** The recorded scale of a row: its sum, or TINY when the sum is not positive. */
  function Scale(row: seq<real>): (c: real)
    ensures c > 0.0
  {
    var s := Total(row);
    if s <= 0.0 then TINY else s
  }

  /** row(i) flowing from state i into state j. */
  ghost function Flow(m: Hmm, row: int -> real, j: int): int -> real {
    i => row(i) * m.Trans(i, j)
  }

  /** Weight arriving in state j when row(i) sits in state i one bar earlier. */
  ghost function Inflow(m: Hmm, row: int -> real, j: int): real {
    Sum(m.K(), Flow(m, row, j))
  }

  /** One unscaled forward step out of the scaled row `prev` into bar t. */
  ghost function Step(m: Hmm, obs: seq<real>, prev: seq<real>, t: int): (r: seq<real>) {
    seq(m.K(), j => Inflow(m, Reading(prev), j) * m.Emit(obs, t, j))
  }

  ghost function FirstRow(m: Hmm, obs: seq<real>): (r: seq<real>) {
    seq(m.K(), i => m.Init(i) * m.Emit(obs, 0, i))
  }

  /** Bar t's row before it is scaled. */
  ghost function RawRow(m: Hmm, obs: seq<real>, t: nat): (r: seq<real>)
    ensures |r| == m.K()
  {
    if t == 0 then FirstRow(m, obs)
    else Step(m, obs, Normalised(RawRow(m, obs, t - 1)), t)
  }

  ghost function Alpha(m: Hmm, obs: seq<real>, t: nat): (r: seq<real>)
    ensures |r| == m.K()
  {
    Normalised(RawRow(m, obs, t))
  }

  /** c(0) * ... * c(t), the product of the recorded scales. */
  ghost function ScaleProduct(m: Hmm, obs: seq<real>, t: nat): (r: real)
    ensures r > 0.0
  {
    var c := Scale(RawRow(m, obs, t));
    if t == 0 then c else ScaleProduct(m, obs, t - 1) * c
  }

  ghost function WeightOf(m: Hmm, obs: seq<real>): seq<int> -> real {
    p => Weight(m, obs, p)
  }

  /** Total weight of the paths of bars 0..t that end in state i. */
  ghost function PrefixMass(m: Hmm, obs: seq<real>, t: nat, i: int): real {
    PathSum(t, m.K(), EndingIn(WeightOf(m, obs), i))
  }

  /** The likelihood of the first t+1 observations: the weight of every path. */
  ghost function Likelihood(m: Hmm, obs: seq<real>, t: nat): real {
    PathSum(t + 1, m.K(), WeightOf(m, obs))
  }

  // ---------------------------------------------------------------- forward theorem

  lemma {:induction false} LikelihoodByLastState(m: Hmm, obs: seq<real>, t: nat)
    ensures Likelihood(m, obs, t) == Sum(m.K(), i => PrefixMass(m, obs, t, i))
  {
    SumCong(m.K(), i => PathSum(t, m.K(), EndingIn(WeightOf(m, obs), i)), i => PrefixMass(m, obs, t, i));
  }

  lemma {:induction false} WeightStep(m: Hmm, obs: seq<real>, q: seq<int>, i: int, j: int, c: real)
    requires c == m.Trans(i, j) * m.Emit(obs, |q| + 1, j)
    ensures Weight(m, obs, q + [i] + [j]) == c * Weight(m, obs, q + [i])
  {
    var p, w, a, e := q + [i] + [j], Weight(m, obs, q + [i]), m.Trans(i, j), m.Emit(obs, |q| + 1, j);
    assert p[..|p| - 1] == q + [i];
    assert Weight(m, obs, p) == w * a * e;
    Regroup(w, a, e);
  }

  lemma {:induction false} Regroup(w: real, a: real, e: real)
    ensures w * a * e == (a * e) * w
    ensures (a * e) * w == e * (w * a)
  {
  }

  lemma {:induction false} InflowScale(m: Hmm, c: real, row: int -> real, scaled: int -> real, j: int)
    requires forall i :: 0 <= i < m.K() ==> scaled(i) == c * row(i)
    ensures Inflow(m, scaled, j) == c * Inflow(m, row, j)
  {
    var f := Flow(m, row, j);
    forall i | 0 <= i < m.K() ensures Flow(m, scaled, j)(i) == c * f(i) {
      Regroup(c, row(i), m.Trans(i, j));
    }
    hide Flow;
    SumFactor(m.K(), c, f, Flow(m, scaled, j));
  }

  ghost function PrefixMasses(m: Hmm, obs: seq<real>, t: nat): int -> real {
    i => PrefixMass(m, obs, t, i)
  }

  lemma {:induction false} PathSumFactor(m: Hmm, obs: seq<real>, t: nat, i: int, j: int, c: real)
    requires c == m.Trans(i, j) * m.Emit(obs, t + 1, j)
    ensures PathSum(t, m.K(), EndingIn(EndingIn(WeightOf(m, obs), j), i)) == c * PrefixMass(m, obs, t, i)
  {
    hide Weight, PathSum;
    var f, g := EndingIn(WeightOf(m, obs), i), EndingIn(EndingIn(WeightOf(m, obs), j), i);
    forall q | IsPath(q, t, m.K()) ensures g(q) == c * f(q) {
      WeightStep(m, obs, q, i, j, c);
      assert g(q) == Weight(m, obs, q + [i] + [j]) && f(q) == Weight(m, obs, q + [i]);
    }
    PathSumFactors(t, m.K(), c, f, g);
  }

  lemma {:induction false} PrefixMassLast(m: Hmm, obs: seq<real>, t: nat, i: int, j: int)
    ensures PathSum(t, m.K(), EndingIn(EndingIn(WeightOf(m, obs), j), i))
            == m.Emit(obs, t + 1, j) * Flow(m, PrefixMasses(m, obs, t), j)(i)
  {
    hide PathSum, WeightOf, EndingIn, PrefixMass;
    PathSumFactor(m, obs, t, i, j, m.Trans(i, j) * m.Emit(obs, t + 1, j));
    Regroup(PrefixMass(m, obs, t, i), m.Trans(i, j), m.Emit(obs, t + 1, j));
  }

  lemma {:induction false} PrefixMassBase(m: Hmm, obs: seq<real>, j: int)
    ensures PrefixMass(m, obs, 0, j) == m.Init(j) * m.Emit(obs, 0, j)
  {
    assert [] + [j] == [j];
  }

  /** The unscaled forward recursion, read off the sum over paths. */
  lemma {:induction false} PrefixMassStep(m: Hmm, obs: seq<real>, t: nat, j: int)
    ensures PrefixMass(m, obs, t + 1, j) == m.Emit(obs, t + 1, j) * Inflow(m, PrefixMasses(m, obs, t), j)
  {
    hide PrefixMass, Flow, PathSum;
    var e, f := m.Emit(obs, t + 1, j), Flow(m, PrefixMasses(m, obs, t), j);
    var inner := i => PathSum(t, m.K(), EndingIn(EndingIn(WeightOf(m, obs), j), i));
    forall i ensures inner(i) == e * f(i) {
      PrefixMassLast(m, obs, t, i, j);
    }
    PrefixMassUnfold(m, obs, t, j, inner);
    SumFactor(m.K(), e, f, inner);
  }

  lemma {:induction false} PrefixMassUnfold(m: Hmm, obs: seq<real>, t: nat, j: int, inner: int -> real)
    requires forall i :: inner(i) == PathSum(t, m.K(), EndingIn(EndingIn(WeightOf(m, obs), j), i))
    ensures PrefixMass(m, obs, t + 1, j) == Sum(m.K(), inner)
  {
    SumCong(m.K(), inner, i => PathSum(t, m.K(), EndingIn(EndingIn(WeightOf(m, obs), j), i)));
  }

  /** The uniform row was not substituted at any bar before n. */
  ghost predicate NoFallback(m: Hmm, obs: seq<real>, n: nat) {
    forall s: nat :: s < n ==> Total(RawRow(m, obs, s)) > 0.0
  }

  ghost function ProductBefore(m: Hmm, obs: seq<real>, t: nat): (r: real)
    ensures r > 0.0
  {
    if t == 0 then 1.0 else ScaleProduct(m, obs, t - 1)
  }

  /** Row t of the scaled table, times the scales so far, is the sum over paths. */
  ghost predicate ScaledExactly(m: Hmm, obs: seq<real>, t: nat) {
    forall i :: 0 <= i < m.K() ==> Alpha(m, obs, t)[i] * ScaleProduct(m, obs, t) == PrefixMass(m, obs, t, i)
  }

  lemma {:induction false} CancelDivision(x: real, s: real, b: real)
    requires s != 0.0
    ensures x / s * (b * s) == b * x
    ensures (s * b) * (x / s) == b * x
  {
    assert x / s * s == x;
    Regroup(b, x / s, s);
    Regroup(b, s, x / s);
  }

  /** Dividing a row by its sum and multiplying the sum into the product cancel. */
  lemma {:induction false} RescaleCancels(row: seq<real>, b: real, i: int)
    requires Total(row) > 0.0 && 0 <= i < |row|
    ensures Normalised(row)[i] * (b * Scale(row)) == b * row[i]
  {
    hide Total;
    CancelDivision(row[i], Total(row), b);
  }

  lemma {:induction false} ScaleIsTotal(row: seq<real>)
    requires Total(row) > 0.0
    ensures Scale(row) == Total(row)
  {
  }

  lemma {:induction false} ScaledTotal(m: Hmm, row: seq<real>, b: real, mass: int -> real)
    requires |row| == m.K()
    requires forall i :: 0 <= i < m.K() ==> mass(i) == b * row[i]
    ensures Sum(m.K(), mass) == b * Total(row)
  {
    TotalIsSum(row);
    SumFactor(m.K(), b, Reading(row), mass);
  }

  lemma {:induction false} ScaleProductStep(m: Hmm, obs: seq<real>, t: nat)
    ensures ScaleProduct(m, obs, t) == ProductBefore(m, obs, t) * Scale(RawRow(m, obs, t))
  {
    hide RawRow, Scale;
  }

  lemma {:induction false} RawRowFromPrevious(m: Hmm, obs: seq<real>, t: nat, j: int)
    requires t > 0 && 0 <= j < m.K()
    requires ScaledExactly(m, obs, t - 1)
    ensures ProductBefore(m, obs, t) * RawRow(m, obs, t)[j] == PrefixMass(m, obs, t, j)
  {
    hide ScaleProduct, PrefixMass, Normalised, Inflow;
    var before, prev, e := ScaleProduct(m, obs, t - 1), Alpha(m, obs, t - 1), m.Emit(obs, t, j);
    PrefixMassStep(m, obs, t - 1, j);
    InflowScale(m, before, Reading(prev), PrefixMasses(m, obs, t - 1), j);
    Regroup(before, Inflow(m, Reading(prev), j), e);
  }

  /** Until a bar has fallen back to the uniform row, a raw row times the scales before it
      is the sum over paths, so its total times those scales is the likelihood. */
  lemma {:induction false} RawRowExact(m: Hmm, obs: seq<real>, t: nat)
    requires NoFallback(m, obs, t)
    ensures forall j :: 0 <= j < m.K() ==> ProductBefore(m, obs, t) * RawRow(m, obs, t)[j] == PrefixMass(m, obs, t, j)
    ensures ProductBefore(m, obs, t) * Total(RawRow(m, obs, t)) == Likelihood(m, obs, t)
    decreases t, 0
  {
    hide PrefixMass, Normalised, Step, Likelihood, Scale, Total, RawRow, ScaleProduct, ProductBefore;
    var raw, before := RawRow(m, obs, t), ProductBefore(m, obs, t);
    if t > 0 {
      assert NoFallback(m, obs, t - 1 + 1);
      ForwardExact(m, obs, t - 1);
    }
    forall j | 0 <= j < m.K() ensures before * raw[j] == PrefixMass(m, obs, t, j) {
      if t == 0 {
        FirstRawRow(m, obs, j);
      } else {
        RawRowFromPrevious(m, obs, t, j);
      }
    }
    LikelihoodByLastState(m, obs, t);
    ScaledTotal(m, raw, before, i => PrefixMass(m, obs, t, i));
  }

  lemma {:induction false} FirstRawRow(m: Hmm, obs: seq<real>, j: int)
    requires 0 <= j < m.K()
    ensures ProductBefore(m, obs, 0) * RawRow(m, obs, 0)[j] == PrefixMass(m, obs, 0, j)
  {
    PrefixMassBase(m, obs, j);
  }

  /** While no bar has fallen back to the uniform row, the scaled table times the scales
      so far is the sum over paths; the scales alone multiply to the likelihood. */
  lemma {:induction false} ForwardExact(m: Hmm, obs: seq<real>, t: nat)
    requires NoFallback(m, obs, t + 1)
    ensures ScaledExactly(m, obs, t)
    ensures ScaleProduct(m, obs, t) == Likelihood(m, obs, t)
    decreases t, 1
  {
    hide PrefixMass, Normalised, Step, Likelihood, Total, RawRow, ScaleProduct, ProductBefore, Scale;
    RawRowExact(m, obs, t);
    ScaleProductStep(m, obs, t);
    ScaleIsTotal(RawRow(m, obs, t));
    forall i | 0 <= i < m.K()
      ensures Alpha(m, obs, t)[i] * ScaleProduct(m, obs, t) == PrefixMass(m, obs, t, i)
    {
      RescaleCancels(RawRow(m, obs, t), ProductBefore(m, obs, t), i);
    }
  }

  /** The fallback row is substituted exactly when some prefix of the observations has
      no positive likelihood: for every model, whatever its parameters. */
  lemma {:induction false} FallbackIffImpossible(m: Hmm, obs: seq<real>, n: nat)
    ensures NoFallback(m, obs, n) <==> forall s: nat :: s < n ==> Likelihood(m, obs, s) > 0.0
  {
    hide RawRow, Likelihood, Total, ProductBefore;
    if n > 0 {
      FallbackIffImpossible(m, obs, n - 1);
      if NoFallback(m, obs, n - 1) {
        RawRowExact(m, obs, n - 1);
        SignOfProduct(ProductBefore(m, obs, n - 1), Total(RawRow(m, obs, n - 1)));
      }
    }
  }

  lemma {:induction false} SignOfProduct(b: real, x: real)
    requires b > 0.0
    ensures b * x > 0.0 <==> x > 0.0
    ensures b * x >= 0.0 <==> x >= 0.0
  {
  }

  // ---------------------------------------------------------------- positivity

  lemma {:induction false} UniformTotal(n: nat)
    requires n > 0
    ensures Total(seq(n, i => 1.0 / n as real)) == 1.0
  {
    var u := seq(n, i => 1.0 / n as real);
    TotalIsSum(u);
    SumConst(n, 1.0 / n as real, Reading(u));
  }

  /** A nonnegative row normalises to a distribution, by division or by the fallback. */
  lemma {:induction false} NormalisedIsDistribution(row: seq<real>)
    requires |row| > 0 && forall i :: 0 <= i < |row| ==> row[i] >= 0.0
    ensures Distribution(Normalised(row))
  {
    hide Total;
    var s, r := Total(row), Normalised(row);
    if s <= 0.0 {
      UniformTotal(|row|);
      UniformIsPositive(|row|);
      assert r == seq(|row|, i => 1.0 / |row| as real);
    } else {
      TotalIsSum(row);
      TotalIsSum(r);
      var scale := 1.0 / s;
      forall i | 0 <= i < |row| ensures Reading(r)(i) == scale * Reading(row)(i) && r[i] >= 0.0 {
        DivisionIsScaling(row[i], s);
        ShareIsNonnegative(row[i], s);
      }
      SumFactor(|row|, scale, Reading(row), Reading(r));
      assert scale * s == 1.0;
    }
  }

  lemma {:induction false} UniformIsPositive(k: nat)
    requires k > 0
    ensures 1.0 / k as real > 0.0
  {
  }

  lemma {:induction false} ShareIsNonnegative(x: real, s: real)
    requires x >= 0.0 && s > 0.0
    ensures x / s >= 0.0
  {
  }

  lemma {:induction false} DivisionIsScaling(x: real, s: real)
    requires s > 0.0
    ensures x / s == 1.0 / s * x
    ensures x >= 0.0 ==> x / s >= 0.0
  {
  }

  /** Some state of a distribution over k states has positive weight. */
  lemma {:induction false} DistributionHasSupport(s: seq<real>) returns (i: nat)
    requires Distribution(s)
    ensures i < |s| && s[i] > 0.0
  {
    TotalIsSum(s);
    SumPositive(|s|, Reading(s));
    i :| 0 <= i < |s| && Reading(s)(i) > 0.0;
  }

  lemma {:induction false} InflowNonnegative(m: Hmm, prev: seq<real>, j: int)
    requires m.Shaped() && m.Stochastic() && |prev| == m.K() && Distribution(prev) && 0 <= j < m.K()
    ensures Inflow(m, Reading(prev), j) >= 0.0
    ensures forall i :: 0 <= i < m.K() && prev[i] > 0.0 && m.Trans(i, j) > 0.0 ==> Inflow(m, Reading(prev), j) > 0.0
  {
    hide Total, Sum;
    var f := Flow(m, Reading(prev), j);
    forall i | 0 <= i < m.K() ensures f(i) >= 0.0 && (prev[i] > 0.0 && m.Trans(i, j) > 0.0 ==> f(i) > 0.0) {
      assert m.trans[i][j] >= 0.0;
      Product(prev[i], m.Trans(i, j));
    }
    SumNonneg(m.K(), f);
  }

  /** With a distribution of predecessors, stochastic rows and a positive density, some
      weight always arrives. */
  lemma {:induction false} StepIsPositive(m: Hmm, obs: seq<real>, prev: seq<real>, t: int)
    requires m.Shaped() && m.Stochastic() && m.PositiveDensity()
    requires |prev| == m.K() && Distribution(prev)
    ensures forall j :: 0 <= j < m.K() ==> Step(m, obs, prev, t)[j] >= 0.0
    ensures Total(Step(m, obs, prev, t)) > 0.0
  {
    hide Total, Inflow, Sum;
    var step := Step(m, obs, prev, t);
    forall j | 0 <= j < m.K()
      ensures step[j] >= 0.0 && (Inflow(m, Reading(prev), j) > 0.0 ==> step[j] > 0.0)
    {
      InflowNonnegative(m, prev, j);
      SignOfProduct(m.Emit(obs, t, j), Inflow(m, Reading(prev), j));
    }
    var i := DistributionHasSupport(prev);
    var j := DistributionHasSupport(m.trans[i]);
    InflowNonnegative(m, prev, j);
    assert prev[i] > 0.0 && m.Trans(i, j) > 0.0;
    TotalIsSum(step);
    SumPositive(m.K(), Reading(step));
    assert Reading(step)(j) > 0.0;
  }

  lemma {:induction false} FirstRowIsPositive(m: Hmm, obs: seq<real>)
    requires m.Shaped() && m.Stochastic() && m.PositiveDensity()
    ensures forall i :: 0 <= i < m.K() ==> RawRow(m, obs, 0)[i] >= 0.0
    ensures Total(RawRow(m, obs, 0)) > 0.0
  {
    hide Total, Sum;
    var row := RawRow(m, obs, 0);
    TotalIsSum(m.initial);
    TotalIsSum(row);
    forall i | 0 <= i < m.K() ensures row[i] >= 0.0 && (m.initial[i] > 0.0 ==> row[i] > 0.0) {
      Product(m.initial[i], m.Emit(obs, 0, i));
    }
    SumReweighted(m.K(), Reading(m.initial), Reading(row));
  }

  /** Valid parameters never meet the zero-mass fallback, every observation series has a
      positive likelihood, and every scaled row is a distribution over the states. */
  lemma {:induction false} ValidModelNeverFallsBack(m: Hmm, obs: seq<real>, n: nat)
    requires m.Shaped() && m.K() > 0 && m.Stochastic() && m.PositiveDensity()
    ensures NoFallback(m, obs, n)
    ensures forall t: nat :: t < n ==> Distribution(Alpha(m, obs, t)) && Likelihood(m, obs, t) > 0.0
  {
    hide Likelihood, Total, Step;
    if n > 0 {
      ValidModelNeverFallsBack(m, obs, n - 1);
      if n == 1 {
        FirstRowIsPositive(m, obs);
      } else {
        assert Distribution(Alpha(m, obs, n - 2));
        StepIsPositive(m, obs, Alpha(m, obs, n - 2), n - 1);
      }
      hide Normalised, RawRow;
      NormalisedIsDistribution(RawRow(m, obs, n - 1));
      FallbackIffImpossible(m, obs, n);
    }
  }

  // ---------------------------------------------------------------- the program

  /** Divide a filled row by its sum in place, or overwrite it with the uniform row. */
  method Rescale(raw: seq<real>) returns (row: seq<real>, c: real)
    ensures row == Normalised(raw) && c == Scale(raw)
  {
    var k := |raw|;
    row := raw;
    var s := Total(raw);
    if s <= 0.0 {
      c := TINY;
      for i := 0 to k
        invariant |row| == k && forall j :: 0 <= j < i ==> row[j] == 1.0 / k as real
      {
        row := row[i := 1.0 / k as real];
      }
    } else {
      c := s;
      for i := 0 to k
        invariant |row| == k && forall j :: 0 <= j < k ==> row[j] == if j < i then raw[j] / s else raw[j]
      {
        row := row[i := row[i] / s];
      }
    }
  }

  method FillFirstRow(m: Hmm, obs: seq<real>) returns (row: seq<real>)
    requires m.Shaped() && |obs| > 0
    ensures row == FirstRow(m, obs)
  {
    row := seq(m.K(), _ => 0.0);
    for i := 0 to m.K()
      invariant |row| == m.K() && forall l :: 0 <= l < i ==> row[l] == FirstRow(m, obs)[l]
    {
      row := row[i := m.Init(i) * m.Emit(obs, 0, i)];
    }
  }

  /** The inner two loops of the induction: weight flowing from every state into each. */
  method FillRow(m: Hmm, obs: seq<real>, prev: seq<real>, t: nat) returns (row: seq<real>)
    requires m.Shaped() && 0 < t < |obs| && |prev| == m.K()
    ensures row == Step(m, obs, prev, t)
  {
    var k := m.K();
    row := seq(k, _ => 0.0);
    for j := 0 to k
      invariant |row| == k && forall l :: 0 <= l < j ==> row[l] == Step(m, obs, prev, t)[l]
    {
      var weight := 0.0;
      for i := 0 to k
        invariant weight == Sum(i, Flow(m, Reading(prev), j))
      {
        assert Flow(m, Reading(prev), j)(i) == Reading(prev)(i) * m.Trans(i, j);
        weight := weight + At(prev, i) * m.Trans(i, j);
      }
      row := row[j := weight * m.Emit(obs, t, j)];
    }
  }

  /** The scaled forward table and its scales, filled bar by bar. */
  method ForwardScaled(m: Hmm, obs: seq<real>) returns (alpha: seq<seq<real>>, c: seq<real>)
    requires m.Shaped() && |obs| > 0
    ensures |alpha| == |c| == |obs|
    ensures forall t :: 0 <= t < |obs| ==> alpha[t] == Alpha(m, obs, t) && c[t] == Scale(RawRow(m, obs, t))
  {
    hide FirstRow, Step, Normalised, Scale;
    var n, k := |obs|, m.K();
    alpha, c := seq(n, _ => seq(k, _ => 0.0)), seq(n, _ => 0.0);
    var row := FillFirstRow(m, obs);
    var s: real;
    row, s := Rescale(row);
    alpha, c := alpha[0 := row], c[0 := s];
    for t := 1 to n
      invariant |alpha| == |c| == n
      invariant forall u :: 0 <= u < t ==> alpha[u] == Alpha(m, obs, u) && c[u] == Scale(RawRow(m, obs, u))
    {
      row := FillRow(m, obs, alpha[t - 1], t);
      row, s := Rescale(row);
      alpha, c := alpha[t := row], c[t := s];
    }
  }
}
