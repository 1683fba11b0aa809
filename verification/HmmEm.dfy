/** Baum-Welch: the M-step formulas, what they optimise, and the fact that every EM
    iteration keeps the parameters valid. */
module HmmEm {
  import opened Reals
  import opened Sums
  import opened HmmPaths
  import opened HmmForward
  import opened HmmPosterior

  /** Variances are never allowed below this. */
  const VAR_FLOOR: real := 1.0e-12

  function Cell(rows: seq<seq<real>>, t: int, i: int): real {
    if 0 <= t < |rows| then At(rows[t], i) else 0.0
  }

  function Cell3(xi: seq<seq<seq<real>>>, t: int, i: int, j: int): real {
    if 0 <= t < |xi| then Cell(xi[t], i, j) else 0.0
  }

  // ---------------------------------------------------------------- transitions

  /** Expected visits to state i over the first n bars. */
  ghost function Visits(gamma: seq<seq<real>>, n: nat, i: int): real {
    Sum(n, t => Cell(gamma, t, i))
  }

  /** Expected moves from i to j. */
  ghost function Moves(xi: seq<seq<seq<real>>>, i: int, j: int): real {
    Sum(|xi|, t => Cell3(xi, t, i, j))
  }

  ghost function MoveShares(gamma: seq<seq<real>>, xi: seq<seq<seq<real>>>, k: nat, i: int): (r: seq<real>)
    ensures |r| == k
  {
    var denom := Visits(gamma, |xi|, i);
    if denom == 0.0 then seq(k, j => 0.0) else seq(k, j => Moves(xi, i, j) / denom)
  }

  /** The re-estimated row: moves over visits, renormalised; uniform without mass. */
  ghost function NewTransRow(gamma: seq<seq<real>>, xi: seq<seq<seq<real>>>, k: nat, i: int): (r: seq<real>)
    ensures |r| == k
  {
    if Visits(gamma, |xi|, i) <= TINY then seq(k, j requires 0 <= j < k => 1.0 / k as real)
    else Normalised(MoveShares(gamma, xi, k, i))
  }

  /** xi[t] summed over its second state is gamma[t], at every bar. */
  ghost predicate Consistent(gamma: seq<seq<real>>, xi: seq<seq<seq<real>>>, k: nat) {
    && |gamma| == |xi| + 1
    && forall t, i :: 0 <= t < |xi| && 0 <= i < k ==> AgreeAt(gamma, xi, k, t, i)
  }

  ghost predicate AgreeAt(gamma: seq<seq<real>>, xi: seq<seq<seq<real>>>, k: nat, t: int, i: int)
    requires 0 <= t < |xi| && 0 <= i < k
  {
    |xi[t]| == k && |xi[t][i]| == k && Total(xi[t][i]) == Cell(gamma, t, i)
  }

  lemma {:induction false} MovesTotal(gamma: seq<seq<real>>, xi: seq<seq<seq<real>>>, k: nat, i: int)
    requires Consistent(gamma, xi, k) && 0 <= i < k
    ensures Sum(k, j => Moves(xi, i, j)) == Visits(gamma, |xi|, i)
  {
    hide Total;
    var f := (j, t) => Cell3(xi, t, i, j);
    SumCong(k, j => Moves(xi, i, j), j => Sum(|xi|, t => f(j, t))) by {
      forall j ensures Moves(xi, i, j) == Sum(|xi|, t => f(j, t)) {
        SumCong(|xi|, t => Cell3(xi, t, i, j), t => f(j, t));
      }
    }
    SumSwap(k, |xi|, f);
    forall t | 0 <= t < |xi| ensures Sum(k, j => f(j, t)) == Cell(gamma, t, i) {
      assert AgreeAt(gamma, xi, k, t, i);
      TotalIsSum(xi[t][i]);
      SumCong(k, j => f(j, t), Reading(xi[t][i]));
    }
    SumCong(|xi|, t => Sum(k, j => f(j, t)), t => Cell(gamma, t, i));
  }

  /** The defensive renormalisation of a transition row changes nothing: the row is already
      the expected moves over the expected visits, and already sums to one. */
  lemma {:induction false} RenormalisationIsNoOp(gamma: seq<seq<real>>, xi: seq<seq<seq<real>>>, k: nat, i: int)
    requires Consistent(gamma, xi, k) && 0 <= i < k && Visits(gamma, |xi|, i) > TINY
    ensures Total(MoveShares(gamma, xi, k, i)) == 1.0
    ensures NewTransRow(gamma, xi, k, i) == MoveShares(gamma, xi, k, i)
    ensures forall j :: 0 <= j < k ==> NewTransRow(gamma, xi, k, i)[j] * Visits(gamma, |xi|, i) == Moves(xi, i, j)
  {
    hide Total, Visits, Moves, Sum, Consistent;
    var denom, row := Visits(gamma, |xi|, i), MoveShares(gamma, xi, k, i);
    MovesTotal(gamma, xi, k, i);
    TotalIsSum(row);
    forall j | 0 <= j < k
      ensures Reading(row)(j) == 1.0 / denom * Moves(xi, i, j) && row[j] * denom == Moves(xi, i, j)
    {
      ScaledQuotient(Moves(xi, i, j), denom);
    }
    SumFactor(k, 1.0 / denom, j => Moves(xi, i, j), Reading(row));
    ScaledQuotient(denom, denom);
    NormalisedUnit(row);
  }

  lemma {:induction false} NormalisedUnit(row: seq<real>)
    requires Total(row) == 1.0
    ensures Normalised(row) == row
  {
    hide Total;
    var r := Normalised(row);
    forall i | 0 <= i < |row| ensures r[i] == row[i] {
      assert r[i] == row[i] / Total(row);
      DivideByOne(row[i], Total(row));
    }
  }

  lemma {:induction false} DivideByOne(x: real, s: real)
    requires s == 1.0
    ensures x / s == x
  {
  }

  lemma {:induction false} ScaledQuotient(x: real, d: real)
    requires d > 0.0
    ensures x / d == 1.0 / d * x && x / d * d == x && d / d == 1.0
  {
  }

  // ---------------------------------------------------------------- emissions

  ghost function WeightedSum(obs: seq<real>, gamma: seq<seq<real>>, j: int): real {
    Sum(|obs|, t => Cell(gamma, t, j) * At(obs, t))
  }

  /** Weighted squared error of the observations around a. */
  ghost function SquaredError(obs: seq<real>, gamma: seq<seq<real>>, j: int, a: real): real {
    Sum(|obs|, ErrorTerm(obs, gamma, j, a))
  }

  ghost function ErrorTerm(obs: seq<real>, gamma: seq<seq<real>>, j: int, a: real): int -> real {
    t => Cell(gamma, t, j) * ((At(obs, t) - a) * (At(obs, t) - a))
  }

  ghost function SampleMean(obs: seq<real>): real
    requires |obs| > 0
  {
    Total(obs) / |obs| as real
  }

  ghost function SampleSquares(obs: seq<real>, a: real): real {
    Sum(|obs|, t => (At(obs, t) - a) * (At(obs, t) - a))
  }

  ghost function NewMean(obs: seq<real>, gamma: seq<seq<real>>, j: int): real
    requires |obs| > 0
  {
    if Visits(gamma, |obs|, j) <= TINY then SampleMean(obs)
    else WeightedSum(obs, gamma, j) / Visits(gamma, |obs|, j)
  }

  ghost function NewVariance(obs: seq<real>, gamma: seq<seq<real>>, j: int): (v: real)
    requires |obs| > 0
    ensures v >= VAR_FLOOR
  {
    var mu := NewMean(obs, gamma, j);
    Max(if Visits(gamma, |obs|, j) <= TINY then SampleSquares(obs, mu) / |obs| as real
        else SquaredError(obs, gamma, j, mu) / Visits(gamma, |obs|, j), VAR_FLOOR)
  }

  lemma {:induction false} ExpandError(g: real, x: real, a: real, mu: real)
    ensures g * ((x - a) * (x - a)) == g * ((x - mu) * (x - mu)) + (mu - a) * (2.0 * (g * x) - (mu + a) * g)
  {
    assert (x - a) * (x - a) == (x - mu) * (x - mu) + (mu - a) * (2.0 * x - (mu + a));
    assert g * ((mu - a) * (2.0 * x - (mu + a))) == (mu - a) * (2.0 * (g * x) - (mu + a) * g);
  }

  lemma {:induction false} LinearCombination(n: nat, b: real, c: real, f: int -> real, g: int -> real, h: int -> real)
    requires forall t :: 0 <= t < n ==> h(t) == b * f(t) + c * g(t)
    ensures Sum(n, h) == b * Sum(n, f) + c * Sum(n, g)
  {
    var bf, cg := t => b * f(t), t => c * g(t);
    SumFactor(n, b, f, bf);
    SumFactor(n, c, g, cg);
    SumAdd(n, bf, cg, h);
  }

  /** Moving the centre from mu to a changes the squared error by a sum linear in the
      weights. */
  lemma {:induction false} ErrorShift(obs: seq<real>, gamma: seq<seq<real>>, j: int, a: real, mu: real)
    ensures SquaredError(obs, gamma, j, a) == SquaredError(obs, gamma, j, mu)
            + (mu - a) * (2.0 * WeightedSum(obs, gamma, j) - (mu + a) * Visits(gamma, |obs|, j))
  {
    hide Sum, Cell, At;
    var n := |obs|;
    var g, gx := t => Cell(gamma, t, j), t => Cell(gamma, t, j) * At(obs, t);
    assert WeightedSum(obs, gamma, j) == Sum(n, gx) && Visits(gamma, n, j) == Sum(n, g);
    var lin := t => 2.0 * gx(t) + -(mu + a) * g(t);
    LinearCombination(n, 2.0, -(mu + a), gx, g, lin);
    var ea, em := ErrorTerm(obs, gamma, j, a), ErrorTerm(obs, gamma, j, mu);
    forall t ensures ea(t) == 1.0 * em(t) + (mu - a) * lin(t) {
      ShiftTerm(Cell(gamma, t, j), At(obs, t), a, mu);
    }
    hide ErrorTerm;
    LinearCombination(n, 1.0, mu - a, em, lin, ea);
  }

  lemma {:induction false} ShiftTerm(g: real, x: real, a: real, mu: real)
    ensures g * ((x - a) * (x - a)) == 1.0 * (g * ((x - mu) * (x - mu))) + (mu - a) * (2.0 * (g * x) + -(mu + a) * g)
  {
    ExpandError(g, x, a, mu);
  }

  /** The re-estimated mean is the weighted least-squares centre: moving to any other a
      raises the weighted squared error by the weight times the squared distance. */
  lemma {:induction false} NewMeanMinimises(obs: seq<real>, gamma: seq<seq<real>>, j: int, a: real)
    requires |obs| > 0 && Visits(gamma, |obs|, j) > TINY
    ensures var mu := NewMean(obs, gamma, j);
            && SquaredError(obs, gamma, j, a)
               == SquaredError(obs, gamma, j, mu) + Visits(gamma, |obs|, j) * ((a - mu) * (a - mu))
            && SquaredError(obs, gamma, j, mu) <= SquaredError(obs, gamma, j, a)
  {
    var mu, w, d := NewMean(obs, gamma, j), WeightedSum(obs, gamma, j), Visits(gamma, |obs|, j);
    hide Sum, Visits, WeightedSum, SquaredError;
    ErrorShift(obs, gamma, j, a, mu);
    ScaledQuotient(w, d);
    CentreShift(d, mu, a, w);
  }

  lemma {:induction false} CentreShift(d: real, mu: real, a: real, w: real)
    requires d > 0.0 && mu * d == w
    ensures (mu - a) * (2.0 * w - (mu + a) * d) == d * ((a - mu) * (a - mu))
    ensures d * ((a - mu) * (a - mu)) >= 0.0
  {
    assert 2.0 * w - (mu + a) * d == (mu - a) * d;
    assert (a - mu) * (a - mu) == (mu - a) * (mu - a) && (a - mu) * (a - mu) >= 0.0;
  }

  // ---------------------------------------------------------------- one whole EM step

  ghost function Scales(m: Hmm, obs: seq<real>): (c: seq<real>)
    ensures |c| == |obs|
  {
    seq(|obs|, t requires 0 <= t < |obs| => Scale(RawRow(m, obs, t)))
  }

  ghost function Gammas(m: Hmm, obs: seq<real>): (g: seq<seq<real>>)
    ensures |g| == |obs|
  {
    seq(|obs|, t requires 0 <= t < |obs| => Normalised(Products(Alpha(m, obs, t), Beta(m, obs, Scales(m, obs), t))))
  }

  ghost function Xis(m: Hmm, obs: seq<real>): (x: seq<seq<seq<real>>>)
    requires |obs| > 0
    ensures |x| == |obs| - 1
  {
    seq(|obs| - 1, t requires 0 <= t < |obs| - 1 =>
      seq(m.K(), i => XiRow(m, obs, t, Alpha(m, obs, t), Beta(m, obs, Scales(m, obs), t + 1), i)))
  }

  ghost function EmStep(m: Hmm, obs: seq<real>): (r: Hmm)
    requires |obs| > 0
    ensures r.K() == m.K() && r.gauss == m.gauss
  {
    var g, x, k := Gammas(m, obs), Xis(m, obs), m.K();
    Hmm(m.gauss, seq(k, j => NewMean(obs, g, j)), seq(k, j => NewVariance(obs, g, j)),
        Normalised(g[0]), seq(k, i => NewTransRow(g, x, k, i)))
  }

  /** Parameters an EM step may be given: shaped, stochastic, variances at the floor or
      above, and a density that is positive everywhere. */
  ghost predicate Valid(m: Hmm) {
    && m.Shaped() && m.K() > 0 && m.Stochastic() && m.PositiveDensity()
    && forall j :: 0 <= j < m.K() ==> m.variances[j] >= VAR_FLOOR
  }

  /** The posterior tables an E-step produces agree with each other, for every model. */
  lemma {:induction false} TablesConsistent(m: Hmm, obs: seq<real>)
    requires |obs| > 0
    ensures Consistent(Gammas(m, obs), Xis(m, obs), m.K())
  {
    hide Gammas, Xis, AgreeAt;
    var g, x := Gammas(m, obs), Xis(m, obs);
    forall t, i | 0 <= t < |x| && 0 <= i < m.K() ensures AgreeAt(g, x, m.K(), t, i) {
      AgreesAt(m, obs, t, i);
    }
  }

  lemma {:induction false} AgreesAt(m: Hmm, obs: seq<real>, t: int, i: int)
    requires 0 <= t < |obs| - 1 && 0 <= i < m.K()
    ensures AgreeAt(Gammas(m, obs), Xis(m, obs), m.K(), t, i)
  {
    hide Total, Normalised, XiRow, Alpha, Beta, Products, Scales, BackRow;
    var c := Scales(m, obs);
    BetaIsBackRow(m, obs, c, t);
    XiSumsToGamma(m, obs, t, Alpha(m, obs, t), Beta(m, obs, c, t + 1), At(c, t), i);
  }

  lemma {:induction false} BetaNonnegative(m: Hmm, obs: seq<real>, c: seq<real>, t: nat)
    requires Valid(m) && t < |obs|
    ensures forall i :: 0 <= i < m.K() ==> Beta(m, obs, c, t)[i] >= 0.0
    decreases |obs| - t
  {
    if t + 1 < |obs| {
      BetaNonnegative(m, obs, c, t + 1);
      BetaIsBackRow(m, obs, c, t);
      hide Beta;
      var next := Beta(m, obs, c, t + 1);
      forall i | 0 <= i < m.K() ensures BackRow(m, obs, t, next, At(c, t))[i] >= 0.0 {
        hide Sum;
        BackTermNonnegative(m, obs, t, next, i);
        SumNonneg(m.K(), BackTerm(m, obs, t, next, i));
        DivisionIsScaling(Sum(m.K(), BackTerm(m, obs, t, next, i)), Max(At(c, t), TINY));
      }
    }
  }

  lemma {:induction false} BackTermNonnegative(m: Hmm, obs: seq<real>, t: nat, next: seq<real>, i: int)
    requires Valid(m) && |next| == m.K() && 0 <= i < m.K()
    requires forall j :: 0 <= j < m.K() ==> next[j] >= 0.0
    ensures forall j :: 0 <= j < m.K() ==> BackTerm(m, obs, t, next, i)(j) >= 0.0
  {
    forall j | 0 <= j < m.K() ensures BackTerm(m, obs, t, next, i)(j) >= 0.0 {
      assert m.trans[i][j] >= 0.0;
      Product(m.Emit(obs, t + 1, j), next[j]);
      Product(m.Trans(i, j), m.Emit(obs, t + 1, j) * At(next, j));
    }
  }

  lemma {:induction false} GammaIsDistribution(m: Hmm, obs: seq<real>, t: nat)
    requires Valid(m) && t < |obs|
    ensures |Gammas(m, obs)[t]| == m.K() && Distribution(Gammas(m, obs)[t])
  {
    hide Normalised, Beta, Scales, Alpha, RawRow, Valid, Total;
    var a, b := Alpha(m, obs, t), Beta(m, obs, Scales(m, obs), t);
    ValidIsUsable(m);
    ValidModelNeverFallsBack(m, obs, t + 1);
    BetaNonnegative(m, obs, Scales(m, obs), t);
    forall i | 0 <= i < m.K() ensures Products(a, b)[i] >= 0.0 {
      Product(a[i], b[i]);
    }
    NormalisedIsDistribution(Products(a, b));
  }

  lemma {:induction false} ValidIsUsable(m: Hmm)
    requires Valid(m)
    ensures m.Shaped() && m.K() > 0 && m.Stochastic() && m.PositiveDensity()
  {
  }

  lemma {:induction false} XiNonnegative(m: Hmm, obs: seq<real>, t: nat, i: int, j: int)
    requires Valid(m) && t + 1 < |obs| && 0 <= i < m.K() && 0 <= j < m.K()
    ensures Cell3(Xis(m, obs), t, i, j) >= 0.0
  {
    hide Beta, Scales, Alpha, RawRow, Valid, XiTotal, Total;
    ValidIsUsable(m);
    ValidModelNeverFallsBack(m, obs, t + 1);
    var a, next := Alpha(m, obs, t), Beta(m, obs, Scales(m, obs), t + 1);
    BetaNonnegative(m, obs, Scales(m, obs), t + 1);
    BackTermNonnegative(m, obs, t, next, i);
    hide BackTerm;
    Product(a[i], BackTerm(m, obs, t, next, i)(j));
    var total, x := XiTotal(m, obs, t, a, next), XiTerm(m, obs, t, a, next, i)(j);
    if total > 0.0 {
      DivisionIsScaling(x, total);
    }
  }

  lemma {:induction false} NewTransRowIsDistribution(gamma: seq<seq<real>>, xi: seq<seq<seq<real>>>, k: nat, i: int)
    requires k > 0
    requires forall t, j :: 0 <= t < |xi| && 0 <= j < k ==> Cell3(xi, t, i, j) >= 0.0
    ensures Distribution(NewTransRow(gamma, xi, k, i))
  {
    hide Visits, Moves, Sum, Normalised, Total;
    var denom := Visits(gamma, |xi|, i);
    if denom <= TINY {
      UniformTotal(k);
      assert NewTransRow(gamma, xi, k, i) == seq(k, j => 1.0 / k as real);
      assert 1.0 / k as real >= 0.0;
    } else {
      forall j | 0 <= j < k ensures MoveShares(gamma, xi, k, i)[j] >= 0.0 {
        MovesNonnegative(xi, k, i, j);
        DivisionIsScaling(Moves(xi, i, j), denom);
      }
      NormalisedIsDistribution(MoveShares(gamma, xi, k, i));
    }
  }

  lemma {:induction false} MovesNonnegative(xi: seq<seq<seq<real>>>, k: nat, i: int, j: int)
    requires 0 <= j < k
    requires forall t, j :: 0 <= t < |xi| && 0 <= j < k ==> Cell3(xi, t, i, j) >= 0.0
    ensures Moves(xi, i, j) >= 0.0
  {
    SumNonneg(|xi|, t => Cell3(xi, t, i, j));
  }

  /** An EM step maps valid parameters to valid parameters. */
  lemma {:induction false} EmStepValid(m: Hmm, obs: seq<real>)
    requires Valid(m) && |obs| > 0
    ensures Valid(EmStep(m, obs))
  {
    hide Normalised, NewTransRow, Gammas, Xis, NewMean, NewVariance, Total;
    var r, g, x, k := EmStep(m, obs), Gammas(m, obs), Xis(m, obs), m.K();
    GammaIsDistribution(m, obs, 0);
    NormalisedIsDistribution(g[0]);
    forall i | 0 <= i < k ensures Distribution(r.trans[i]) {
      forall t, j | 0 <= t < |x| && 0 <= j < k ensures Cell3(x, t, i, j) >= 0.0 {
        hide Valid;
        XiNonnegative(m, obs, t, i, j);
      }
      NewTransRowIsDistribution(g, x, k, i);
    }
  }

  ghost function ThroughAt(m: Hmm, obs: seq<real>, i: int): int -> real {
    t => if t >= 0 then ThroughMass(m, obs, t, i) else 0.0
  }

  ghost function MovedAt(m: Hmm, obs: seq<real>, i: int, j: int): int -> real {
    t => if t >= 0 then TransitionMass(m, obs, t, i, j) else 0.0
  }

  /** The E-step's tables, times the likelihood, are weights of state paths. */
  lemma {:induction false} TablesArePathWeights(m: Hmm, obs: seq<real>, t: nat, i: int, j: int)
    requires Valid(m) && t < |obs| && 0 <= i < m.K() && 0 <= j < m.K()
    ensures ThroughAt(m, obs, i)(t) == Likelihood(m, obs, |obs| - 1) * Cell(Gammas(m, obs), t, i)
    ensures t + 1 < |obs| ==> MovedAt(m, obs, i, j)(t) == Likelihood(m, obs, |obs| - 1) * Cell3(Xis(m, obs), t, i, j)
  {
    hide Normalised, Total, Likelihood, ThroughMass, TransitionMass, Valid, Beta, Scales, RawRow, Alpha, XiRow,
         Products;
    var l := Likelihood(m, obs, |obs| - 1);
    ValidIsUsable(m);
    ValidModelNeverFallsBack(m, obs, |obs|);
    GammaExact(m, obs, Scales(m, obs), t);
    Commute(l, Cell(Gammas(m, obs), t, i));
    if t + 1 < |obs| {
      XiExact(m, obs, Scales(m, obs), t, i, j);
      Commute(l, Cell3(Xis(m, obs), t, i, j));
    }
  }

  /** The re-estimated initial weight of i is the share of the likelihood carried by the
      state paths that start in i. */
  lemma {:induction false} NewInitialIsExact(m: Hmm, obs: seq<real>, i: int)
    requires Valid(m) && |obs| > 0 && 0 <= i < m.K()
    ensures EmStep(m, obs).initial[i] * Likelihood(m, obs, |obs| - 1) == ThroughMass(m, obs, 0, i)
  {
    hide Normalised, NewTransRow, NewMean, NewVariance, Total, Likelihood, ThroughMass, Gammas, Xis;
    GammaIsDistribution(m, obs, 0);
    NormalisedUnit(Gammas(m, obs)[0]);
    TablesArePathWeights(m, obs, 0, i, i);
    Commute(Likelihood(m, obs, |obs| - 1), Cell(Gammas(m, obs), 0, i));
  }

  /** The re-estimated transition from i to j is the path weight moving from i to j, over
      the path weight visiting i, both summed over every bar but the last. */
  lemma {:induction false} NewTransitionIsExact(m: Hmm, obs: seq<real>, i: int, j: int)
    requires Valid(m) && |obs| > 0 && 0 <= i < m.K() && 0 <= j < m.K()
    requires Visits(Gammas(m, obs), |obs| - 1, i) > TINY
    ensures EmStep(m, obs).trans[i][j] * Sum(|obs| - 1, ThroughAt(m, obs, i)) == Sum(|obs| - 1, MovedAt(m, obs, i, j))
  {
    hide Normalised, NewTransRow, NewMean, NewVariance, Total, Likelihood, ThroughAt, MovedAt, Gammas, Xis, Visits,
         Moves, Sum, Valid;
    var g, x, n, l := Gammas(m, obs), Xis(m, obs), |obs| - 1, Likelihood(m, obs, |obs| - 1);
    var a := EmStep(m, obs).trans[i][j];
    forall t | 0 <= t < n
      ensures ThroughAt(m, obs, i)(t) == l * Cell(g, t, i) && MovedAt(m, obs, i, j)(t) == l * Cell3(x, t, i, j)
    {
      TablesArePathWeights(m, obs, t, i, j);
    }
    ScaledCounts(g, x, n, i, j, l, ThroughAt(m, obs, i), MovedAt(m, obs, i, j));
    TablesConsistent(m, obs);
    RenormalisationIsNoOp(g, x, m.K(), i);
    ScaleRatio(a, l, Visits(g, n, i), Moves(x, i, j));
  }

  lemma {:induction false} ScaleRatio(a: real, l: real, visits: real, moves: real)
    requires a * visits == moves
    ensures a * (l * visits) == l * moves
  {
    Regroup(l, visits, a);
    assert a * (l * visits) == l * (a * visits);
  }

  lemma {:induction false} ScaledCounts(g: seq<seq<real>>, x: seq<seq<seq<real>>>, n: nat, i: int, j: int, l: real,
                                        through: int -> real, moved: int -> real)
    requires |x| == n
    requires forall t :: 0 <= t < n ==> through(t) == l * Cell(g, t, i) && moved(t) == l * Cell3(x, t, i, j)
    ensures Sum(n, through) == l * Visits(g, n, i) && Sum(n, moved) == l * Moves(x, i, j)
  {
    hide Sum, Cell, Cell3;
    SumFactor(n, l, t => Cell(g, t, i), through);
    SumFactor(n, l, t => Cell3(x, t, i, j), moved);
  }
}
