/** The re-estimated mean and variance of a state, as moments of the observations under the
    weights of the state paths. */
module HmmMoments {
  import opened Reals
  import opened Sums
  import opened HmmPaths
  import opened HmmForward
  import opened HmmPosterior
  import opened HmmEm

  /** The weight of all the paths that visit state j, over every bar. */
  ghost function Presence(m: Hmm, obs: seq<real>, j: int): real { Sum(|obs|, ThroughAt(m, obs, j)) }

  /** Each observation, weighted by the paths that are in state j at its bar. */
  ghost function Seen(m: Hmm, obs: seq<real>, j: int): int -> real {
    t => ThroughAt(m, obs, j)(t) * At(obs, t)
  }

  /** Its squared distance from a, weighted likewise. */
  ghost function Spread(m: Hmm, obs: seq<real>, j: int, a: real): int -> real {
    t => ThroughAt(m, obs, j)(t) * ((At(obs, t) - a) * (At(obs, t) - a))
  }

  ghost function Square(obs: seq<real>, a: real): int -> real {
    t => (At(obs, t) - a) * (At(obs, t) - a)
  }

  /** The gamma table's sums, times the likelihood, are those path weights. */
  lemma {:induction false} TablesArePresence(m: Hmm, obs: seq<real>, j: int, a: real)
    requires Valid(m) && |obs| > 0 && 0 <= j < m.K()
    ensures var g, l := Gammas(m, obs), Likelihood(m, obs, |obs| - 1);
            && l > 0.0 && Presence(m, obs, j) == l * Visits(g, |obs|, j)
            && Sum(|obs|, Seen(m, obs, j)) == l * WeightedSum(obs, g, j)
            && Sum(|obs|, Spread(m, obs, j, a)) == l * SquaredError(obs, g, j, a)
  {
    hide Valid, Likelihood, Gammas, Sum, ThroughAt, Cell, ErrorTerm, Seen, Spread;
    var g, l, n := Gammas(m, obs), Likelihood(m, obs, |obs| - 1), |obs|;
    var visited, summed := t => Cell(g, t, j), t => Cell(g, t, j) * At(obs, t);
    LikelihoodIsPositive(m, obs);
    forall t | 0 <= t < n
      ensures ThroughAt(m, obs, j)(t) == l * visited(t) && Seen(m, obs, j)(t) == l * summed(t)
      ensures Spread(m, obs, j, a)(t) == l * ErrorTerm(obs, g, j, a)(t)
    {
      PresenceAt(m, obs, j, a, t);
    }
    SumFactor(n, l, visited, ThroughAt(m, obs, j));
    SumFactor(n, l, summed, Seen(m, obs, j));
    SumFactor(n, l, ErrorTerm(obs, g, j, a), Spread(m, obs, j, a));
  }

  lemma {:induction false} PresenceAt(m: Hmm, obs: seq<real>, j: int, a: real, t: nat)
    requires Valid(m) && t < |obs| && 0 <= j < m.K()
    ensures var g, l := Gammas(m, obs), Likelihood(m, obs, |obs| - 1);
            && ThroughAt(m, obs, j)(t) == l * Cell(g, t, j)
            && Seen(m, obs, j)(t) == l * (Cell(g, t, j) * At(obs, t))
            && Spread(m, obs, j, a)(t) == l * ErrorTerm(obs, g, j, a)(t)
  {
    hide Valid, Likelihood, Gammas, ThroughAt, Cell;
    TablesArePathWeights(m, obs, t, j, j);
    var l, g := Likelihood(m, obs, |obs| - 1), Cell(Gammas(m, obs), t, j);
    Regrouped(l, g, At(obs, t));
    Regrouped(l, g, (At(obs, t) - a) * (At(obs, t) - a));
  }

  lemma {:induction false} LikelihoodIsPositive(m: Hmm, obs: seq<real>)
    requires Valid(m) && |obs| > 0
    ensures Likelihood(m, obs, |obs| - 1) > 0.0
  {
    hide Likelihood;
    ValidIsUsable(m);
    ValidModelNeverFallsBack(m, obs, |obs|);
  }

  lemma {:induction false} Regrouped(l: real, g: real, x: real)
    ensures l * g * x == l * (g * x)
  {
  }

  /** A state that some weight visits gets the mean and the variance of the observations under
      the weights of the paths that are in it; the variance is raised to the floor if it falls
      below, and no other centre would have given a smaller one. */
  lemma {:induction false} NewMomentsAreExact(m: Hmm, obs: seq<real>, j: int, a: real)
    requires Valid(m) && |obs| > 0 && 0 <= j < m.K()
    requires Presence(m, obs, j) > TINY * Likelihood(m, obs, |obs| - 1)
    ensures var r, weight := EmStep(m, obs), Presence(m, obs, j);
            var mean, v := r.means[j], r.variances[j];
            && weight > 0.0 && mean * weight == Sum(|obs|, Seen(m, obs, j))
            && v >= VAR_FLOOR
            && (v > VAR_FLOOR ==> v * weight == Sum(|obs|, Spread(m, obs, j, mean)))
            && (v == VAR_FLOOR ==> Sum(|obs|, Spread(m, obs, j, mean)) <= v * weight)
            && Sum(|obs|, Spread(m, obs, j, mean)) <= Sum(|obs|, Spread(m, obs, j, a))
  {
    hide Valid, Likelihood, Gammas, Xis, Sum, Visits, WeightedSum, SquaredError, Seen, Spread, NewTransRow, Normalised,
         Presence;
    var g, l := Gammas(m, obs), Likelihood(m, obs, |obs| - 1);
    var mean, v := EmStep(m, obs).means[j], EmStep(m, obs).variances[j];
    var visits, sum, errors := Visits(g, |obs|, j), WeightedSum(obs, g, j), SquaredError(obs, g, j, mean);
    TablesArePresence(m, obs, j, mean);
    TablesArePresence(m, obs, j, a);
    MassScales(l, visits);
    MomentsOf(obs, g, j);
    NewMeanMinimises(obs, g, j, a);
    hide EmStep, NewMean, NewVariance;
    ScaledMoment(l, visits, mean, sum);
    ScaledMoment(l, visits, v, errors);
    ScaledAtMost(l, errors, v * visits);
    ScaledAtMost(l, errors, SquaredError(obs, g, j, a));
    assert v * (l * visits) == l * (v * visits);
  }

  lemma {:induction false} MassScales(l: real, visits: real)
    requires l > 0.0
    ensures l * visits > TINY * l <==> visits > TINY
    ensures visits > TINY ==> l * visits > 0.0
  {
    assert (visits - TINY) * l == l * visits - TINY * l;
    SignOf(visits - TINY, l);
    if visits > TINY {
      Product(l, visits);
    }
  }

  lemma {:induction false} ScaledMoment(l: real, visits: real, x: real, sum: real)
    ensures x * visits == sum ==> x * (l * visits) == l * sum
  {
    assert x * (l * visits) == l * (x * visits);
  }

  lemma {:induction false} ScaledAtMost(l: real, x: real, y: real)
    requires l > 0.0
    ensures x <= y ==> l * x <= l * y
  {
    if x <= y {
      ScaleUp(x, y, l);
    }
  }

  /** The two quotients of the re-estimate, multiplied out. */
  lemma {:induction false} MomentsOf(obs: seq<real>, g: seq<seq<real>>, j: int)
    requires |obs| > 0 && Visits(g, |obs|, j) > TINY
    ensures var visits, mean, v := Visits(g, |obs|, j), NewMean(obs, g, j), NewVariance(obs, g, j);
            && mean * visits == WeightedSum(obs, g, j) && v >= VAR_FLOOR
            && (v > VAR_FLOOR ==> v * visits == SquaredError(obs, g, j, mean))
            && (v == VAR_FLOOR ==> SquaredError(obs, g, j, mean) <= v * visits)
  {
    hide Visits, WeightedSum, SquaredError;
    var visits, mean := Visits(g, |obs|, j), NewMean(obs, g, j);
    var sum, errors := WeightedSum(obs, g, j), SquaredError(obs, g, j, mean);
    var q := errors / visits;
    ScaledQuotient(sum, visits);
    ScaledQuotient(errors, visits);
    if q <= VAR_FLOOR {
      ScaleUp(q, VAR_FLOOR, visits);
    }
  }

  /** A state that next to no weight visits gets the plain sample mean and sample variance,
      that too raised to the floor. */
  lemma {:induction false} NewMomentsWithoutMass(m: Hmm, obs: seq<real>, j: int)
    requires Valid(m) && |obs| > 0 && 0 <= j < m.K()
    requires Presence(m, obs, j) <= TINY * Likelihood(m, obs, |obs| - 1)
    ensures var r := EmStep(m, obs); SampleMoments(obs, r.means[j], r.variances[j])
  {
    hide Valid, Likelihood, Gammas, Xis, Sum, Visits, NewTransRow, Normalised, Presence, SampleMoments;
    var g, l := Gammas(m, obs), Likelihood(m, obs, |obs| - 1);
    TablesArePresence(m, obs, j, 0.0);
    MassScales(l, Visits(g, |obs|, j));
    assert EmStep(m, obs).means[j] == SampleMean(obs);
    SampleMomentsAre(obs, SampleMean(obs), EmStep(m, obs).variances[j]);
  }

  /** The mean and the floored variance of a sample, multiplied out. */
  ghost predicate SampleMoments(obs: seq<real>, mean: real, v: real) {
    var n := |obs| as real;
    && mean * n == Sum(|obs|, Reading(obs)) && v >= VAR_FLOOR
    && (v > VAR_FLOOR ==> v * n == Sum(|obs|, Square(obs, mean)))
    && (v == VAR_FLOOR ==> Sum(|obs|, Square(obs, mean)) <= v * n)
  }

  lemma {:induction false} SampleMomentsAre(obs: seq<real>, mean: real, v: real)
    requires |obs| > 0 && mean == SampleMean(obs) && v == Max(SampleSquares(obs, mean) / |obs| as real, VAR_FLOOR)
    ensures SampleMoments(obs, mean, v)
  {
    hide Sum, Total;
    var n, squares := |obs| as real, SampleSquares(obs, mean);
    TotalIsSum(obs);
    SumCong(|obs|, t => (At(obs, t) - mean) * (At(obs, t) - mean), Square(obs, mean));
    hide SampleSquares, Square;
    var q := squares / n;
    ScaledQuotient(Total(obs), n);
    ScaledQuotient(squares, n);
    if q <= VAR_FLOOR {
      ScaleUp(q, VAR_FLOOR, n);
    }
  }

  /** A state that next to no weight leaves gets a uniform row. */
  lemma {:induction false} NewTransitionWithoutMass(m: Hmm, obs: seq<real>, i: int, j: int)
    requires Valid(m) && |obs| > 0 && 0 <= i < m.K() && 0 <= j < m.K()
    requires Sum(|obs| - 1, ThroughAt(m, obs, i)) <= TINY * Likelihood(m, obs, |obs| - 1)
    ensures EmStep(m, obs).trans[i][j] * m.K() as real == 1.0
  {
    hide Valid, Likelihood, Gammas, Xis, Sum, Cell, ThroughAt, NewMean, NewVariance, Normalised, MoveShares;
    var g, l, n := Gammas(m, obs), Likelihood(m, obs, |obs| - 1), |obs| - 1;
    LikelihoodIsPositive(m, obs);
    forall t | 0 <= t < n ensures ThroughAt(m, obs, i)(t) == l * Cell(g, t, i) {
      TablesArePathWeights(m, obs, t, i, i);
    }
    SumFactor(n, l, t => Cell(g, t, i), ThroughAt(m, obs, i));
    MassScales(l, Visits(g, n, i));
    var row := NewTransRow(g, Xis(m, obs), m.K(), i);
    assert EmStep(m, obs).trans[i] == row;
    hide EmStep, Visits;
    ScaledQuotient(1.0, m.K() as real);
    assert row[j] == 1.0 / m.K() as real;
  }
}
