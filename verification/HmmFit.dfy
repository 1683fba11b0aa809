/** The imperative side of Baum-Welch: the E-step and M-step loops, the starting point, and
    the fitting loop, each proved against the formulas of HmmEm. */
module HmmFit {
  import opened HmmEm
  import HmmMoments
  import opened HmmForward
  import opened HmmPaths
  import opened HmmPosterior
  import opened HmmViterbi
  import opened Options
  import opened Reals
  import opened Sorting
  import opened Sums

  // ---------------------------------------------------------------- E-step

  method EStep(m: Hmm, obs: seq<real>) returns (gamma: seq<seq<real>>, xi: seq<seq<seq<real>>>, c: seq<real>)
    requires m.Shaped() && |obs| > 0
    ensures c == Scales(m, obs) && gamma == Gammas(m, obs) && xi == Xis(m, obs)
    ensures forall t :: 0 <= t < |gamma| ==> |gamma[t]| == m.K()
  {
    hide Normalised, Products, XiRow, RawRow, Scale;
    var alpha, beta;
    alpha, c := ForwardScaled(m, obs);
    assert c == Scales(m, obs);
    beta := BackwardTable(m, obs, c);
    gamma := PosteriorGamma(alpha, beta);
    xi := PosteriorXi(m, obs, alpha, beta);
    hide Alpha, Beta, Scales;
    forall t | 0 <= t < |obs| - 1 ensures xi[t] == Xis(m, obs)[t] {
      forall i | 0 <= i < m.K() ensures xi[t][i] == Xis(m, obs)[t][i] {
      }
    }
  }

  // ---------------------------------------------------------------- M-step

  method MStepInitial(gamma: seq<seq<real>>) returns (initial: seq<real>)
    requires |gamma| > 0
    ensures initial == Normalised(gamma[0])
  {
    var scale: real;
    initial, scale := Rescale(gamma[0]);
  }

  method MStepTransitions(gamma: seq<seq<real>>, xi: seq<seq<seq<real>>>, k: nat) returns (trans: seq<seq<real>>)
    ensures |trans| == k && forall i :: 0 <= i < k ==> trans[i] == NewTransRow(gamma, xi, k, i)
  {
    hide NewTransRow;
    trans := [];
    for i := 0 to k
      invariant |trans| == i && forall l :: 0 <= l < i ==> trans[l] == NewTransRow(gamma, xi, k, l)
    {
      var row := FitRow(gamma, xi, k, i);
      trans := trans + [row];
    }
  }

  /** One row: moves over visits, or the uniform row without mass. */
  method FitRow(gamma: seq<seq<real>>, xi: seq<seq<seq<real>>>, k: nat, i: nat) returns (row: seq<real>)
    requires i < k
    ensures row == NewTransRow(gamma, xi, k, i)
  {
    hide Normalised, Moves, Cell;
    var denom := 0.0;
    for t := 0 to |xi|
      invariant denom == Visits(gamma, t, i)
    {
      denom := denom + Cell(gamma, t, i);
    }
    hide Visits;
    row := seq(k, _ => 0.0);
    if denom <= TINY {
      for j := 0 to k
        invariant |row| == k && forall l :: 0 <= l < j ==> row[l] == 1.0 / k as real
      {
        row := row[j := 1.0 / k as real];
      }
      assert row == NewTransRow(gamma, xi, k, i);
    } else {
      for j := 0 to k
        invariant |row| == k && forall l :: 0 <= l < j ==> row[l] == MoveShares(gamma, xi, k, i)[l]
      {
        var num := CountMoves(xi, i, j);
        row := row[j := num / denom];
      }
      assert row == MoveShares(gamma, xi, k, i);
      var scale: real;
      row, scale := Rescale(row);
    }
  }

  method CountMoves(xi: seq<seq<seq<real>>>, i: int, j: int) returns (num: real)
    ensures num == Moves(xi, i, j)
  {
    num := 0.0;
    for t := 0 to |xi|
      invariant num == Sum(t, t => Cell3(xi, t, i, j))
    {
      num := num + Cell3(xi, t, i, j);
    }
  }

  method MStepEmissions(obs: seq<real>, gamma: seq<seq<real>>, k: nat) returns (means: seq<real>, variances: seq<real>)
    requires |obs| > 0
    ensures |means| == |variances| == k
    ensures forall j :: 0 <= j < k ==> means[j] == NewMean(obs, gamma, j) && variances[j] == NewVariance(obs, gamma, j)
  {
    means, variances := seq(k, _ => 0.0), seq(k, _ => VAR_FLOOR);
    for j := 0 to k
      invariant |means| == |variances| == k
      invariant forall l :: 0 <= l < j ==>
                  means[l] == NewMean(obs, gamma, l) && variances[l] == NewVariance(obs, gamma, l)
    {
      hide NewMean, NewVariance;
      var mu, v := FitEmission(obs, gamma, j);
      means, variances := means[j := mu], variances[j := v];
    }
  }

  method FitEmission(obs: seq<real>, gamma: seq<seq<real>>, j: int) returns (mu: real, v: real)
    requires |obs| > 0
    ensures mu == NewMean(obs, gamma, j) && v == NewVariance(obs, gamma, j)
  {
    hide Total;
    var n := |obs|;
    var denom, num := 0.0, 0.0;
    for t := 0 to n
      invariant denom == Visits(gamma, t, j)
      invariant num == Sum(t, t => Cell(gamma, t, j) * At(obs, t))
    {
      var g := Cell(gamma, t, j);
      denom, num := denom + g, num + g * At(obs, t);
    }
    assert num == WeightedSum(obs, gamma, j);
    if denom <= TINY {
      mu := Total(obs) / n as real;
      var squares := SumSquares(obs, mu);
      v := Max(squares / n as real, VAR_FLOOR);
    } else {
      mu := num / denom;
      var varNum := 0.0;
      for t := 0 to n
        invariant varNum == Sum(t, ErrorTerm(obs, gamma, j, mu))
      {
        varNum := varNum + Cell(gamma, t, j) * ((At(obs, t) - mu) * (At(obs, t) - mu));
      }
      v := Max(varNum / denom, VAR_FLOOR);
    }
  }

  method SumSquares(obs: seq<real>, a: real) returns (s: real)
    ensures s == SampleSquares(obs, a)
  {
    s := 0.0;
    for t := 0 to |obs|
      invariant s == Sum(t, t => (At(obs, t) - a) * (At(obs, t) - a))
    {
      s := s + (At(obs, t) - a) * (At(obs, t) - a);
    }
  }

  // ---------------------------------------------------------------- starting point

  function Pow3(i: nat): (r: real)
    ensures r >= 1.0
  {
    if i == 0 then 1.0 else 3.0 * Pow3(i - 1)
  }

  /** The position, in n sorted returns, of the middle of the i-th of k equal slices. */
  function Percentile(i: nat, k: nat, n: nat): (idx: nat)
    requires i < k && n > 0
    ensures idx < n
  {
    var idx := (2 * i + 1) * n / (2 * k);
    if idx < 0 then 0 else if idx > n - 1 then n - 1 else idx
  }

  /** It lies in range by itself: the clamping never acts. */
  lemma {:induction false} PercentileNeverClamped(i: nat, k: nat, n: nat)
    requires i < k && n > 0
    ensures Percentile(i, k, n) == (2 * i + 1) * n / (2 * k)
  {
    MiddleInRange(2 * i + 1, 2 * k, n);
  }

  lemma {:induction false} MiddleInRange(a: nat, d: nat, n: nat)
    requires a < d && n > 0
    ensures 0 <= a * n / d < n
  {
    var q, r := a * n / d, a * n % d;
    assert a * n == d * q + r;
    assert (d - a) * n > 0;
    assert d * (n - q) == (d - a) * n + r;
    NonnegativeFactor(d, n - q - 1);
    if q < 0 {
      NonpositiveProduct(d, q + 1);
    }
  }

  lemma {:induction false} PercentileMonotone(i: nat, j: nat, k: nat, n: nat)
    requires i <= j < k && n > 0
    ensures Percentile(i, k, n) <= Percentile(j, k, n)
  {
    ProductMonotone(2 * i + 1, 2 * j + 1, n);
    DivisionMonotone((2 * i + 1) * n, (2 * j + 1) * n, 2 * k);
  }

  lemma {:induction false} ProductMonotone(x: int, y: int, n: int)
    requires x <= y && n >= 0
    ensures x * n <= y * n
  {
  }

  lemma {:induction false} DivisionMonotone(a: int, b: int, d: int)
    requires a <= b && d > 0
    ensures a / d <= b / d
  {
    var x, y := a / d, b / d;
    assert a == d * x + a % d && b == d * y + b % d;
    assert d * (y - x) == d * y - d * x;
    NonnegativeFactor(d, y - x);
  }

  lemma {:induction false} NonnegativeFactor(d: int, x: int)
    requires d > 0 && d * x > -d
    ensures x >= 0
  {
    assert d * (x + 1) == d * x + d;
    if x < 0 {
      NonpositiveProduct(d, x + 1);
    }
  }

  lemma {:induction false} NonpositiveProduct(d: int, y: int)
    requires d > 0 && y <= 0
    ensures d * y <= 0
  {
  }

  /** Floor, perturb by the draw u, and floor again. */
  function Jittered(base: real, u: real): (v: real)
    ensures v >= VAR_FLOOR
  {
    hide Max;
    Max(Max(base, VAR_FLOOR) * (1.0 + 0.1 * (u - 0.5)), VAR_FLOOR)
  }

  function StartVariance(sv: real, i: nat, u: real): (v: real)
    ensures v >= VAR_FLOOR
  {
    hide Jittered;
    Jittered(sv * (0.25 * Pow3(i)), u)
  }

  /** The fanned-out starting variances, each perturbed by its draw and floored again. */
  function StartVariances(sv: real, jitter: seq<real>): (v: seq<real>)
    ensures |v| == |jitter| && forall i :: 0 <= i < |v| ==> v[i] >= VAR_FLOOR
  {
    hide StartVariance;
    seq(|jitter|, i requires 0 <= i < |jitter| => StartVariance(sv, i, jitter[i]))
  }

  /** 0.95 on the diagonal and the rest shared out evenly. */
  function StickyRows(k: nat): (rows: seq<seq<real>>)
    requires k >= 2
    ensures |rows| == k && forall i :: 0 <= i < k ==> |rows[i]| == k && rows[i][i] == 0.95
    ensures forall i :: 0 <= i < k ==> Distribution(rows[i])
  {
    var off := 0.05 / (k - 1) as real;
    var rows := seq(k, i requires 0 <= i < k => seq(k, j requires 0 <= j < k => if i == j then 0.95 else off));
    assert forall i :: 0 <= i < k ==> Distribution(rows[i]) by {
      hide Distribution;
      forall i | 0 <= i < k ensures Distribution(rows[i]) {
        StickyRow(k, i, off, rows[i]);
      }
    }
    rows
  }

  function StartMeans(sorted: seq<real>, k: nat): (means: seq<real>)
    requires |sorted| > 0 && forall a, b :: 0 <= a < b < |sorted| ==> sorted[a] <= sorted[b]
    ensures |means| == k && forall i :: 0 <= i < k ==> means[i] in sorted
    ensures forall i, j :: 0 <= i <= j < k ==> means[i] <= means[j]
  {
    hide Percentile;
    var n := |sorted|;
    var means := seq(k, i requires 0 <= i < k => sorted[Percentile(i, k, n)]);
    assert forall i, j :: 0 <= i <= j < k ==> means[i] <= means[j] by {
      forall i, j | 0 <= i <= j < k ensures means[i] <= means[j] {
        PercentileMonotone(i, j, k, n);
      }
    }
    means
  }

  /** The sample variance that the starting variances are fanned out from. */
  ghost function Spread(series: seq<real>): real
    requires |series| > 0
  {
    Max(SampleSquares(series, SampleMean(series)) / |series| as real, VAR_FLOOR)
  }

  /** The starting parameters: percentile means, fanned-out variances, a uniform initial row
      and sticky transitions.  `jitter` is the run of uniform draws that perturbs the variances. */
  ghost function StartModel(gauss: Density, series: seq<real>, k: nat, jitter: seq<real>): Hmm
    requires k >= 2 && |series| >= 2
  {
    hide Spread, Distribution;
    Hmm(gauss, StartMeans(Sorted(series), k), StartVariances(Spread(series), jitter), seq(k, _ => 1.0 / k as real),
        StickyRows(k))
  }

  /** They are valid; the means are observations in ascending order, the initial row is
      uniform and the diagonal 0.95. */
  lemma {:induction false} StartModelFacts(gauss: Density, series: seq<real>, k: nat, jitter: seq<real>)
    requires k >= 2 && |series| >= 2 && |jitter| == k
    ensures var m := StartModel(gauss, series, k, jitter);
            && m.K() == k && m.gauss == gauss && m.Shaped() && m.Stochastic()
            && (forall i :: 0 <= i < k ==> m.variances[i] >= VAR_FLOOR && m.means[i] in series)
            && (forall i, j :: 0 <= i <= j < k ==> m.means[i] <= m.means[j])
            && (forall i :: 0 <= i < k ==> m.initial[i] == 1.0 / k as real && m.trans[i][i] == 0.95)
  {
    hide Sorted, Total, Spread, StartMeans, StartVariances, StickyRows, Distribution;
    UniformIsDistribution(k, StartModel(gauss, series, k, jitter).initial);
  }

  /** In full: each mean is the observation in the middle of its share of the sorted series, the
      rest of each row is shared out evenly, and each variance is the sample variance fanned out
      by powers of three and moved by up to a twentieth, unless that falls below the floor. */
  lemma {:induction false} StartModelTells(gauss: Density, series: seq<real>, k: nat, jitter: seq<real>, i: nat, j: nat)
    requires k >= 2 && |series| >= 2 && |jitter| == k && i < k && j < k
    ensures var m := StartModel(gauss, series, k, jitter);
            && m.K() == k && m.Shaped()
            && (var idx := (2 * i + 1) * |series| / (2 * k);
                0 <= idx < |series| && m.means[i] == Sorted(series)[idx])
            && (i != j ==> m.trans[i][j] * (k - 1) as real == 0.05)
            && FansOut(series, i, jitter[i], m.variances[i])
  {
    hide FansOut, Sorted, StartModel, Percentile, Hmm.Stochastic, Hmm.Shaped;
    StartModelFacts(gauss, series, k, jitter);
    PercentileNeverClamped(i, k, |series|);
    StartModelAt(gauss, series, k, jitter, i, j);
  }

  lemma {:induction false} StartModelAt(gauss: Density, series: seq<real>, k: nat, jitter: seq<real>, i: nat, j: nat)
    requires k >= 2 && |series| >= 2 && |jitter| == k && i < k && j < k
    ensures var m := StartModel(gauss, series, k, jitter);
            && m.K() == k && m.Shaped()
            && m.means[i] == Sorted(series)[Percentile(i, k, |series|)]
            && (i != j ==> m.trans[i][j] * (k - 1) as real == 0.05)
            && FansOut(series, i, jitter[i], m.variances[i])
  {
    hide FansOut, Sorted, Spread, StartMeans, StartVariances, StickyRows, Distribution, Percentile, Hmm.Stochastic;
    StartModelFacts(gauss, series, k, jitter);
    OffDiagonal(k, i, j);
    StartMeansAt(Sorted(series), k, i);
    StartVariancesAt(series, jitter, i);
  }

  lemma {:induction false} StartMeansAt(sorted: seq<real>, k: nat, i: nat)
    requires |sorted| > 0 && forall a, b :: 0 <= a < b < |sorted| ==> sorted[a] <= sorted[b]
    requires i < k
    ensures StartMeans(sorted, k)[i] == sorted[Percentile(i, k, |sorted|)]
  {
    hide Percentile;
  }

  lemma {:induction false} StartVariancesAt(series: seq<real>, jitter: seq<real>, i: nat)
    requires |series| > 0 && i < |jitter|
    ensures FansOut(series, i, jitter[i], StartVariances(Spread(series), jitter)[i])
  {
    hide FansOut, Spread, StartVariance;
    FannedOut(series, i, jitter[i]);
  }

  /** v is the sample variance fanned out, moved by the draw u, and floored. */
  ghost predicate FansOut(series: seq<real>, i: nat, u: real, v: real)
    requires |series| > 0
  {
    exists sv: real ::
      && HmmMoments.SampleMoments(series, SampleMean(series), sv)
      && FlooredTwice(sv * (0.25 * Pow3(i)), 1.0 + 0.1 * (u - 0.5), v)
  }

  /** v is base times factor, unless either falls below the floor. */
  ghost predicate FlooredTwice(base: real, factor: real, v: real) {
    var kept := if base >= VAR_FLOOR then base else VAR_FLOOR;
    if kept * factor >= VAR_FLOOR then v == kept * factor else v == VAR_FLOOR
  }

  lemma {:induction false} FannedOut(series: seq<real>, i: nat, u: real)
    requires |series| > 0
    ensures FansOut(series, i, u, StartVariance(Spread(series), i, u))
  {
    HmmMoments.SampleMomentsAre(series, SampleMean(series), Spread(series));
    hide HmmMoments.SampleMoments, Spread, SampleMean, StartVariance;
    FannedBy(Spread(series), i, u);
  }

  lemma {:induction false} FannedBy(sv: real, i: nat, u: real)
    ensures FlooredTwice(sv * (0.25 * Pow3(i)), 1.0 + 0.1 * (u - 0.5), StartVariance(sv, i, u))
  {
    var base := sv * (0.25 * Pow3(i));
    assert StartVariance(sv, i, u) == Jittered(base, u);
  }

  lemma {:induction false} OffDiagonal(k: nat, i: nat, j: nat)
    requires k >= 2 && i < k && j < k
    ensures i != j ==> StickyRows(k)[i][j] * (k - 1) as real == 0.05
  {
    hide Distribution;
    if i != j {
      DividedBack(StickyRows(k)[i][j], 0.05, (k - 1) as real);
    }
  }

  lemma {:induction false} DividedBack(x: real, whole: real, d: real)
    requires d > 0.0 && x == whole / d
    ensures x * d == whole
  {
  }

  lemma {:induction false} UniformIsDistribution(k: nat, row: seq<real>)
    requires k > 0 && |row| == k && forall i :: 0 <= i < k ==> row[i] == 1.0 / k as real
    ensures Distribution(row)
  {
    UniformTotal(k);
    assert row == seq(k, i => 1.0 / k as real);
    hide Total;
  }

  /** Compute the starting parameters; with a positive density they are valid. */
  method Initialize(gauss: Density, series: seq<real>, k: nat, jitter: seq<real>) returns (m: Hmm)
    requires k >= 2 && |series| >= 2 && |jitter| == k
    requires forall x, mu, v :: gauss(x, mu, v) > 0.0
    ensures m == StartModel(gauss, series, k, jitter) && Valid(m)
    ensures m.K() == k && forall i :: 0 <= i < k ==> m.means[i] in series
    ensures forall i, j :: 0 <= i <= j < k ==> m.means[i] <= m.means[j]
    ensures forall i :: 0 <= i < k ==> m.initial[i] == 1.0 / k as real && m.trans[i][i] == 0.95
  {
    hide Sorted, Total, Sum, Max, StartMeans, StartVariances, StickyRows, Distribution, SampleSquares;
    var n := |series|;
    var sm := Total(series) / n as real;
    var squares := SumSquares(series, sm);
    var sv := Max(squares / n as real, VAR_FLOOR);
    m := Hmm(gauss, StartMeans(Sorted(series), k), StartVariances(sv, jitter), seq(k, _ => 1.0 / k as real),
             StickyRows(k));
    StartModelFacts(gauss, series, k, jitter);
  }

  lemma {:induction false} StickyRow(k: nat, i: int, off: real, row: seq<real>)
    requires k >= 2 && 0 <= i < k && off == 0.05 / (k - 1) as real && |row| == k
    requires forall j :: 0 <= j < k ==> row[j] == if i == j then 0.95 else off
    ensures Distribution(row)
  {
    TotalIsSum(row);
    var rest, peak := j => off, j => if j == i then 0.95 - off else 0.0;
    SumConst(k, off, rest);
    SumSingle(k, peak, i);
    SumAdd(k, rest, peak, Reading(row));
    assert (k - 1) as real * off == 0.05;
    assert k as real * off == (k - 1) as real * off + off;
  }

  // ---------------------------------------------------------------- fitting

  /** The log of the likelihood as the program adds it up, scale by scale. */
  ghost function LogLikelihood(log: real -> real, c: seq<real>): real {
    Sum(|c|, t => log(Max(At(c, t), TINY)))
  }

  ghost function LogLikelihoodOf(log: real -> real, m: Hmm, obs: seq<real>): real {
    LogLikelihood(log, Scales(m, obs))
  }

  /** The likelihood of the bars before bar t. */
  ghost function LikelihoodBefore(m: Hmm, obs: seq<real>, t: nat): real {
    if t == 0 then 1.0 else Likelihood(m, obs, t - 1)
  }

  /** Bar t, given the bars before it, is no less likely than TINY. */
  ghost predicate Likely(m: Hmm, obs: seq<real>, t: nat) {
    Likelihood(m, obs, t) >= TINY * LikelihoodBefore(m, obs, t)
  }

  /** What is recorded for the first n bars. */
  ghost function LogsOf(log: real -> real, c: seq<real>, n: nat): real {
    Sum(n, t => log(Max(At(c, t), TINY)))
  }

  lemma {:induction false} LogsOfStep(log: real -> real, c: seq<real>, n: nat)
    ensures LogsOf(log, c, 0) == 0.0
    ensures LogsOf(log, c, n + 1) == LogsOf(log, c, n) + log(Max(At(c, n), TINY))
  {
    SumCong(n, t => log(Max(At(c, t), TINY)), t => log(Max(At(c, t), TINY)));
  }

  /** The recorded scale of a bar is its likelihood given the bars before it. */
  lemma {:induction false} ScaleIsOdds(m: Hmm, obs: seq<real>, t: nat)
    requires Valid(m)
    ensures var c := Scale(RawRow(m, obs, t));
            && c > 0.0 && LikelihoodBefore(m, obs, t) > 0.0 && Likelihood(m, obs, t) > 0.0
            && LikelihoodBefore(m, obs, t) * c == Likelihood(m, obs, t)
            && (Likely(m, obs, t) <==> c >= TINY)
  {
    hide Valid, Likelihood, RawRow, Scale;
    ValidIsUsable(m);
    ValidModelNeverFallsBack(m, obs, t + 1);
    ForwardExact(m, obs, t);
    if t > 0 {
      ForwardExact(m, obs, t - 1);
    }
    var c, before := Scale(RawRow(m, obs, t)), LikelihoodBefore(m, obs, t);
    assert before * c == Likelihood(m, obs, t);
    OddsAtLeast(c, before, Likelihood(m, obs, t));
  }

  lemma {:induction false} OddsAtLeast(c: real, before: real, total: real)
    requires before > 0.0 && before * c == total
    ensures total >= TINY * before <==> c >= TINY
  {
    assert (TINY - c) * before == TINY * before - total;
    SignOf(TINY - c, before);
  }

  /** What the program records for a series is at least the logarithm of its likelihood, and
      exactly that if and only if no bar was less likely than TINY given the bars before it. */
  lemma {:induction false} LogLikelihoodIsExact(log: real -> real, m: Hmm, obs: seq<real>)
    requires Logarithm(log) && Valid(m) && |obs| > 0
    ensures var recorded, exact := LogLikelihoodOf(log, m, obs), log(Likelihood(m, obs, |obs| - 1));
            && recorded >= exact
            && (recorded == exact <==> forall t: nat :: t < |obs| ==> Likely(m, obs, t))
  {
    hide Likelihood, Likely, Logarithm, Valid, Scales;
    LogsAreExact(log, m, obs, |obs|);
    assert LogLikelihoodOf(log, m, obs) == LogsOf(log, Scales(m, obs), |obs|);
  }

  lemma {:induction false} LogsAreExact(log: real -> real, m: Hmm, obs: seq<real>, n: nat)
    requires Logarithm(log) && Valid(m) && n <= |obs|
    ensures var recorded, exact := LogsOf(log, Scales(m, obs), n), log(LikelihoodBefore(m, obs, n));
            && recorded >= exact
            && (recorded == exact <==> forall t: nat :: t < n ==> Likely(m, obs, t))
  {
    hide Valid, Likelihood, Likely, Logarithm, LogsOf, RawRow, Scale;
    if n == 0 {
      LogGrows(log, 1.0, 1.0);
      LogsOfStep(log, Scales(m, obs), 0);
    } else {
      LogsAreExact(log, m, obs, n - 1);
      ScaleIsOdds(m, obs, n - 1);
      var before, c := LikelihoodBefore(m, obs, n - 1), Scale(RawRow(m, obs, n - 1));
      LogsOfStep(log, Scales(m, obs), n - 1);
      LogProduct(log, before, c);
      LogGrows(log, c, Max(c, TINY));
      assert At(Scales(m, obs), n - 1) == c;
      assert LikelihoodBefore(m, obs, n) == before * c;
      hide Scales, LikelihoodBefore;
      assert (forall t: nat :: t < n ==> Likely(m, obs, t))
             <==> (forall t: nat :: t < n - 1 ==> Likely(m, obs, t)) && Likely(m, obs, n - 1);
    }
  }

  method AddLogs(log: real -> real, c: seq<real>) returns (ll: real)
    ensures ll == LogLikelihood(log, c)
  {
    ll := 0.0;
    for t := 0 to |c|
      invariant ll == Sum(t, t => log(Max(At(c, t), TINY)))
    {
      ll := ll + log(Max(At(c, t), TINY));
    }
  }

  /** The parameters after r EM steps. */
  ghost function Iterate(m: Hmm, obs: seq<real>, r: nat): (out: Hmm)
    requires |obs| > 0
  {
    if r == 0 then m else EmStep(Iterate(m, obs, r - 1), obs)
  }

  lemma {:induction false} IterateValid(m: Hmm, obs: seq<real>, r: nat)
    requires Valid(m) && |obs| > 0
    ensures Valid(Iterate(m, obs, r)) && Iterate(m, obs, r).K() == m.K()
  {
    hide Valid, EmStep;
    if r > 0 {
      IterateValid(m, obs, r - 1);
      EmStepValid(Iterate(m, obs, r - 1), obs);
    }
  }

  /** Entry s of the history is the log-likelihood after s steps. */
  ghost predicate Records(log: real -> real, m0: Hmm, obs: seq<real>, history: seq<real>)
    requires |obs| > 0
  {
    forall s :: 0 <= s < |history| ==> history[s] == LogLikelihoodOf(log, Iterate(m0, obs, s), obs)
  }

  ghost predicate NoConvergence(history: seq<real>, tol: real) {
    forall s :: 1 <= s < |history| ==> Abs(history[s] - history[s - 1]) >= tol
  }

  /** How a run of the fitting loop may end: after all maxIter steps, or, having seen two
      consecutive log-likelihoods within tol, without taking another step. */
  ghost predicate FitRun(log: real -> real, m0: Hmm, obs: seq<real>, maxIter: nat, tol: real, m: Hmm,
                         history: seq<real>)
    requires |obs| > 0
  {
    && |history| >= 2
    && var head, r := history[..|history| - 1], |history| - 2;
    && Records(log, m0, obs, head)
    && history[r + 1] == LogLikelihoodOf(log, m, obs)
    && ((r + 1 == maxIter && NoConvergence(head, tol) && m == Iterate(m0, obs, maxIter))
        || (1 <= r < maxIter && NoConvergence(head[..r], tol) && Abs(head[r] - head[r - 1]) < tol
            && m == Iterate(m0, obs, r)))
  }

  /** The last two entries, and no two before, are within tol. */
  ghost predicate Settles(history: seq<real>, tol: real) {
    && |history| >= 2 && NoConvergence(history[..|history| - 1], tol)
    && Abs(history[|history| - 1] - history[|history| - 2]) < tol
  }

  method MStep(m: Hmm, obs: seq<real>, gamma: seq<seq<real>>, xi: seq<seq<seq<real>>>) returns (r: Hmm)
    requires m.Shaped() && |obs| > 0 && gamma == Gammas(m, obs) && xi == Xis(m, obs)
    ensures r == EmStep(m, obs)
  {
    hide NewMean, NewVariance, NewTransRow, Normalised, Gammas, Xis;
    var initial := MStepInitial(gamma);
    var trans := MStepTransitions(gamma, xi, m.K());
    var means, variances := MStepEmissions(obs, gamma, m.K());
    r := Hmm(m.gauss, means, variances, initial, trans);
    ghost var want := EmStep(m, obs);
    assert means == want.means && variances == want.variances && trans == want.trans;
  }

  /** One E-step and the log-likelihood it records. */
  method Measure(m: Hmm, obs: seq<real>, log: real -> real)
      returns (gamma: seq<seq<real>>, xi: seq<seq<seq<real>>>, ll: real)
    requires m.Shaped() && |obs| > 0
    ensures gamma == Gammas(m, obs) && xi == Xis(m, obs) && ll == LogLikelihoodOf(log, m, obs)
  {
    hide Gammas, Xis, Scales, LogLikelihood;
    var c;
    gamma, xi, c := EStep(m, obs);
    ll := AddLogs(log, c);
  }

  /** The EM loop of `fit`, from valid starting parameters. */
  method EmLoop(m0: Hmm, obs: seq<real>, log: real -> real, maxIter: nat, tol: real)
      returns (m: Hmm, history: seq<real>)
    requires Valid(m0) && |obs| > 0 && maxIter >= 1 && tol > 0.0
    ensures FitRun(log, m0, obs, maxIter, tol, m, history)
    ensures Valid(m) && m.K() == m0.K()
  {
    hide FitRun, Valid, EmStep, LogLikelihoodOf, Gammas, Xis, Records, Iterate, NoConvergence, Settles, Abs, Hmm.Shaped;
    m, history := m0, [];
    var iter, converged := 0, false;
    NothingRecorded(log, m0, obs, tol);
    while iter < maxIter && !converged
      invariant 0 <= iter <= maxIter
      invariant Valid(m) && m.K() == m0.K()
      invariant Records(log, m0, obs, history)
      invariant !converged ==> |history| == iter && m == Iterate(m0, obs, iter) && NoConvergence(history, tol)
      invariant converged ==> 2 <= |history| <= maxIter && m == Iterate(m0, obs, |history| - 1)
      invariant converged ==> Settles(history, tol)
      decreases maxIter - iter, !converged
    {
      ValidIsUsable(m);
      var gamma, xi, ll := Measure(m, obs, log);
      RecordMore(log, m0, obs, history, ll, tol);
      var close := |history| >= 1 && Abs(ll - history[|history| - 1]) < tol;
      history := history + [ll];
      if close {
        converged := true;
      } else {
        m := MStep(m, obs, gamma, xi);
        iter := iter + 1;
        IterateStep(m0, obs, iter);
        IterateValid(m0, obs, iter);
      }
    }
    ValidIsUsable(m);
    var _, _, final := Measure(m, obs, log);
    RunEnds(log, m0, obs, maxIter, tol, m, history, final, converged);
    history := history + [final];
  }

  /** What the loop leaves, with the last log-likelihood, is a run. */
  lemma {:induction false} RunEnds(log: real -> real, m0: Hmm, obs: seq<real>, maxIter: nat, tol: real, m: Hmm,
                                   history: seq<real>, final: real, converged: bool)
    requires |obs| > 0 && maxIter >= 1 && Records(log, m0, obs, history) && final == LogLikelihoodOf(log, m, obs)
    requires !converged ==> |history| == maxIter && m == Iterate(m0, obs, maxIter) && NoConvergence(history, tol)
    requires converged ==> 2 <= |history| <= maxIter && m == Iterate(m0, obs, |history| - 1)
    requires converged ==> Settles(history, tol)
    ensures FitRun(log, m0, obs, maxIter, tol, m, history + [final])
  {
    hide Records, Iterate, NoConvergence, LogLikelihoodOf, Abs;
    var all := history + [final];
    assert all[..|all| - 1] == history;
  }

  lemma {:induction false} NothingRecorded(log: real -> real, m0: Hmm, obs: seq<real>, tol: real)
    requires |obs| > 0
    ensures Iterate(m0, obs, 0) == m0 && Records(log, m0, obs, []) && NoConvergence([], tol)
  {
  }

  lemma {:induction false} IterateStep(m: Hmm, obs: seq<real>, r: nat)
    requires |obs| > 0 && r > 0
    ensures Iterate(m, obs, r) == EmStep(Iterate(m, obs, r - 1), obs)
  {
    hide EmStep;
  }

  lemma {:induction false} RecordMore(log: real -> real, m0: Hmm, obs: seq<real>, history: seq<real>, ll: real,
                                      tol: real)
    requires |obs| > 0 && Records(log, m0, obs, history) && ll == LogLikelihoodOf(log, Iterate(m0, obs, |history|), obs)
    ensures Records(log, m0, obs, history + [ll])
    ensures NoConvergence(history, tol) && (|history| > 0 ==> Abs(ll - history[|history| - 1]) >= tol)
            ==> NoConvergence(history + [ll], tol)
    ensures NoConvergence(history, tol) && |history| > 0 && Abs(ll - history[|history| - 1]) < tol
            ==> Settles(history + [ll], tol)
  {
    hide Iterate, LogLikelihoodOf, Abs;
    assert (history + [ll])[..|history|] == history;
  }

  // ---------------------------------------------------------------- the class

  datatype FitResult = FitResult(model: Hmm, history: seq<real>)

  /** The closed-form fit of one state: sample mean and variance, recorded twice. */
  ghost predicate SingleStateFit(gauss: Density, log: real -> real, obs: seq<real>, r: FitResult)
    requires |obs| > 0
  {
    var mean := SampleMean(obs);
    var v := Max(SampleSquares(obs, mean) / |obs| as real, VAR_FLOOR);
    && r.model == Hmm(gauss, [mean], [v], [1.0], [[1.0]])
    && r.history == [LogLikelihoodOf(log, r.model, obs), LogLikelihoodOf(log, r.model, obs)]
  }

  lemma {:induction false} StochasticIsNonnegative(m: Hmm)
    requires m.Shaped() && m.Stochastic()
    ensures m.Nonnegative()
  {
    hide Total;
    forall i ensures m.Init(i) >= 0.0 {
      if !(0 <= i < m.K()) {
        assert m.Init(i) == 0.0;
      }
    }
    forall i, j ensures m.Trans(i, j) >= 0.0 {
      if !(0 <= i < m.K() && 0 <= j < m.K()) {
        assert m.Trans(i, j) == 0.0;
      }
    }
  }

  /** So a fit of one state has the mean and the floored variance of the series. */
  lemma {:induction false} SingleStateMoments(gauss: Density, log: real -> real, obs: seq<real>, r: FitResult)
    requires |obs| > 0 && SingleStateFit(gauss, log, obs, r)
    ensures r.model.K() == 1 && HmmMoments.SampleMoments(obs, r.model.means[0], r.model.variances[0])
  {
    hide LogLikelihoodOf, HmmMoments.SampleMoments, SampleMean, SampleSquares;
    HmmMoments.SampleMomentsAre(obs, r.model.means[0], r.model.variances[0]);
  }

  /** A fit of several states is an EM run from the starting parameters. */
  ghost predicate SeveralStateFit(gauss: Density, log: real -> real, obs: seq<real>, k: nat, jitter: seq<real>,
                                  maxIter: nat, tol: real, r: FitResult)
    requires k >= 2 && |obs| >= 2
  {
    FitRun(log, StartModel(gauss, obs, k, jitter), obs, maxIter, tol, r.model, r.history)
  }

  class GaussianHMM {
    const nStates: nat
    const maxIter: nat
    const tol: real
    const gauss: Density
    const log: real -> real
    const logDensity: Density
    var result: Option<FitResult>

    ghost predicate WellFormed()
      reads this
    {
      && nStates >= 1 && maxIter >= 1 && tol > 0.0
      && (forall x, mu, v :: gauss(x, mu, v) > 0.0)
      && (result.Some? ==> Valid(result.value.model) && result.value.model.K() == nStates)
    }

    constructor (nStates: nat, maxIter: nat, tol: real, gauss: Density, log: real -> real, logDensity: Density)
      requires nStates >= 1 && maxIter >= 1 && tol > 0.0
      requires forall x, mu, v :: gauss(x, mu, v) > 0.0
      ensures WellFormed() && result == None
      ensures this.nStates == nStates && this.maxIter == maxIter && this.tol == tol
      ensures this.gauss == gauss && this.log == log && this.logDensity == logDensity
    {
      this.nStates, this.maxIter, this.tol := nStates, maxIter, tol;
      this.gauss, this.log, this.logDensity := gauss, log, logDensity;
      result := None;
    }

    /** Fit and remember the result; a series of fewer than two returns is rejected and
        leaves any earlier fit in place. */
    method Fit(series: seq<real>, jitter: seq<real>) returns (r: Option<FitResult>)
      requires WellFormed() && |jitter| == nStates
      modifies this`result
      ensures WellFormed()
      ensures |series| < 2 ==> r == None && result == old(result)
      ensures |series| >= 2 ==> r.Some? && result == r
      ensures |series| >= 2 && nStates == 1 ==> SingleStateFit(gauss, log, series, r.value)
      ensures |series| >= 2 && nStates >= 2
              ==> SeveralStateFit(gauss, log, series, nStates, jitter, maxIter, tol, r.value)
    {
      hide FitRun, LogLikelihood, Scales, StartModel;
      if |series| < 2 {
        return None;
      }
      if nStates == 1 {
        r := FitSingleState(gauss, log, series);
      } else {
        var m0 := Initialize(gauss, series, nStates, jitter);
        var m, history := EmLoop(m0, series, log, maxIter, tol);
        r := Some(FitResult(m, history));
      }
      result := r;
    }

    /** Decode with the fitted model; refused until a fit has succeeded. */
    method Predict(obs: seq<real>) returns (states: Option<seq<int>>)
      requires WellFormed()
      ensures result == None ==> states == None
      ensures result.Some? && |obs| == 0 ==> states == Some([])
      ensures result.Some? && |obs| > 0 ==>
        states.Some? && Optimal(Decoder(result.value.model, log, logDensity), obs, states.value)
      ensures result.Some? && |obs| > 0 && Faithful(Decoder(result.value.model, log, logDensity)) ==>
        var m := result.value.model;
        && (m.Positive() ==> MostProbable(m, obs, states.value))
        && (MostProbable(m, obs, states.value)
            <==> Possible(m, states.value) || forall p :: IsPath(p, |obs|, m.K()) ==> !Possible(m, p))
    {
      if result == None {
        return None;
      }
      hide Optimal, Faithful, MostProbable, Possible, Valid;
      var d := Decoder(result.value.model, log, logDensity);
      ValidIsUsable(d.m);
      var best := PredictStates(d, obs);
      if |obs| > 0 && Faithful(d) {
        StochasticIsNonnegative(d.m);
        MostProbableIff(d, obs, best);
      }
      states := Some(best);
    }
  }

  method FitSingleState(gauss: Density, log: real -> real, series: seq<real>) returns (r: Option<FitResult>)
    requires |series| >= 2
    requires forall x, mu, v :: gauss(x, mu, v) > 0.0
    ensures r.Some? && SingleStateFit(gauss, log, series, r.value)
    ensures Valid(r.value.model) && r.value.model.K() == 1
  {
    hide LogLikelihood, Scales, Total, SampleSquares, Gammas, Xis;
    var n := |series|;
    var mean := Total(series) / n as real;
    var squares := SumSquares(series, mean);
    var m := Hmm(gauss, [mean], [Max(squares / n as real, VAR_FLOOR)], [1.0], [[1.0]]);
    assert Distribution([1.0]) by {
      TotalIsSum([1.0]);
      SumSingle(1, Reading([1.0]), 0);
    }
    var _, _, c := EStep(m, series);
    var ll := AddLogs(log, c);
    r := Some(FitResult(m, [ll, ll]));
  }
}
