/** The top-down engine: a moving average and swing structure of the daily bars, the swing
    structure of the four-hour bars, and the bias they agree on. */
module Htf {
  import opened Options
  import opened Reals
  import opened Sums

  datatype Bar = Bar(high: real, low: real, close: real)

  // ---------------------------------------------------------------- moving average

  function Alpha(period: nat): real { 2.0 / (period as real + 1.0) }

  function Tip(s: seq<real>): real { if |s| == 0 then 0.0 else s[|s| - 1] }

  /** The average after the last value, given the one before. */
  function Blend(values: seq<real>, period: nat, was: real): real
    requires |values| > 0
  {
    if |values| <= period then Total(values) / |values| as real
    else Alpha(period) * values[|values| - 1] + (1.0 - Alpha(period)) * was
  }

  /** The exponential moving average, seeded with running means of the first `period`. */
  function Ema(values: seq<real>, period: nat): (r: seq<real>)
    ensures |r| == |values|
  {
    if |values| == 0 then []
    else
      var before := Ema(values[..|values| - 1], period);
      before + [Blend(values, period, Tip(before))]
  }

  lemma {:induction false} EmaStep(values: seq<real>, period: nat)
    requires |values| > 0
    ensures var before := Ema(values[..|values| - 1], period);
            && Ema(values, period) == before + [Blend(values, period, Tip(before))]
            && Tip(Ema(values, period)) == Blend(values, period, Tip(before))
  {
    hide Blend;
  }

  /** The two branches of the loop append what the definition does. */
  lemma {:induction false} EmaGrows(values: seq<real>, i: nat, period: nat, sum: real, alpha: real, was: real,
                                    next: real)
    requires i < |values| && alpha == Alpha(period) && was == Tip(Ema(values[..i], period))
    requires i < period ==> sum == Total(values[..i]) + values[i] && next == sum / (i + 1) as real
    requires i >= period ==> next == alpha * values[i] + (1.0 - alpha) * was
    ensures Ema(values[..i + 1], period) == Ema(values[..i], period) + [next]
    ensures i < period ==> sum == Total(values[..i + 1])
  {
    hide Total, Alpha, Ema, Tip, Blend;
    TotalPrefix(values, i);
    EmaStep(values[..i + 1], period);
    assert values[..i + 1][..i] == values[..i];
    if i < period {
      BlendSeed(values[..i + 1], period, was, sum, next);
    } else {
      BlendLater(values[..i + 1], period, was, alpha, next);
    }
  }

  lemma {:induction false} BlendSeed(values: seq<real>, period: nat, was: real, sum: real, next: real)
    requires 0 < |values| <= period && sum == Total(values) && next == sum / |values| as real
    ensures Blend(values, period, was) == next
  {
    hide Total;
  }

  lemma {:induction false} BlendLater(values: seq<real>, period: nat, was: real, alpha: real, next: real)
    requires |values| > period && alpha == Alpha(period)
    requires next == alpha * values[|values| - 1] + (1.0 - alpha) * was
    ensures Blend(values, period, was) == next
  {
    hide Alpha;
  }

  lemma {:induction false} TipOf(s: seq<real>)
    requires |s| > 0
    ensures Tip(s) == s[|s| - 1]
  {
  }

  lemma {:induction false} EmaOfNothing(period: nat)
    ensures Ema([], period) == [] && Total([]) == 0.0
  {
  }

  /** The loop of the program; None where it raises. */
  method ComputeEma(values: seq<real>, period: int) returns (r: Option<seq<real>>)
    ensures r == if period <= 0 then None else Some(Ema(values, period))
  {
    if period <= 0 {
      return None;
    }
    hide Total, Ema, Alpha, Tip;
    EmaOfNothing(period);
    assert values[..0] == [];
    hide Blend;
    var alpha := Alpha(period);
    var out, runningSum := [], 0.0;
    for i := 0 to |values|
      invariant out == Ema(values[..i], period)
      invariant i <= period ==> runningSum == Total(values[..i])
    {
      var next;
      if i < period {
        runningSum := runningSum + values[i];
        next := runningSum / (i + 1) as real;
      } else {
        TipOf(out);
        next := alpha * values[i] + (1.0 - alpha) * out[|out| - 1];
      }
      EmaGrows(values, i, period, runningSum, alpha, Tip(out), next);
      out := out + [next];
    }
    assert values[..|values|] == values;
    r := Some(out);
  }

  /** No lookahead: later values never change an earlier average. */
  lemma {:induction false} EmaNeverLooksAhead(values: seq<real>, n: nat, period: nat)
    requires n <= |values|
    ensures Ema(values[..n], period) == Ema(values, period)[..n]
  {
    if n < |values| {
      var before := values[..|values| - 1];
      EmaNeverLooksAhead(before, n, period);
      assert before[..n] == values[..n];
    } else {
      assert values[..n] == values;
    }
  }

  /** The weight of the newest values counts fully, of older ones less by a fixed factor:
      the sum over i from `from` on of (1 - a)^(n - 1 - i) * values[i]. */
  function Discounted(values: seq<real>, from: nat, a: real): real
    requires from <= |values|
  {
    if |values| == from then 0.0
    else (1.0 - a) * Discounted(values[..|values| - 1], from, a) + values[|values| - 1]
  }

  /** Past its seed the average is the discounted sum of the values since the seed, plus
      what is left of the seed's mean. */
  lemma {:induction false} EmaClosedForm(values: seq<real>, period: nat)
    requires 0 < period <= |values|
    ensures var a := Alpha(period);
            Tip(Ema(values, period)) == a * Discounted(values, period, a)
                                        + Pow(1.0 - a, |values| - period) * (Total(values[..period]) / period as real)
    ensures Alpha(period) * (period as real + 1.0) == 2.0
  {
    hide Alpha, Ema, Total, Tip, Discounted, Pow;
    var a := Alpha(period);
    AlphaIs(period);
    if |values| == period {
      EmaSeedForm(values, period, a);
    } else {
      var before := values[..|values| - 1];
      EmaClosedForm(before, period);
      assert before[..period] == values[..period];
      EmaStep(values, period);
      DiscountedStep(values, period, a);
      var mean := Total(values[..period]) / period as real;
      ClosedFormStep(a, values[|values| - 1], Discounted(before, period, a), Pow(1.0 - a, |before| - period), mean,
                     Tip(Ema(before, period)));
    }
  }

  lemma {:induction false} AlphaIs(period: nat)
    ensures Alpha(period) * (period as real + 1.0) == 2.0
  {
    var k := period as real + 1.0;
    assert 2.0 / k * k == 2.0;
  }

  /** Up to its seed it is the plain mean of the values so far. */
  lemma {:induction false} EmaSeedMean(values: seq<real>, period: nat)
    requires 0 < |values| <= period
    ensures Tip(Ema(values, period)) * |values| as real == Total(values)
  {
    hide Ema, Total, Tip;
    EmaStep(values, period);
    var k := |values| as real;
    assert Total(values) / k * k == Total(values);
  }

  lemma {:induction false} EmaSeedForm(values: seq<real>, period: nat, a: real)
    requires 0 < period == |values|
    ensures Tip(Ema(values, period)) == a * Discounted(values, period, a)
                                        + Pow(1.0 - a, |values| - period) * (Total(values[..period]) / period as real)
  {
    hide Ema, Total, Tip;
    assert values[..period] == values;
    EmaStep(values, period);
    var mean := Total(values) / period as real;
    assert Pow(1.0 - a, 0) * mean == mean && a * Discounted(values, period, a) == 0.0;
  }

  lemma {:induction false} DiscountedStep(values: seq<real>, from: nat, a: real)
    requires from < |values|
    ensures Discounted(values, from, a)
            == (1.0 - a) * Discounted(values[..|values| - 1], from, a) + values[|values| - 1]
    ensures Pow(1.0 - a, |values| - from) == (1.0 - a) * Pow(1.0 - a, |values| - 1 - from)
  {
  }

  lemma {:induction false} ClosedFormStep(a: real, v: real, d: real, p: real, mean: real, was: real)
    requires was == a * d + p * mean
    ensures a * v + (1.0 - a) * was == a * ((1.0 - a) * d + v) + (1.0 - a) * p * mean
  {
    var q := 1.0 - a;
    assert q * was == q * (a * d) + q * (p * mean);
    assert q * (a * d) == a * (q * d);
    assert q * (p * mean) == q * p * mean;
    assert a * (q * d + v) == a * (q * d) + a * v;
  }

  ghost predicate Between(values: seq<real>, low: real, high: real) {
    forall i :: 0 <= i < |values| ==> low <= values[i] <= high
  }

  lemma {:induction false} TotalBetween(values: seq<real>, low: real, high: real)
    requires Between(values, low, high)
    ensures low * |values| as real <= Total(values) <= high * |values| as real
  {
    if |values| > 0 {
      TotalBetween(values[..|values| - 1], low, high);
      OneMoreTerm(low, |values|);
      OneMoreTerm(high, |values|);
      var x := values[|values| - 1];
      assert low <= x <= high && Total(values) == Total(values[..|values| - 1]) + x;
    } else {
      assert low * 0.0 == 0.0 && high * 0.0 == 0.0;
    }
  }

  lemma {:induction false} OneMoreTerm(x: real, n: nat)
    requires n > 0
    ensures x * n as real == x * (n - 1) as real + x
  {
    var k := (n - 1) as real;
    assert n as real == k + 1.0;
    assert x * (k + 1.0) == x * k + x;
  }

  lemma {:induction false} BlendBetween(values: seq<real>, period: nat, was: real, low: real, high: real)
    requires period > 0 && |values| > 0 && Between(values, low, high) && (|values| > period ==> low <= was <= high)
    ensures low <= Blend(values, period, was) <= high
  {
    hide Total, Alpha;
    if |values| <= period {
      TotalBetween(values, low, high);
      QuotientBetween(Total(values), |values| as real, low, high);
    } else {
      AlphaIsShare(period);
      Mixed(Alpha(period), values[|values| - 1], was, low, high);
    }
  }

  /** The average never leaves the range of the values. */
  lemma {:induction false} EmaStaysInRange(values: seq<real>, period: nat, low: real, high: real)
    requires period > 0 && Between(values, low, high)
    ensures Between(Ema(values, period), low, high)
  {
    if |values| > 0 {
      hide Ema, Tip, Blend;
      var before := Ema(values[..|values| - 1], period);
      EmaStaysInRange(values[..|values| - 1], period, low, high);
      EmaStep(values, period);
      if |before| > 0 {
        TipOf(before);
      }
      BlendBetween(values, period, Tip(before), low, high);
    }
  }

  lemma {:induction false} AlphaIsShare(period: nat)
    requires period > 0
    ensures 0.0 < Alpha(period) <= 1.0
  {
    var k, a := period as real + 1.0, Alpha(period);
    assert a * k == 2.0;
    assert (a - 1.0) * k == 2.0 - k;
    SignOf(a, k);
    SignOf(a - 1.0, k);
  }

  lemma {:induction false} QuotientBetween(t: real, k: real, low: real, high: real)
    requires k > 0.0 && low * k <= t <= high * k
    ensures low <= t / k <= high
  {
    var q := t / k;
    assert q * k == t;
    assert (low - q) * k == low * k - t && (q - high) * k == t - high * k;
    SignOf(low - q, k);
    SignOf(q - high, k);
  }

  lemma {:induction false} Mixed(a: real, x: real, y: real, low: real, high: real)
    requires 0.0 <= a <= 1.0 && low <= x <= high && low <= y <= high
    ensures low <= a * x + (1.0 - a) * y <= high
  {
    Product(a, x - low);
    Product(1.0 - a, y - low);
    Product(a, high - x);
    Product(1.0 - a, high - y);
    assert a * (x - low) + (1.0 - a) * (y - low) == a * x + (1.0 - a) * y - low;
    assert a * (high - x) + (1.0 - a) * (high - y) == high - (a * x + (1.0 - a) * y);
  }

  // ---------------------------------------------------------------- slope

  /** The newest `lookback` of a series, all of it if it is shorter or lookback is 0. */
  function Tail(s: seq<real>, lookback: nat): (r: seq<real>)
    ensures |s| > 0 ==> |r| > 0 && r[|r| - 1] == Tip(s)
  {
    if |s| >= lookback > 0 then s[|s| - lookback..] else s
  }

  function Clamped(x: real): real { Max(0.0, Min(1.0, x)) }

  /** Relative rise from start to end, with 2% either way mapped to [0, 1]. */
  function Score(start: real, end: real): real {
    var half := (Abs(start) + Abs(end)) / 2.0;
    Clamped(0.5 + (end - start) / (if half == 0.0 then 1.0 else half) / 0.04)
  }

  function Slope(ema: seq<real>, lookback: nat): real {
    if |ema| < 2 then 0.5 else Score(Tail(ema, lookback)[0], Tip(ema))
  }

  function SlopeSign(slope: real): int {
    if slope > 0.6 then 1 else if slope < 0.4 then -1 else 0
  }

  function Base(start: real, end: real): real {
    var half := (Abs(start) + Abs(end)) / 2.0;
    if half == 0.0 then 1.0 else half
  }

  /** The slope is above 0.5 exactly when the tail rises, saturates at a rise of 2% of the
      mean size of its ends, and is confidently up from just over 0.4% on. */
  lemma {:induction false} ScoreMeans(start: real, end: real)
    ensures Score(start, end) > 0.5 <==> end > start
    ensures Score(start, end) == 1.0 <==> end - start >= 0.02 * Base(start, end)
    ensures SlopeSign(Score(start, end)) == 1 <==> end - start > 0.004 * Base(start, end)
  {
    var base, d := Base(start, end), end - start;
    var rise := d / base;
    assert rise * base == d;
    RiseOver(rise, base, d, 0.0);
    RiseOver(rise, base, d, 0.02);
    RiseOver(rise, base, d, 0.004);
    Thresholds(rise);
  }

  lemma {:induction false} RiseOver(rise: real, base: real, d: real, limit: real)
    requires base > 0.0 && rise * base == d
    ensures rise > limit <==> d > limit * base
    ensures rise >= limit <==> d >= limit * base
  {
    assert (rise - limit) * base == d - limit * base;
    assert (limit - rise) * base == limit * base - d;
    SignOf(rise - limit, base);
    SignOf(limit - rise, base);
  }

  lemma {:induction false} Thresholds(rise: real)
    ensures var score := Clamped(0.5 + rise / 0.04);
            && (score > 0.5 <==> rise > 0.0) && (score == 1.0 <==> rise >= 0.02)
               && (SlopeSign(score) == 1 <==> rise > 0.004)
  {
  }

  /** The slope compares the newest average with the one `lookback` values earlier, counting
      itself, or with the first if there are fewer or the lookback is 0. */
  lemma {:induction false} SlopeMeans(ema: seq<real>, lookback: nat)
    requires |ema| >= 2
    ensures var start := ema[if |ema| >= lookback > 0 then |ema| - lookback else 0];
            var end := ema[|ema| - 1];
            && (Slope(ema, lookback) > 0.5 <==> end > start)
            && (Slope(ema, lookback) == 1.0 <==> end - start >= 0.02 * Base(start, end))
            && (SlopeSign(Slope(ema, lookback)) == 1 <==> end - start > 0.004 * Base(start, end))
            && (SlopeSign(Slope(ema, lookback)) == -1 <==> start - end > 0.004 * Base(start, end))
  {
    var start, end := Tail(ema, lookback)[0], Tip(ema);
    ScoreMeans(start, end);
    ScoreMirrors(start, end);
    ScoreMeans(-start, -end);
    hide Score, Base;
    BaseMirrors(start, end);
  }

  lemma {:induction false} BaseMirrors(start: real, end: real)
    ensures Base(-start, -end) == Base(start, end)
  {
  }

  // ---------------------------------------------------------------- swings

  /** The bar is as high as any within k of it, and higher than the k before it. */
  predicate IsSwingHigh(bars: seq<Bar>, k: nat, i: int) {
    && k <= i < |bars| - k
    && (forall j :: i - k <= j <= i + k ==> bars[i].high >= bars[j].high)
    && (forall j :: i - k <= j < i ==> bars[i].high > bars[j].high)
  }

  predicate IsSwingLow(bars: seq<Bar>, k: nat, i: int) {
    && k <= i < |bars| - k
    && (forall j :: i - k <= j <= i + k ==> bars[i].low <= bars[j].low)
    && (forall j :: i - k <= j < i ==> bars[i].low < bars[j].low)
  }

  /** The swing highs among the first n bars, oldest first. */
  function SwingHighsTo(bars: seq<Bar>, k: nat, n: nat): seq<int> {
    if n == 0 then [] else SwingHighsTo(bars, k, n - 1) + if IsSwingHigh(bars, k, n - 1) then [n - 1] else []
  }

  function SwingLowsTo(bars: seq<Bar>, k: nat, n: nat): seq<int> {
    if n == 0 then [] else SwingLowsTo(bars, k, n - 1) + if IsSwingLow(bars, k, n - 1) then [n - 1] else []
  }

  function SwingHighs(bars: seq<Bar>, k: nat): seq<int> { SwingHighsTo(bars, k, |bars|) }

  function SwingLows(bars: seq<Bar>, k: nat): seq<int> { SwingLowsTo(bars, k, |bars|) }

  method FindSwingHighs(bars: seq<Bar>, k: nat) returns (out: seq<int>)
    ensures out == SwingHighs(bars, k)
  {
    hide IsSwingHigh, IsSwingLow, SwingHighs, SwingLows;
    out := [];
    NoneOutside(bars, k);
    if |bars| < 2 * k {
      return;
    }
    for i := k to |bars| - k
      invariant out == SwingHighsTo(bars, k, i)
    {
      if IsSwingHigh(bars, k, i) {
        out := out + [i];
      }
    }
  }

  method FindSwingLows(bars: seq<Bar>, k: nat) returns (out: seq<int>)
    ensures out == SwingLows(bars, k)
  {
    hide IsSwingHigh, IsSwingLow, SwingHighs, SwingLows;
    out := [];
    NoneOutside(bars, k);
    if |bars| < 2 * k {
      return;
    }
    for i := k to |bars| - k
      invariant out == SwingLowsTo(bars, k, i)
    {
      if IsSwingLow(bars, k, i) {
        out := out + [i];
      }
    }
  }

  lemma {:induction false} SameBetween(bars: seq<Bar>, k: nat, m: nat, n: nat)
    requires m <= n
    requires forall i :: m <= i < n ==> !IsSwingHigh(bars, k, i) && !IsSwingLow(bars, k, i)
    ensures SwingHighsTo(bars, k, n) == SwingHighsTo(bars, k, m) && SwingLowsTo(bars, k, n) == SwingLowsTo(bars, k, m)
  {
    if m < n {
      SameBetween(bars, k, m, n - 1);
    }
  }

  /** The first k bars and the last k have no full context, so none of them is a swing. */
  lemma {:induction false} NoneOutside(bars: seq<Bar>, k: nat)
    ensures |bars| >= 2 * k ==>
              && SwingHighsTo(bars, k, k) == [] && SwingLowsTo(bars, k, k) == []
              && SwingHighsTo(bars, k, |bars| - k) == SwingHighs(bars, k)
                 && SwingLowsTo(bars, k, |bars| - k) == SwingLows(bars, k)
    ensures |bars| < 2 * k ==> SwingHighs(bars, k) == [] && SwingLows(bars, k) == []
  {
    if |bars| >= 2 * k {
      SameBetween(bars, k, 0, k);
      SameBetween(bars, k, |bars| - k, |bars|);
    } else {
      SameBetween(bars, k, 0, |bars|);
    }
  }

  lemma {:induction false} SwingsListed(bars: seq<Bar>, k: nat, n: nat)
    ensures forall i :: i in SwingHighsTo(bars, k, n) <==> 0 <= i < n && IsSwingHigh(bars, k, i)
    ensures forall a, b :: 0 <= a < b < |SwingHighsTo(bars, k, n)| ==>
              SwingHighsTo(bars, k, n)[a] < SwingHighsTo(bars, k, n)[b]
  {
    hide IsSwingHigh;
    if n > 0 {
      SwingsListed(bars, k, n - 1);
      var l := SwingHighsTo(bars, k, n - 1);
      forall a | 0 <= a < |l| ensures l[a] < n - 1 {
        assert l[a] in l;
      }
    }
  }

  lemma {:induction false} TwoSwingHighsApart(bars: seq<Bar>, k: nat, i: int, j: int)
    requires IsSwingHigh(bars, k, i) && IsSwingHigh(bars, k, j) && i < j
    ensures j - i > k
  {
    var older, newer := bars[i].high, bars[j].high;
  }

  /** Swing highs are listed oldest first and lie more than k bars apart, and so do lows. */
  lemma {:induction false} SwingsApart(bars: seq<Bar>, k: nat, a: int, b: int)
    ensures 0 <= a < b < |SwingHighs(bars, k)| ==> SwingHighs(bars, k)[b] - SwingHighs(bars, k)[a] > k
    ensures 0 <= a < b < |SwingLows(bars, k)| ==> SwingLows(bars, k)[b] - SwingLows(bars, k)[a] > k
  {
    HighsApart(bars, k, a, b);
    HighsApart(Mirror(bars), k, a, b);
    SwingsMirror(bars, k, |bars|);
  }

  lemma {:induction false} HighsApart(bars: seq<Bar>, k: nat, a: int, b: int)
    ensures 0 <= a < b < |SwingHighs(bars, k)| ==> SwingHighs(bars, k)[b] - SwingHighs(bars, k)[a] > k
  {
    SwingsListed(bars, k, |bars|);
    var l := SwingHighs(bars, k);
    hide IsSwingHigh, SwingHighs;
    if 0 <= a < b < |l| {
      assert l[a] in l && l[b] in l;
      TwoSwingHighsApart(bars, k, l[a], l[b]);
    }
  }

  // ---------------------------------------------------------------- mirroring

  /** Prices turned upside down. */
  function Mirror(bars: seq<Bar>): (r: seq<Bar>)
    ensures |r| == |bars|
    ensures forall i :: 0 <= i < |bars| ==> r[i] == Bar(-bars[i].low, -bars[i].high, -bars[i].close)
  {
    seq(|bars|, i requires 0 <= i < |bars| => Bar(-bars[i].low, -bars[i].high, -bars[i].close))
  }

  lemma {:induction false} SwingMirrors(bars: seq<Bar>, k: nat, i: int)
    ensures IsSwingHigh(Mirror(bars), k, i) <==> IsSwingLow(bars, k, i)
    ensures IsSwingLow(Mirror(bars), k, i) <==> IsSwingHigh(bars, k, i)
  {
  }

  /** Upside down, swing lows are the swing highs and the other way round. */
  lemma {:induction false} SwingsMirror(bars: seq<Bar>, k: nat, n: nat)
    ensures SwingHighsTo(Mirror(bars), k, n) == SwingLowsTo(bars, k, n)
    ensures SwingLowsTo(Mirror(bars), k, n) == SwingHighsTo(bars, k, n)
  {
    hide IsSwingHigh, IsSwingLow;
    if n > 0 {
      SwingsMirror(bars, k, n - 1);
      SwingMirrors(bars, k, n - 1);
    }
  }

  // ---------------------------------------------------------------- no lookahead

  lemma {:induction false} SwingConfirmed(bars: seq<Bar>, k: nat, n: nat, i: int)
    requires n <= |bars|
    ensures IsSwingHigh(bars[..n], k, i) <==> i < n - k && IsSwingHigh(bars, k, i)
  {
  }

  lemma {:induction false} HighsUpTo(bars: seq<Bar>, k: nat, n: nat, m: nat)
    requires m <= n <= |bars|
    ensures SwingHighsTo(bars[..n], k, m) <= SwingHighsTo(bars, k, m)
    ensures m <= n - k ==> SwingHighsTo(bars[..n], k, m) == SwingHighsTo(bars, k, m)
    decreases m
  {
    hide IsSwingHigh;
    if m > 0 {
      HighsUpTo(bars, k, n, m - 1);
      SwingConfirmed(bars, k, n, m - 1);
    }
  }

  lemma {:induction false} HighsGrow(bars: seq<Bar>, k: nat, m: nat, n: nat)
    requires m <= n
    ensures SwingHighsTo(bars, k, m) <= SwingHighsTo(bars, k, n)
  {
    if m < n {
      HighsGrow(bars, k, m, n - 1);
    }
  }

  /** Later bars never remove or move a confirmed swing: the swings of a prefix are the
      first of the swings of the whole. */
  lemma {:induction false} SwingsNeverLookAhead(bars: seq<Bar>, k: nat, n: nat)
    requires n <= |bars|
    ensures SwingHighs(bars[..n], k) <= SwingHighs(bars, k)
    ensures SwingLows(bars[..n], k) <= SwingLows(bars, k)
  {
    HighsUpTo(bars, k, n, n);
    HighsGrow(bars, k, n, |bars|);
    assert Mirror(bars[..n]) == Mirror(bars)[..n];
    HighsUpTo(Mirror(bars), k, n, n);
    HighsGrow(Mirror(bars), k, n, |bars|);
    SwingsMirror(bars, k, |bars|);
    SwingsMirror(bars[..n], k, n);
  }

  // ---------------------------------------------------------------- structure

  datatype Structure = HigherHighs | LowerLows | Neutral

  function Progress(h0: real, h1: real, l0: real, l1: real): Structure {
    if h1 > h0 && l1 > l0 then HigherHighs else if h1 < h0 && l1 < l0 then LowerLows else Neutral
  }

  /** How the last two swing highs and the last two swing lows moved. */
  function Classify(bars: seq<Bar>, k: nat): Structure {
    var highs, lows := SwingHighs(bars, k), SwingLows(bars, k);
    if |bars| < 2 * k + 2 || |highs| < 2 || |lows| < 2 then Neutral
    else Progress(HighAt(bars, highs[|highs| - 2]), HighAt(bars, highs[|highs| - 1]),
                  LowAt(bars, lows[|lows| - 2]), LowAt(bars, lows[|lows| - 1]))
  }

  function HighAt(bars: seq<Bar>, i: int): real { if 0 <= i < |bars| then bars[i].high else 0.0 }

  function LowAt(bars: seq<Bar>, i: int): real { if 0 <= i < |bars| then bars[i].low else 0.0 }

  function Flipped(s: Structure): Structure {
    match s case HigherHighs => LowerLows case LowerLows => HigherHighs case Neutral => Neutral
  }

  lemma {:induction false} StructureMirrors(bars: seq<Bar>, k: nat)
    ensures Classify(Mirror(bars), k) == Flipped(Classify(bars, k))
  {
    hide SwingHighs, SwingLows, Mirror, HighAt, LowAt;
    SwingListsMirror(bars, k);
    var highs, lows := SwingHighs(bars, k), SwingLows(bars, k);
    if |bars| >= 2 * k + 2 && |highs| >= 2 && |lows| >= 2 {
      MirrorAt(bars, highs[|highs| - 2]);
      MirrorAt(bars, highs[|highs| - 1]);
      MirrorAt(bars, lows[|lows| - 2]);
      MirrorAt(bars, lows[|lows| - 1]);
    }
  }

  lemma {:induction false} SwingListsMirror(bars: seq<Bar>, k: nat)
    ensures SwingHighs(Mirror(bars), k) == SwingLows(bars, k) && SwingLows(Mirror(bars), k) == SwingHighs(bars, k)
    ensures |Mirror(bars)| == |bars|
  {
    SwingsMirror(bars, k, |bars|);
  }

  lemma {:induction false} MirrorAt(bars: seq<Bar>, i: int)
    ensures HighAt(Mirror(bars), i) == -LowAt(bars, i) && LowAt(Mirror(bars), i) == -HighAt(bars, i)
  {
  }

  /** i and j are the newest two swing highs. */
  ghost predicate NewestHighs(bars: seq<Bar>, k: nat, i: int, j: int) {
    && IsSwingHigh(bars, k, i) && IsSwingHigh(bars, k, j) && i < j
    && forall l :: IsSwingHigh(bars, k, l) ==> l <= i || l == j
  }

  ghost predicate NewestLows(bars: seq<Bar>, k: nat, i: int, j: int) {
    IsSwingLow(bars, k, i) && IsSwingLow(bars, k, j) && i < j && forall l :: IsSwingLow(bars, k, l) ==> l <= i || l == j
  }

  /** The last two of the list of swing highs are the newest two swing highs there are. */
  lemma {:induction false} NewestTwo(bars: seq<Bar>, k: nat, i: int, j: int)
    ensures var highs := SwingHighs(bars, k);
            NewestHighs(bars, k, i, j) <==> |highs| >= 2 && i == highs[|highs| - 2] && j == highs[|highs| - 1]
  {
    SwingsListed(bars, k, |bars|);
    var highs := SwingHighs(bars, k);
    forall l ensures IsSwingHigh(bars, k, l) <==> l in highs {
    }
    LastTwo(highs, i, j);
    hide IsSwingHigh, SwingHighs;
  }

  lemma {:induction false} LastTwo(l: seq<int>, i: int, j: int)
    requires forall a, b :: 0 <= a < b < |l| ==> l[a] < l[b]
    ensures (i in l && j in l && i < j && forall x :: x in l ==> x <= i || x == j)
            <==> |l| >= 2 && i == l[|l| - 2] && j == l[|l| - 1]
  {
    if i in l && j in l && i < j && forall x :: x in l ==> x <= i || x == j {
      var a :| 0 <= a < |l| && l[a] == i;
      var b :| 0 <= b < |l| && l[b] == j;
      assert a < b;
      assert l[|l| - 1] in l && l[|l| - 2] in l;
    }
  }

  lemma {:induction false} LowsMirrorHighs(bars: seq<Bar>, k: nat, i: int, j: int)
    ensures NewestLows(bars, k, i, j) <==> NewestHighs(Mirror(bars), k, i, j)
  {
    forall l ensures IsSwingLow(bars, k, l) <==> IsSwingHigh(Mirror(bars), k, l) {
      SwingMirrors(bars, k, l);
    }
    hide IsSwingLow, IsSwingHigh, Mirror;
  }

  lemma {:induction false} NewestTwoLows(bars: seq<Bar>, k: nat, i: int, j: int)
    ensures var lows := SwingLows(bars, k);
            NewestLows(bars, k, i, j) <==> |lows| >= 2 && i == lows[|lows| - 2] && j == lows[|lows| - 1]
  {
    LowsMirrorHighs(bars, k, i, j);
    NewestTwo(Mirror(bars), k, i, j);
    SwingListsMirror(bars, k);
    hide SwingHighs, SwingLows, NewestHighs, NewestLows;
  }

  /** The structure moves one way exactly when the newest two swing highs and the newest two
      swing lows both exist and both move that way; the length check adds nothing to that. */
  lemma {:induction false} StructureIff(bars: seq<Bar>, k: nat)
    ensures Classify(bars, k) == HigherHighs <==>
            exists i, j, a, b :: NewestHighs(bars, k, i, j) && NewestLows(bars, k, a, b)
                                 && HighAt(bars, i) < HighAt(bars, j) && LowAt(bars, a) < LowAt(bars, b)
    ensures Classify(bars, k) == LowerLows <==>
            exists i, j, a, b :: NewestHighs(bars, k, i, j) && NewestLows(bars, k, a, b)
                                 && HighAt(bars, i) > HighAt(bars, j) && LowAt(bars, a) > LowAt(bars, b)
  {
    forall i, j ensures NewestHighs(bars, k, i, j) ==> |bars| >= 2 * k + 2 {
      if NewestHighs(bars, k, i, j) {
        TwoSwingHighsApart(bars, k, i, j);
      }
    }
    var highs, lows := SwingHighs(bars, k), SwingLows(bars, k);
    forall i, j
      ensures NewestHighs(bars, k, i, j) <==> |highs| >= 2 && i == highs[|highs| - 2] && j == highs[|highs| - 1]
    {
      NewestTwo(bars, k, i, j);
    }
    forall i, j ensures NewestLows(bars, k, i, j) <==> |lows| >= 2 && i == lows[|lows| - 2] && j == lows[|lows| - 1] {
      NewestTwoLows(bars, k, i, j);
    }
    hide NewestHighs, NewestLows, SwingHighs, SwingLows, HighAt, LowAt;
    if |highs| >= 2 && |lows| >= 2 {
      assert NewestHighs(bars, k, highs[|highs| - 2], highs[|highs| - 1]);
      assert NewestLows(bars, k, lows[|lows| - 2], lows[|lows| - 1]);
    }
  }

  // ---------------------------------------------------------------- top-down bias

  datatype Engine = Engine(emaPeriod: nat, dailyK: nat, h4K: nat, lookback: nat) {
    predicate Accepted() { emaPeriod > 0 && dailyK > 0 && h4K > 0 }
  }

  datatype Bias = Bias(ema: seq<real>, slope: real, daily: Structure, h4: Structure, bias: int, agreement: bool)

  function Sign(s: Structure): int {
    match s case HigherHighs => 1 case LowerLows => -1 case Neutral => 0
  }

  function Closes(bars: seq<Bar>): (r: seq<real>)
    ensures |r| == |bars|
  {
    seq(|bars|, i requires 0 <= i < |bars| => bars[i].close)
  }

  function DailyBias(slope: int, structure: int): int {
    if slope != 0 && structure != 0 then (if slope == structure then slope else 0)
    else if slope != 0 then slope else structure
  }

  function Gated(daily: int, h4: int): int {
    if daily == 0 then 0 else if h4 == 0 || h4 == daily then daily else 0
  }

  function Agrees(daily: int, h4: int): bool { daily != 0 && h4 != 0 && daily == h4 }

  function Composed(ema: seq<real>, slope: real, d: Structure, f: Structure): Bias {
    var side := DailyBias(SlopeSign(slope), Sign(d));
    Bias(ema, slope, d, f, Gated(side, Sign(f)), Agrees(side, Sign(f)))
  }

  function TopDown(e: Engine, daily: seq<Bar>, h4: seq<Bar>): Bias
    requires e.Accepted()
  {
    if |daily| < e.emaPeriod then Bias([], 0.5, Neutral, Neutral, 0, false)
    else
      var ema := Ema(Closes(daily), e.emaPeriod);
      Composed(ema, Slope(ema, e.lookback), Classify(daily, e.dailyK), Classify(h4, e.h4K))
  }

  /** The bias is a direction exactly when the daily slope or structure gives it and none of
      slope, daily and four-hour structure points the other way; the frames agree exactly
      when the four-hour structure gives that direction too. */
  lemma {:induction false} BiasIff(e: Engine, daily: seq<Bar>, h4: seq<Bar>, side: int)
    requires e.Accepted() && |daily| >= e.emaPeriod && (side == 1 || side == -1)
    ensures var b := TopDown(e, daily, h4);
            var slope, d, f := SlopeSign(b.slope), Sign(b.daily), Sign(b.h4);
            && (b.bias == side <==> (slope == side || d == side) && slope != -side && d != -side && f != -side)
            && (b.agreement <==> b.bias != 0 && f == b.bias)
            && b.daily == Classify(daily, e.dailyK) && b.h4 == Classify(h4, e.h4K)
            && b.ema == Ema(Closes(daily), e.emaPeriod) && b.slope == Slope(b.ema, e.lookback)
  {
    hide Ema, Slope, Classify, Closes;
  }

  lemma {:induction false} EmaMirrors(values: seq<real>, period: nat)
    ensures Ema(Negated(values), period) == Negated(Ema(values, period))
  {
    hide Ema, Blend, Tip;
    if |values| > 0 {
      var before := values[..|values| - 1];
      EmaMirrors(before, period);
      assert Negated(values)[..|values| - 1] == Negated(before);
      EmaStep(values, period);
      EmaStep(Negated(values), period);
      TipNegated(Ema(before, period));
      BlendNegated(values, period, Tip(Ema(before, period)));
      assert Negated(Ema(values, period))
             == Negated(Ema(before, period)) + [-Blend(values, period, Tip(Ema(before, period)))];
    }
  }

  lemma {:induction false} TipNegated(s: seq<real>)
    ensures Tip(Negated(s)) == -Tip(s)
  {
  }

  lemma {:induction false} BlendNegated(values: seq<real>, period: nat, was: real)
    requires |values| > 0
    ensures Blend(Negated(values), period, -was) == -Blend(values, period, was)
  {
    NegatedTotal(values);
    QuotientNegated(Total(values), |values| as real);
    MixNegated(Alpha(period), values[|values| - 1], was);
    hide Total, Alpha;
  }

  lemma {:induction false} MixNegated(a: real, x: real, y: real)
    ensures a * -x + (1.0 - a) * -y == -(a * x + (1.0 - a) * y)
  {
  }

  lemma {:induction false} SlopeMirrors(ema: seq<real>, lookback: nat)
    ensures Slope(Negated(ema), lookback) == 1.0 - Slope(ema, lookback)
  {
    hide Score, Tip, Tail;
    if |ema| >= 2 {
      TailNegated(ema, lookback);
      TipNegated(ema);
      var start := Tail(ema, lookback)[0];
      assert Tail(Negated(ema), lookback)[0] == -start;
      ScoreMirrors(start, Tip(ema));
    }
  }

  lemma {:induction false} TailNegated(s: seq<real>, lookback: nat)
    ensures Tail(Negated(s), lookback) == Negated(Tail(s, lookback))
  {
    hide Tip;
    if |s| >= lookback > 0 {
      var n := |s| - lookback;
      assert Negated(s)[n..] == Negated(s[n..]);
    }
  }

  lemma {:induction false} ScoreMirrors(start: real, end: real)
    ensures Score(-start, -end) == 1.0 - Score(start, end)
  {
    var half := (Abs(start) + Abs(end)) / 2.0;
    var base := if half == 0.0 then 1.0 else half;
    QuotientNegated(end - start, base);
    assert -end - -start == -(end - start);
  }

  lemma {:induction false} SignMirrors(slope: real)
    ensures SlopeSign(1.0 - slope) == -SlopeSign(slope)
  {
  }

  /** Turning all prices upside down turns the bias round and keeps the agreement; the
      average is negated, the slope mirrored about 0.5 and both structures flipped. */
  lemma {:induction false} TopDownMirrors(e: Engine, daily: seq<Bar>, h4: seq<Bar>)
    requires e.Accepted()
    ensures var b, m := TopDown(e, daily, h4), TopDown(e, Mirror(daily), Mirror(h4));
            && m.bias == -b.bias && m.agreement == b.agreement
            && m.ema == Negated(b.ema) && m.slope == 1.0 - b.slope
            && m.daily == Flipped(b.daily) && m.h4 == Flipped(b.h4)
  {
    hide Ema, Slope, Classify, Closes, Composed;
    ClosesMirror(daily);
    EmaMirrors(Closes(daily), e.emaPeriod);
    var ema := Ema(Closes(daily), e.emaPeriod);
    SlopeMirrors(ema, e.lookback);
    StructureMirrors(daily, e.dailyK);
    StructureMirrors(h4, e.h4K);
    ComposedMirrors(ema, Slope(ema, e.lookback), Classify(daily, e.dailyK), Classify(h4, e.h4K));
  }

  lemma {:induction false} ClosesMirror(bars: seq<Bar>)
    ensures Closes(Mirror(bars)) == Negated(Closes(bars))
  {
  }

  lemma {:induction false} ComposedMirrors(ema: seq<real>, slope: real, d: Structure, f: Structure)
    ensures var b, m := Composed(ema, slope, d, f), Composed(Negated(ema), 1.0 - slope, Flipped(d), Flipped(f));
            && m.bias == -b.bias && m.agreement == b.agreement && m.ema == Negated(b.ema) && m.slope == 1.0 - b.slope
            && m.daily == Flipped(b.daily) && m.h4 == Flipped(b.h4)
  {
    SignMirrors(slope);
    hide SlopeSign;
  }
}
