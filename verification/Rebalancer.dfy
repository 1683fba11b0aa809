/** The guarded portfolio rebalance: rank-scaled, correlation-damped targets that keep the
    whole budget and stay inside the caps. */
module Rebalancer {
  import opened Reals
  import opened Sums
  import opened Sorting
  import opened CorrelationGroups

  /** One bot: its rolling Sharpe ratio and its baseline allocation. */
  datatype Perf = Perf(name: Name, sharpe: real, baseline: real)

  datatype Settings = Settings(threshold: real, capLow: real, capHigh: real, drawdown: real, brakeAt: real) {
    predicate Braked() { drawdown > brakeAt }

    ghost predicate Sane() { 0.0 < capLow <= 1.0 <= capHigh }

    /** The share of the baseline budget handed out again. */
    function Share(): (r: real)
      ensures r > 0.0
    {
      if Braked() then 0.5 else 1.0
    }
  }

  datatype Decision = Decision(name: Name, baseline: real, target: real, multiplier: real, group: set<Name>,
                               damped: bool, braked: bool)

  datatype Plan = Plan(allocations: map<Name, real>, decisions: seq<Decision>, braked: bool, totalBaseline: real,
                       totalTarget: real)

  function SharpesOf(perf: seq<Perf>): (r: seq<real>)
    ensures |r| == |perf| && forall i :: 0 <= i < |perf| ==> r[i] == perf[i].sharpe
  {
    seq(|perf|, i requires 0 <= i < |perf| => perf[i].sharpe)
  }

  function BaselinesOf(perf: seq<Perf>): (r: seq<real>)
    ensures |r| == |perf| && forall i :: 0 <= i < |perf| ==> r[i] == perf[i].baseline
  {
    seq(|perf|, i requires 0 <= i < |perf| => perf[i].baseline)
  }

  function NamesOf(perf: seq<Perf>): (r: seq<Name>)
    ensures |r| == |perf| && forall i :: 0 <= i < |perf| ==> r[i] == perf[i].name
  {
    seq(|perf|, i requires 0 <= i < |perf| => perf[i].name)
  }

  ghost predicate DistinctNames(perf: seq<Perf>) {
    forall i, j :: 0 <= i < j < |perf| ==> perf[i].name != perf[j].name
  }

  // ---------------------------------------------------------------- ranks

  /** Worst of n gets capLow, best gets capHigh, the rest spaced evenly; a lone bot gets 1. */
  function RankMultiplier(s: Settings, a: int, n: int): (r: real)
    requires 0 <= a < n
  {
    if n == 1 then 1.0 else s.capLow + (s.capHigh - s.capLow) * (a as real / (n - 1) as real)
  }

  /** The rank multipliers once the first a bots of the ordering have been placed. */
  ghost function Placed(s: Settings, order: seq<int>, a: nat): (r: seq<real>)
    requires a <= |order| && forall x :: 0 <= x < |order| ==> 0 <= order[x] < |order|
    ensures |r| == |order|
  {
    if a == 0 then seq(|order|, x => 0.0)
    else Placed(s, order, a - 1)[order[a - 1] := RankMultiplier(s, a - 1, |order|)]
  }

  lemma {:induction false} PlacedAt(s: Settings, order: seq<int>, a: nat, x: int)
    requires a <= |order| && forall x :: 0 <= x < |order| ==> 0 <= order[x] < |order|
    requires forall x, y :: 0 <= x < y < |order| ==> order[x] != order[y]
    requires 0 <= x < a
    ensures Placed(s, order, a)[order[x]] == RankMultiplier(s, x, |order|)
  {
    if x < a - 1 {
      PlacedAt(s, order, a - 1, x);
    }
  }

  ghost function Ranks(s: Settings, perf: seq<Perf>): (r: seq<real>)
    ensures |r| == |perf|
  {
    Placed(s, Order(SharpesOf(perf)), |perf|)
  }

  lemma {:induction false} RankMultiplierBounds(s: Settings, a: int, n: int)
    requires s.Sane() && 0 <= a < n
    ensures s.capLow <= RankMultiplier(s, a, n) <= s.capHigh
  {
    if n > 1 {
      var w, x := s.capHigh - s.capLow, a as real / (n - 1) as real;
      ShareOfRange(a, n - 1, x);
      Interpolate(w, x);
      assert RankMultiplier(s, a, n) == s.capLow + w * x;
    }
  }

  lemma {:induction false} ShareOfRange(a: int, k: int, x: real)
    requires 0 <= a <= k && k > 0 && x == a as real / k as real
    ensures 0.0 <= x <= 1.0
  {
    var r := k as real;
    assert x * r == a as real && (x - 1.0) * r == a as real - r;
    SignOf(-x, r);
    SignOf(x - 1.0, r);
  }

  lemma {:induction false} Interpolate(w: real, x: real)
    requires w >= 0.0 && 0.0 <= x <= 1.0
    ensures 0.0 <= w * x <= w
  {
    assert w - w * x == w * (1.0 - x);
  }

  /** Every rank multiplier lies within the caps, and a bot with the better Sharpe never
      gets the smaller one. */
  lemma {:induction false} RanksOrdered(s: Settings, perf: seq<Perf>, i: int, j: int)
    requires s.Sane() && 0 <= i < |perf| && 0 <= j < |perf|
    ensures s.capLow <= Ranks(s, perf)[i] <= s.capHigh
    ensures perf[i].sharpe < perf[j].sharpe ==> Ranks(s, perf)[i] <= Ranks(s, perf)[j]
  {
    var order, n := Order(SharpesOf(perf)), |perf|;
    var a := PositionOf(order, i);
    var b := PositionOf(order, j);
    hide RankMultiplier;
    PlacedAt(s, order, n, a);
    PlacedAt(s, order, n, b);
    RankMultiplierBounds(s, a, n);
    if perf[i].sharpe < perf[j].sharpe {
      RankMultiplierMonotone(s, a, b, n);
    }
  }

  lemma {:induction false} PositionOf(order: seq<int>, i: int) returns (a: nat)
    requires Permutation(order, |order|) && 0 <= i < |order|
    ensures a < |order| && order[a] == i
  {
    assert Range(|order|)[i] in multiset(order);
    a :| 0 <= a < |order| && order[a] == i;
  }

  lemma {:induction false} RankMultiplierMonotone(s: Settings, a: int, b: int, n: int)
    requires s.Sane() && 0 <= a <= b < n
    ensures RankMultiplier(s, a, n) <= RankMultiplier(s, b, n)
  {
    if n > 1 {
      var d := (n - 1) as real;
      var x, y := a as real / d, b as real / d;
      assert x <= y;
      Scale(s.capHigh - s.capLow, x, y);
    }
  }

  lemma {:induction false} Scale(w: real, x: real, y: real)
    requires w >= 0.0 && x <= y
    ensures w * x <= w * y
  {
  }

  // ---------------------------------------------------------------- damping

  function Damp(mult: real, size: nat): real {
    if size > 1 && mult > 1.0 then 1.0 + (mult - 1.0) / size as real else mult
  }

  /** Damping only ever shrinks a winner's excess over 1: it never pushes it to 1 or below,
      never touches a loser, and keeps the order of bots in groups of one size. */
  lemma {:induction false} DampShrinks(mult: real, other: real, size: nat)
    ensures mult <= 1.0 ==> Damp(mult, size) == mult
    ensures mult > 1.0 ==> 1.0 < Damp(mult, size) <= mult
    ensures mult > 1.0 && size > 1 ==> Damp(mult, size) < mult
    ensures mult <= other ==> Damp(mult, size) <= Damp(other, size)
  {
    if size > 1 {
      DivideShrinks(mult - 1.0, size as real);
      DivideShrinks(other - 1.0, size as real);
      DivideMonotone(mult - 1.0, other - 1.0, size as real);
    }
  }

  lemma {:induction false} DivideShrinks(x: real, d: real)
    requires d > 1.0
    ensures x > 0.0 ==> 0.0 < x / d < x
  {
    var q := x / d;
    assert q * d == x;
    SignOf(q, d);
    if x > 0.0 {
      Product(q, d - 1.0);
      assert q * (d - 1.0) == x - q;
    }
  }

  lemma {:induction false} DivideMonotone(x: real, y: real, d: real)
    requires d > 0.0
    ensures x <= y ==> x / d <= y / d
  {
    var p, q := x / d, y / d;
    assert p * d == x && q * d == y;
    assert (p - q) * d == x - y;
    SignOf(p - q, d);
  }

  ghost function GroupOf(perf: seq<Perf>, entries: seq<Entry>, s: Settings, name: Name): set<Name> {
    var known := NamesIn(NamesOf(perf));
    Component(known, Edges(known, entries, s.threshold), name)
  }

  // ---------------------------------------------------------------- targets

  ghost function Multiplier(perf: seq<Perf>, entries: seq<Entry>, s: Settings, i: int): real
    requires 0 <= i < |perf|
  {
    Damp(Ranks(s, perf)[i], |GroupOf(perf, entries, s, perf[i].name)|)
  }

  ghost function RawTargets(perf: seq<Perf>, entries: seq<Entry>, s: Settings): (r: seq<real>)
    ensures |r| == |perf|
  {
    seq(|perf|, i requires 0 <= i < |perf| => perf[i].baseline * Multiplier(perf, entries, s, i))
  }

  ghost function Budget(perf: seq<Perf>, s: Settings): real {
    Total(BaselinesOf(perf)) * s.Share()
  }

  function Normalization(budget: real, rawTotal: real): real {
    if rawTotal > 0.0 then budget / rawTotal else 0.0
  }

  function ScaleAll(raw: seq<real>, c: real): (r: seq<real>)
    ensures |r| == |raw|
  {
    seq(|raw|, i requires 0 <= i < |raw| => raw[i] * c)
  }

  /** What each bot is given, before rounding to cents. */
  ghost function Targets(perf: seq<Perf>, entries: seq<Entry>, s: Settings): (r: seq<real>)
    ensures |r| == |perf|
  {
    var raw := RawTargets(perf, entries, s);
    ScaleAll(raw, Normalization(Budget(perf, s), Total(raw)))
  }

  lemma {:induction false} TotalScaled(raw: seq<real>, c: real, scaled: seq<real>)
    requires |scaled| == |raw| && forall i :: 0 <= i < |raw| ==> scaled[i] == c * raw[i]
    ensures Total(scaled) == c * Total(raw)
  {
    TotalIsSum(raw);
    TotalIsSum(scaled);
    SumFactor(|raw|, c, Reading(raw), Reading(scaled));
  }

  lemma {:induction false} TotalBetween(base: seq<real>, raw: seq<real>, lo: real, hi: real)
    requires |raw| == |base| && forall i :: 0 <= i < |base| ==> lo * base[i] <= raw[i] <= hi * base[i]
    ensures lo * Total(base) <= Total(raw) <= hi * Total(base)
  {
    var low, high := seq(|base|, i requires 0 <= i < |base| => lo * base[i]),
        seq(|base|, i requires 0 <= i < |base| => hi * base[i]);
    TotalScaled(base, lo, low);
    TotalScaled(base, hi, high);
    TotalIsSum(low);
    TotalIsSum(high);
    TotalIsSum(raw);
    SumMonotone(|base|, Reading(low), Reading(raw));
    SumMonotone(|base|, Reading(raw), Reading(high));
  }

  lemma {:induction false} MultiplierWithinCaps(perf: seq<Perf>, entries: seq<Entry>, s: Settings, i: int)
    requires s.Sane() && 0 <= i < |perf|
    ensures s.capLow <= Multiplier(perf, entries, s, i) <= s.capHigh
  {
    hide Ranks, Damp;
    RanksOrdered(s, perf, i, i);
    DampShrinks(Ranks(s, perf)[i], Ranks(s, perf)[i], |GroupOf(perf, entries, s, perf[i].name)|);
  }

  ghost predicate PositiveBaselines(perf: seq<Perf>) {
    |perf| > 0 && forall i :: 0 <= i < |perf| ==> perf[i].baseline > 0.0
  }

  lemma {:induction false} RawTargetBounds(perf: seq<Perf>, entries: seq<Entry>, s: Settings, i: int)
    requires s.Sane() && PositiveBaselines(perf) && 0 <= i < |perf|
    ensures s.capLow * BaselinesOf(perf)[i] <= RawTargets(perf, entries, s)[i] <= s.capHigh * BaselinesOf(perf)[i]
  {
    hide Multiplier;
    var mult := Multiplier(perf, entries, s, i);
    MultiplierWithinCaps(perf, entries, s, i);
    Scale(perf[i].baseline, s.capLow, mult);
    Scale(perf[i].baseline, mult, s.capHigh);
  }

  lemma {:induction false} TotalPositive(s: seq<real>)
    requires |s| > 0 && forall i :: 0 <= i < |s| ==> s[i] > 0.0
    ensures Total(s) > 0.0
  {
    TotalIsSum(s);
    SumPositive(|s|, Reading(s));
    assert Reading(s)(0) > 0.0;
  }

  lemma {:induction false} RawTotalBounds(perf: seq<Perf>, entries: seq<Entry>, s: Settings)
    requires s.Sane() && PositiveBaselines(perf)
    ensures var b := Total(BaselinesOf(perf));
            b > 0.0 && s.capLow * b <= Total(RawTargets(perf, entries, s)) <= s.capHigh * b
  {
    hide Total, Multiplier, RawTargets;
    var base, raw := BaselinesOf(perf), RawTargets(perf, entries, s);
    TotalPositive(base);
    hide BaselinesOf, PositiveBaselines;
    forall i | 0 <= i < |perf| ensures s.capLow * base[i] <= raw[i] <= s.capHigh * base[i] {
      RawTargetBounds(perf, entries, s, i);
    }
    TotalBetween(base, raw, s.capLow, s.capHigh);
  }

  /** The unrounded targets hand out the whole budget: all of the baseline, or half of it
      under the drawdown brake. */
  lemma {:induction false} TargetsSpendTheBudget(perf: seq<Perf>, entries: seq<Entry>, s: Settings)
    requires s.Sane() && PositiveBaselines(perf)
    ensures Total(Targets(perf, entries, s)) == Budget(perf, s)
    ensures s.drawdown > s.brakeAt ==> 2.0 * Total(Targets(perf, entries, s)) == Total(BaselinesOf(perf))
    ensures s.drawdown <= s.brakeAt ==> Total(Targets(perf, entries, s)) == Total(BaselinesOf(perf))
  {
    hide Total, RawTargets, BaselinesOf;
    var raw := RawTargets(perf, entries, s);
    RawTotalBounds(perf, entries, s);
    Product(s.capLow, Total(BaselinesOf(perf)));
    TotalScaled(raw, Normalization(Budget(perf, s), Total(raw)), Targets(perf, entries, s));
    hide Targets;
    assert Budget(perf, s) / Total(raw) * Total(raw) == Budget(perf, s);
  }

  lemma {:induction false} TargetParts(perf: seq<Perf>, entries: seq<Entry>, s: Settings, i: int)
      returns (q: real, mult: real)
    requires s.Sane() && PositiveBaselines(perf) && 0 <= i < |perf|
    ensures s.capLow <= mult <= s.capHigh && 1.0 / s.capHigh <= q <= 1.0 / s.capLow
    ensures Targets(perf, entries, s)[i] == perf[i].baseline * mult * (q * s.Share())
  {
    hide Total, RawTargets, BaselinesOf, Multiplier, Targets, Settings.Share, PositiveBaselines;
    var b, r := Total(BaselinesOf(perf)), Total(RawTargets(perf, entries, s));
    mult := Multiplier(perf, entries, s, i);
    RawTotalBounds(perf, entries, s);
    MultiplierWithinCaps(perf, entries, s, i);
    Product(s.capLow, b);
    q := b / r;
    NormalizationBounds(s.capLow, s.capHigh, b, r);
    TargetAt(perf, entries, s, i, b, r, mult);
  }

  /** No bot's final multiple of its baseline leaves the caps' ratio, scaled by the brake. */
  lemma {:induction false} TargetsWithinCaps(perf: seq<Perf>, entries: seq<Entry>, s: Settings, i: int)
    requires s.Sane() && PositiveBaselines(perf) && 0 <= i < |perf|
    ensures var share := if s.drawdown > s.brakeAt then 0.5 else 1.0;
            && share * (s.capLow / s.capHigh) * perf[i].baseline <= Targets(perf, entries, s)[i]
            && Targets(perf, entries, s)[i] <= share * (s.capHigh / s.capLow) * perf[i].baseline
  {
    hide Targets;
    var q, mult := TargetParts(perf, entries, s, i);
    FinalMultiple(s.capLow, s.capHigh, q, mult, s.Share(), perf[i].baseline);
  }

  lemma {:induction false} TargetAt(perf: seq<Perf>, entries: seq<Entry>, s: Settings, i: int, b: real, r: real,
                                    mult: real)
    requires 0 <= i < |perf| && b == Total(BaselinesOf(perf)) && r == Total(RawTargets(perf, entries, s)) && r > 0.0
    requires mult == Multiplier(perf, entries, s, i)
    ensures Targets(perf, entries, s)[i] == perf[i].baseline * mult * (b / r * s.Share())
  {
    hide Total, BaselinesOf, Multiplier, Settings.Share;
    ShareOut(b, s.Share(), r);
    var raw := RawTargets(perf, entries, s);
    assert raw[i] == perf[i].baseline * mult;
    hide RawTargets;
    assert Targets(perf, entries, s)[i] == raw[i] * Normalization(Budget(perf, s), r);
    hide Targets;
  }

  lemma {:induction false} ShareOut(b: real, share: real, r: real)
    requires r > 0.0
    ensures b * share / r == b / r * share
  {
  }

  lemma {:induction false} NormalizationBounds(lo: real, hi: real, b: real, r: real)
    requires 0.0 < lo <= hi && b > 0.0 && lo * b <= r <= hi * b && r > 0.0
    ensures 1.0 / hi <= b / r <= 1.0 / lo
  {
    QuotientBound(b, r, hi);
    QuotientBoundAbove(b, r, lo);
  }

  lemma {:induction false} QuotientBound(b: real, r: real, hi: real)
    requires r > 0.0 && hi > 0.0 && r <= hi * b
    ensures 1.0 / hi <= b / r
  {
    var q := b / r;
    assert b == q * r;
    assert hi * b == (hi * q) * r;
    if hi * q < 1.0 {
      ScaleUpStrict(hi * q, 1.0, r);
    }
    assert q == (hi * q) / hi;
    DivideMonotone(1.0, hi * q, hi);
  }

  lemma {:induction false} QuotientBoundAbove(b: real, r: real, lo: real)
    requires r > 0.0 && lo > 0.0 && lo * b <= r
    ensures b / r <= 1.0 / lo
  {
    var q := b / r;
    assert b == q * r;
    assert lo * b == (lo * q) * r;
    if lo * q > 1.0 {
      ScaleUpStrict(1.0, lo * q, r);
    }
    assert q == (lo * q) / lo;
    DivideMonotone(lo * q, 1.0, lo);
  }

  lemma {:induction false} FinalMultiple(lo: real, hi: real, q: real, mult: real, share: real, base: real)
    requires 0.0 < lo <= mult <= hi && 1.0 / hi <= q <= 1.0 / lo && share > 0.0 && base > 0.0
    ensures share * (lo / hi) * base <= base * mult * (q * share) <= share * (hi / lo) * base
  {
    var f := mult * q;
    MultiplyBounds(lo, hi, q, mult);
    assert base * mult * (q * share) == (share * base) * f;
    assert share * (lo / hi) * base == (share * base) * (lo / hi);
    assert share * (hi / lo) * base == (share * base) * (hi / lo);
    Product(share, base);
    Scale(share * base, lo / hi, f);
    Scale(share * base, f, hi / lo);
  }

  lemma {:induction false} MultiplyBounds(lo: real, hi: real, q: real, mult: real)
    requires 0.0 < lo <= mult <= hi && 1.0 / hi <= q <= 1.0 / lo
    ensures lo / hi <= mult * q <= hi / lo
  {
    var least, most := 1.0 / hi, 1.0 / lo;
    Scale(mult, least, q);
    Scale(mult, q, most);
    Reciprocal(mult, hi, least);
    Reciprocal(mult, lo, most);
    DivideMonotone(lo, mult, hi);
    DivideMonotone(mult, hi, lo);
  }

  lemma {:induction false} Reciprocal(x: real, d: real, r: real)
    requires d > 0.0 && r == 1.0 / d
    ensures x * r == x / d
  {
    assert r * d == 1.0;
    assert (x * r) * d == x * (r * d);
    Quotient(x * r, d, x);
  }

  /** Rounding each target to the cent moves the whole allocation by at most half a cent a
      bot. */
  lemma {:induction false} RoundedTotal(exact: seq<real>, rounded: seq<real>)
    requires |rounded| == |exact|
    requires forall i :: 0 <= i < |exact| ==> -0.005 <= rounded[i] - exact[i] <= 0.005
    ensures -0.005 * |exact| as real <= Total(rounded) - Total(exact) <= 0.005 * |exact| as real
  {
    if |exact| > 0 {
      var n := |exact| - 1;
      RoundedTotal(exact[..n], rounded[..n]);
      assert |exact| as real == n as real + 1.0;
    }
  }

  ghost predicate CentRounding(round2: real -> real) {
    forall x :: -0.005 <= round2(x) - x <= 0.005
  }

  /** The total a plan reports is within half a cent a bot, and one half more, of the budget. */
  ghost predicate NearBudget(perf: seq<Perf>, s: Settings, total: real) {
    var budget := if s.drawdown > s.brakeAt then Total(BaselinesOf(perf)) / 2.0 else Total(BaselinesOf(perf));
    -0.005 * (|perf| + 1) as real <= total - budget <= 0.005 * (|perf| + 1) as real
  }

  lemma {:induction false} RoundedTargetsNearBudget(perf: seq<Perf>, entries: seq<Entry>, s: Settings,
                                                    round2: real -> real, rounded: seq<real>)
    requires s.Sane() && PositiveBaselines(perf) && CentRounding(round2) && |rounded| == |perf|
    requires forall i :: 0 <= i < |perf| ==> rounded[i] == round2(Targets(perf, entries, s)[i])
    ensures NearBudget(perf, s, round2(Total(rounded)))
  {
    var exact := Targets(perf, entries, s);
    hide Total, Targets, Budget, PositiveBaselines;
    RoundedTotal(exact, rounded);
    TargetsSpendTheBudget(perf, entries, s);
    assert -0.005 <= round2(Total(rounded)) - Total(rounded) <= 0.005;
  }

  // ---------------------------------------------------------------- the program

  /** What the plan promises of decision i. */
  ghost predicate Decides(perf: seq<Perf>, entries: seq<Entry>, s: Settings, round2: real -> real, round6: real -> real,
                          d: Decision, i: int)
    requires 0 <= i < |perf|
  {
    var group := GroupOf(perf, entries, s, perf[i].name);
    var target := round2(Targets(perf, entries, s)[i]);
    && d.name == perf[i].name && d.baseline == round2(perf[i].baseline)
    && d.target == target && d.group == group && d.braked == s.Braked()
    && d.multiplier == (if perf[i].baseline > 0.0 then round6(target / perf[i].baseline) else 0.0)
    && (d.damped <==> |group| > 1 && Ranks(s, perf)[i] > 1.0)
  }

  lemma {:induction false} DecidedTarget(perf: seq<Perf>, entries: seq<Entry>, s: Settings, round2: real -> real,
                                         round6: real -> real, d: Decision, i: int)
    requires 0 <= i < |perf| && Decides(perf, entries, s, round2, round6, d, i)
    ensures d.target == round2(Targets(perf, entries, s)[i])
  {
    hide Targets, GroupOf, Ranks;
  }

  method PlaceRanks(s: Settings, perf: seq<Perf>) returns (ranks: seq<real>)
    ensures ranks == Ranks(s, perf)
  {
    var order, n := Order(SharpesOf(perf)), |perf|;
    ranks := seq(n, _ => 0.0);
    assert ranks == Placed(s, order, 0);
    for a := 0 to n
      invariant ranks == Placed(s, order, a)
    {
      hide RankMultiplier;
      ranks := ranks[order[a] := RankMultiplier(s, a, n)];
    }
  }

  /** Damp the winners of every crowded group, on a copy of the ranks. */
  method DampenCorrelatedWinners(names: seq<Name>, ranks: seq<real>, groups: map<Name, set<Name>>)
      returns (damped: seq<real>)
    requires |ranks| == |names| && forall i :: 0 <= i < |names| ==> names[i] in groups
    ensures |damped| == |ranks| && forall i :: 0 <= i < |ranks| ==> damped[i] == Damp(ranks[i], |groups[names[i]]|)
  {
    damped := ranks;
    for i := 0 to |names|
      invariant |damped| == |ranks|
      invariant forall l :: 0 <= l < i ==> damped[l] == Damp(ranks[l], |groups[names[l]]|)
      invariant forall l :: i <= l < |ranks| ==> damped[l] == ranks[l]
    {
      var size := |groups[names[i]]|;
      if size > 1 {
        if ranks[i] > 1.0 {
          damped := damped[i := 1.0 + (ranks[i] - 1.0) / size as real];
        }
      }
    }
  }

  /** Compute the whole plan.  Rounding is whatever the library does. */
  method BuildRebalancePlan(perf: seq<Perf>, entries: seq<Entry>, s: Settings, round2: real -> real,
                            round6: real -> real) returns (plan: Plan)
    requires DistinctNames(perf)
    ensures |perf| == 0 ==> plan == Plan(map[], [], false, 0.0, 0.0)
    ensures |plan.decisions| == |perf|
    ensures forall i :: 0 <= i < |perf| ==> Decides(perf, entries, s, round2, round6, plan.decisions[i], i)
    ensures plan.allocations.Keys == NamesIn(NamesOf(perf))
    ensures forall i :: 0 <= i < |perf| ==>
              perf[i].name in plan.allocations && plan.allocations[perf[i].name] == plan.decisions[i].target
    ensures |perf| > 0 ==> plan.braked == s.Braked() && plan.totalBaseline == round2(Total(BaselinesOf(perf)))
    ensures |perf| > 0 ==>
              plan.totalTarget == round2(Total(seq(|perf|, i requires 0 <= i < |perf| => plan.decisions[i].target)))
    ensures s.Sane() && PositiveBaselines(perf) && CentRounding(round2) ==> NearBudget(perf, s, plan.totalTarget)
  {
    if |perf| == 0 {
      return Plan(map[], [], false, 0.0, 0.0);
    }
    hide Ranks, Damp, Total, GroupOf, Targets, Decides, NamesIn, DistinctNames, NearBudget, PositiveBaselines,
         CentRounding;
    var decisions := DecideAll(perf, entries, s, round2, round6);
    var targets := seq(|perf|, i requires 0 <= i < |perf| => decisions[i].target);
    var allocations := IndexByName(perf, targets);
    plan := Plan(allocations, decisions, s.Braked(), round2(Total(BaselinesOf(perf))), round2(Total(targets)));
    forall i | 0 <= i < |perf| ensures targets[i] == round2(Targets(perf, entries, s)[i]) {
      DecidedTarget(perf, entries, s, round2, round6, decisions[i], i);
    }
    if s.Sane() && PositiveBaselines(perf) && CentRounding(round2) {
      RoundedTargetsNearBudget(perf, entries, s, round2, targets);
    }
  }

  method DecideAll(perf: seq<Perf>, entries: seq<Entry>, s: Settings, round2: real -> real, round6: real -> real)
      returns (decisions: seq<Decision>)
    ensures |decisions| == |perf|
    ensures forall i :: 0 <= i < |perf| ==> Decides(perf, entries, s, round2, round6, decisions[i], i)
  {
    hide Ranks, Damp, GroupOf, Targets, Decides;
    var ranks, damped, groups, exact := ComputeTargets(perf, entries, s);
    decisions := [];
    for i := 0 to |perf|
      invariant |decisions| == i
      invariant forall l :: 0 <= l < i ==> Decides(perf, entries, s, round2, round6, decisions[l], l)
    {
      var group := groups[perf[i].name];
      DampedIffCrowdedWinner(ranks[i], |group|);
      var shrunk := |group| > 1 && ranks[i] > damped[i];
      var d := Decide(perf, entries, s, round2, round6, i, round2(exact[i]), group, shrunk);
      decisions := decisions + [d];
    }
  }

  method IndexByName(perf: seq<Perf>, targets: seq<real>) returns (allocations: map<Name, real>)
    requires DistinctNames(perf) && |targets| == |perf|
    ensures allocations.Keys == NamesIn(NamesOf(perf))
    ensures forall i :: 0 <= i < |perf| ==> perf[i].name in allocations && allocations[perf[i].name] == targets[i]
  {
    var names := NamesOf(perf);
    allocations := map[];
    for i := 0 to |perf|
      invariant allocations.Keys == NamesIn(names[..i])
      invariant forall l :: 0 <= l < i ==> perf[l].name in allocations && allocations[perf[l].name] == targets[l]
    {
      assert names[..i + 1] == names[..i] + [names[i]];
      allocations := allocations[names[i] := targets[i]];
    }
    assert names[..|perf|] == names;
  }

  method Decide(perf: seq<Perf>, entries: seq<Entry>, s: Settings, round2: real -> real, round6: real -> real,
                i: nat, target: real, group: set<Name>, damped: bool) returns (d: Decision)
    requires i < |perf| && target == round2(Targets(perf, entries, s)[i])
    requires group == GroupOf(perf, entries, s, perf[i].name)
    requires damped <==> |group| > 1 && Ranks(s, perf)[i] > 1.0
    ensures Decides(perf, entries, s, round2, round6, d, i) && d.target == target
  {
    hide Targets, GroupOf, Ranks, Settings.Braked;
    var p := perf[i];
    var multiplier := if p.baseline > 0.0 then round6(target / p.baseline) else 0.0;
    d := Decision(p.name, round2(p.baseline), target, multiplier, group, damped, s.Braked());
  }

  /** Ranks, damped ranks, groups and unrounded targets, one of each per bot. */
  method ComputeTargets(perf: seq<Perf>, entries: seq<Entry>, s: Settings)
    returns (ranks: seq<real>, damped: seq<real>, groups: map<Name, set<Name>>, targets: seq<real>)
    ensures ranks == Ranks(s, perf) && |damped| == |perf| && targets == Targets(perf, entries, s)
    ensures forall i :: 0 <= i < |perf| ==>
      && perf[i].name in groups && groups[perf[i].name] == GroupOf(perf, entries, s, perf[i].name)
      && damped[i] == Damp(ranks[i], |groups[perf[i].name]|)
  {
    hide Ranks, Damp, Total, Component, Edges, ActivePair, Together;
    var names := NamesOf(perf);
    ranks := PlaceRanks(s, perf);
    groups := CorrelationGroupByName(names, entries, s.threshold);
    forall i | 0 <= i < |perf|
      ensures names[i] in groups && groups[names[i]] == GroupOf(perf, entries, s, perf[i].name)
    {
      assert names[i] in NamesIn(names);
    }
    hide GroupOf;
    damped := DampenCorrelatedWinners(names, ranks, groups);
    var raw := seq(|perf|, i requires 0 <= i < |perf| => perf[i].baseline * damped[i]);
    forall i | 0 <= i < |perf| ensures raw[i] == RawTargets(perf, entries, s)[i] {
      assert damped[i] == Multiplier(perf, entries, s, i);
    }
    assert raw == RawTargets(perf, entries, s);
    hide RawTargets, Multiplier;
    var budget := Total(BaselinesOf(perf)) * s.Share();
    var normalization := Normalization(budget, Total(raw));
    targets := ScaleAll(raw, normalization);
  }

  lemma {:induction false} DampedIffCrowdedWinner(mult: real, size: nat)
    ensures size > 1 && mult > Damp(mult, size) <==> size > 1 && mult > 1.0
  {
    DampShrinks(mult, mult, size);
  }
}
