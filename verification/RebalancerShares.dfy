/** What the rebalance hands each bot, without naming how it is computed. */
module RebalancerShares {
  import opened Reals
  import opened Sums
  import opened Sorting
  import opened CorrelationGroups
  import opened Rebalancer

  // ---------------------------------------------------------------- standing

  /** Bot j stands below bot i: a smaller Sharpe ratio, or the same and an earlier place. */
  predicate StandsBelow(perf: seq<Perf>, j: int, i: int)
    requires 0 <= i < |perf| && 0 <= j < |perf|
  {
    perf[j].sharpe < perf[i].sharpe || (perf[j].sharpe == perf[i].sharpe && j < i)
  }

  /** How many bots stand below bot i. */
  ghost function Below(perf: seq<Perf>, i: int): set<int>
    requires 0 <= i < |perf|
  {
    set j | 0 <= j < |perf| && StandsBelow(perf, j, i)
  }

  ghost function Front(order: seq<int>, a: nat): set<int>
    requires a <= |order|
  {
    set x | 0 <= x < a :: order[x]
  }

  lemma {:induction false} FrontSize(order: seq<int>, a: nat)
    requires a <= |order| && forall x, y :: 0 <= x < y < |order| ==> order[x] != order[y]
    ensures |Front(order, a)| == a
  {
    if a > 0 {
      FrontSize(order, a - 1);
      assert Front(order, a) == Front(order, a - 1) + {order[a - 1]};
    } else {
      assert Front(order, a) == {};
    }
  }

  /** The bots placed before bot i are those that stand below it. */
  lemma {:induction false} FrontIsBelow(perf: seq<Perf>, order: seq<int>, a: nat)
    requires Permutation(order, |perf|) && |order| == |perf| && a < |order| && Ascending(SharpesOf(perf), order)
    ensures Front(order, a) == Below(perf, order[a])
  {
    var i := order[a];
    forall j ensures j in Front(order, a) <==> j in Below(perf, i) {
      if 0 <= j < |perf| {
        var x := PositionOf(order, j);
      }
    }
  }

  /** A bot's rank multiplier lies as far between the caps as it has others below it: with two
      bots or more the worst gets the lower cap, the best the upper one, and each step up adds
      the same. */
  lemma {:induction false} RankIsStanding(s: Settings, perf: seq<Perf>, i: int)
    requires 0 <= i < |perf|
    ensures var n, below := |perf|, |Below(perf, i)|;
            && 0 <= below < n
            && (n == 1 ==> Ranks(s, perf)[i] == 1.0)
            && (n > 1 ==> (Ranks(s, perf)[i] - s.capLow) * (n - 1) as real == (s.capHigh - s.capLow) * below as real)
            && (n > 1 && below == 0 ==> Ranks(s, perf)[i] == s.capLow)
            && (n > 1 && below == n - 1 ==> Ranks(s, perf)[i] == s.capHigh)
  {
    hide Ranks, Below, RankMultiplier;
    var a := StandingOf(s, perf, i);
    RankMultiplierIs(s, a, |perf|);
  }

  lemma {:induction false} StandingOf(s: Settings, perf: seq<Perf>, i: int) returns (a: nat)
    requires 0 <= i < |perf|
    ensures a < |perf| && |Below(perf, i)| == a && Ranks(s, perf)[i] == RankMultiplier(s, a, |perf|)
  {
    hide Placed, Below, Front, RankMultiplier;
    var order := Order(SharpesOf(perf));
    a := PositionOf(order, i);
    FrontIsBelow(perf, order, a);
    OrderIsDistinct(SharpesOf(perf), order);
    FrontSize(order, a);
    PlacedAt(s, order, |perf|, a);
  }

  lemma {:induction false} OrderIsDistinct(keys: seq<real>, order: seq<int>)
    requires Ascending(keys, order)
    ensures forall x, y :: 0 <= x < y < |order| ==> order[x] != order[y]
  {
  }

  lemma {:induction false} RankMultiplierIs(s: Settings, a: int, n: int)
    requires 0 <= a < n
    ensures n == 1 ==> RankMultiplier(s, a, n) == 1.0
    ensures n > 1 ==> (RankMultiplier(s, a, n) - s.capLow) * (n - 1) as real == (s.capHigh - s.capLow) * a as real
    ensures n > 1 && a == 0 ==> RankMultiplier(s, a, n) == s.capLow
    ensures n > 1 && a == n - 1 ==> RankMultiplier(s, a, n) == s.capHigh
  {
    if n == 1 {
      return;
    }
    var d, w := (n - 1) as real, s.capHigh - s.capLow;
    var x := a as real / d;
    assert x * d == a as real;
    var r := RankMultiplier(s, a, n);
    assert r == s.capLow + w * x;
    assert (w * x) * d == w * (x * d);
    if a == 0 {
      Quotient(0.0, d, 0.0);
      assert w * 0.0 == 0.0;
    }
    if a == n - 1 {
      Quotient(1.0, d, d);
    }
  }

  // ---------------------------------------------------------------- damping

  /** In a group of two or more a winner keeps of its excess over 1 one share a member. */
  lemma {:induction false} DampIsShare(mult: real, size: nat)
    ensures size > 1 && mult > 1.0 ==> (Damp(mult, size) - 1.0) * size as real == mult - 1.0
    ensures size <= 1 || mult <= 1.0 ==> Damp(mult, size) == mult
  {
    if size > 1 {
      var d := size as real;
      var q := (mult - 1.0) / d;
      assert q * d == mult - 1.0;
    }
  }

  // ---------------------------------------------------------------- targets

  /** The multiplier left to a bot once the winners of its group have been damped. */
  ghost predicate Keeps(s: Settings, perf: seq<Perf>, entries: seq<Entry>, i: int, mult: real)
    requires 0 <= i < |perf|
  {
    var known := NamesIn(NamesOf(perf));
    var group := set b | b in known && Together(known, entries, s.threshold, perf[i].name, b);
    if |group| > 1 && Ranks(s, perf)[i] > 1.0 then (mult - 1.0) * |group| as real == Ranks(s, perf)[i] - 1.0
    else mult == Ranks(s, perf)[i]
  }

  /** The weight of a bot: its baseline times that multiplier. */
  ghost predicate Weighs(s: Settings, perf: seq<Perf>, entries: seq<Entry>, i: int, w: real)
    requires 0 <= i < |perf|
  {
    exists mult :: Keeps(s, perf, entries, i, mult) && w == perf[i].baseline * mult
  }

  /** The unrounded targets are in proportion to the weights, and add up to the baselines, or
      half of them while the fleet's drawdown is beyond the brake's threshold. */
  lemma {:induction false} TargetsAreShares(s: Settings, perf: seq<Perf>, entries: seq<Entry>)
    returns (weights: seq<real>)
    requires s.Sane() && PositiveBaselines(perf)
    ensures |weights| == |perf| && forall i :: 0 <= i < |perf| ==> Weighs(s, perf, entries, i, weights[i])
    ensures forall i :: 0 <= i < |perf| ==>
              Targets(perf, entries, s)[i] * Total(weights) == weights[i] * Total(Targets(perf, entries, s))
    ensures Total(weights) > 0.0
    ensures s.drawdown > s.brakeAt ==> 2.0 * Total(Targets(perf, entries, s)) == Total(BaselinesOf(perf))
    ensures s.drawdown <= s.brakeAt ==> Total(Targets(perf, entries, s)) == Total(BaselinesOf(perf))
  {
    hide Total, BaselinesOf, Ranks, Damp, Weighs, GroupOf, Targets, RawTargets;
    weights := RawTargets(perf, entries, s);
    TargetsSpendTheBudget(perf, entries, s);
    RawTotalBounds(perf, entries, s);
    Product(s.capLow, Total(BaselinesOf(perf)));
    forall i | 0 <= i < |perf|
      ensures Weighs(s, perf, entries, i, weights[i])
      ensures Targets(perf, entries, s)[i] * Total(weights) == weights[i] * Total(Targets(perf, entries, s))
    {
      RawTargetWeighs(s, perf, entries, i);
      TargetAsShare(s, perf, entries, i);
    }
  }

  lemma {:induction false} TargetAsShare(s: Settings, perf: seq<Perf>, entries: seq<Entry>, i: int)
    requires 0 <= i < |perf| && Total(RawTargets(perf, entries, s)) > 0.0
    ensures var raw := RawTargets(perf, entries, s);
            Targets(perf, entries, s)[i] * Total(raw) == raw[i] * Budget(perf, s)
  {
    hide Total, RawTargets, Budget, Normalization;
    var raw := RawTargets(perf, entries, s);
    Proportion(raw[i], Budget(perf, s), Total(raw));
  }

  lemma {:induction false} Proportion(w: real, budget: real, total: real)
    requires total > 0.0
    ensures w * Normalization(budget, total) * total == w * budget
  {
    var q := budget / total;
    assert q * total == budget;
    assert w * q * total == w * (q * total);
  }

  lemma {:induction false} RawTargetWeighs(s: Settings, perf: seq<Perf>, entries: seq<Entry>, i: int)
    requires 0 <= i < |perf|
    ensures Weighs(s, perf, entries, i, RawTargets(perf, entries, s)[i])
  {
    hide Ranks, Damp, Together, Edges;
    var known, name := NamesIn(NamesOf(perf)), perf[i].name;
    assert NamesOf(perf)[i] in known;
    var group := set b | b in known && Together(known, entries, s.threshold, name, b);
    forall b ensures b in group <==> b in GroupOf(perf, entries, s, name) {
      GroupedIff(known, entries, s.threshold, name, b);
    }
    hide GroupOf;
    assert group == GroupOf(perf, entries, s, name);
    DampIsShare(Ranks(s, perf)[i], |group|);
    var mult := Damp(Ranks(s, perf)[i], |group|);
    assert Keeps(s, perf, entries, i, mult);
    assert RawTargets(perf, entries, s)[i] == perf[i].baseline * mult;
  }
}
