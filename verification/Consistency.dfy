/** The consistency rule: no winning day may reach a fixed share of the total profit.  The
    reported headroom is proved exact, with the cases where it is not. */
module Consistency {
  import opened Options
  import opened Reals

  datatype DayPnl = DayPnl(day: string, pnl: real)

  /** Per-day results in the order they were first recorded, one entry a day. */
  type Days = seq<DayPnl>

  datatype Status = InsufficientData | Okay | Warning | Violation

  datatype Verdict = Verdict(status: Status, largestDay: real, largestDate: Option<string>, totalNet: real,
                             totalWinning: real, ratio: real, maxAllowed: real, headroom: real, todayPnl: real,
                             todayDate: Option<string>)

  datatype Thresholds = Thresholds(threshold: real, warning: real) {
    predicate Accepted() { 0.0 < threshold < 1.0 && 0.0 < warning <= threshold }
  }

  // ---------------------------------------------------------------- histories

  ghost predicate OneEntryADay(days: Days) {
    forall i, j :: 0 <= i < j < |days| ==> days[i].day != days[j].day
  }

  /** Overwrite the entry of a day, or append one. */
  function Put(days: Days, day: string, pnl: real): (r: Days) {
    if |days| == 0 then [DayPnl(day, pnl)]
    else if days[0].day == day then [DayPnl(day, pnl)] + days[1..]
    else [days[0]] + Put(days[1..], day, pnl)
  }

  function Without(days: Days, day: string): (r: Days) {
    if |days| == 0 then []
    else if days[0].day == day then Without(days[1..], day)
    else [days[0]] + Without(days[1..], day)
  }

  function Lookup(days: Days, day: string): Option<real> {
    if |days| == 0 then None
    else if days[0].day == day then Some(days[0].pnl)
    else Lookup(days[1..], day)
  }

  function Net(days: Days): real {
    if |days| == 0 then 0.0 else days[0].pnl + Net(days[1..])
  }

  function Winning(days: Days): (r: real)
    ensures r >= 0.0
  {
    if |days| == 0 then 0.0 else Max(days[0].pnl, 0.0) + Winning(days[1..])
  }

  /** The largest winning day, 0 if no day won. */
  function LargestWin(days: Days): (r: real)
    ensures r >= 0.0
  {
    if |days| == 0 then 0.0 else Max(days[0].pnl, LargestWin(days[1..]))
  }

  /** The first day that reaches the largest win, if any day won. */
  function LargestDate(days: Days): Option<string> {
    if LargestWin(days) <= 0.0 then None else FirstWith(days, LargestWin(days))
  }

  function FirstWith(days: Days, pnl: real): Option<string> {
    if |days| == 0 then None else if days[0].pnl == pnl then Some(days[0].day) else FirstWith(days[1..], pnl)
  }

  lemma {:induction false} PutKeepsOneEntry(days: Days, day: string, pnl: real)
    requires OneEntryADay(days)
    ensures OneEntryADay(Put(days, day, pnl))
    ensures forall i :: 0 <= i < |Put(days, day, pnl)| ==>
      Put(days, day, pnl)[i].day == day || exists j :: 0 <= j < |days| && days[j].day == Put(days, day, pnl)[i].day
    ensures Lookup(Put(days, day, pnl), day) == Some(pnl)
  {
    if |days| > 0 && days[0].day != day {
      PutKeepsOneEntry(days[1..], day, pnl);
    }
  }

  lemma {:induction false} AbsentUnchanged(days: Days, day: string)
    requires forall i :: 0 <= i < |days| ==> days[i].day != day
    ensures Without(days, day) == days
  {
    if |days| > 0 {
      AbsentUnchanged(days[1..], day);
    }
  }

  /** Today's entry and the rest of the history make up the whole: in total, in winnings'
      maximum, and for whichever value today takes. */
  lemma {:induction false} SplitToday(days: Days, day: string, pnl: real)
    requires OneEntryADay(days)
    ensures Net(Put(days, day, pnl)) == Net(Without(days, day)) + pnl
    ensures LargestWin(Put(days, day, pnl)) == Max(LargestWin(Without(days, day)), pnl)
    ensures Without(Put(days, day, pnl), day) == Without(days, day)
  {
    if |days| > 0 {
      if days[0].day == day {
        AbsentUnchanged(days[1..], day);
        assert ([DayPnl(day, pnl)] + days[1..])[1..] == days[1..];
      } else {
        SplitToday(days[1..], day, pnl);
        var rest := Put(days[1..], day, pnl);
        assert ([days[0]] + rest)[1..] == rest;
        var others := Without(days[1..], day);
        assert ([days[0]] + others)[1..] == others;
      }
    }
  }

  // ---------------------------------------------------------------- evaluation

  function StatusOf(t: Thresholds, net: real, largest: real): Status {
    if net <= 0.0 || largest <= 0.0 then InsufficientData
    else if largest / net >= t.threshold then Violation
    else if largest / net >= t.warning then Warning
    else Okay
  }

  /** The most today may earn as the largest day, given the rest of the history. */
  function RegimeBCap(threshold: real, priorTotal: real): real
    requires threshold < 1.0
  {
    threshold * priorTotal / (1.0 - threshold)
  }

  /** The program's headroom, branch for branch. */
  function Headroom(days: Days, today: Option<string>, threshold: real): real
    requires 0.0 < threshold < 1.0
  {
    if today.None? then 0.0 else
    var pnl := match Lookup(days, today.value) case Some(p) => p case None => 0.0;
    var prior := Without(days, today.value);
    var cap, best := RegimeBCap(threshold, Net(prior)), LargestWin(prior);
    if best > 0.0 && best > cap then
      var floor := best / threshold - Net(prior);
      if floor <= best then Max(0.0, best - pnl) else 0.0
    else Max(0.0, cap - pnl)
  }

  function Evaluate(t: Thresholds, days: Days, today: Option<string>, todayPnl: Option<real>): Verdict
    requires t.Accepted()
  {
    var marked := match (today, todayPnl)
      case (Some(d), Some(p)) => Put(days, d, p)
      case (Some(d), None) => if Lookup(days, d).None? then Put(days, d, 0.0) else days
      case _ => days;
    var net, largest := Net(marked), LargestWin(marked);
    var pnl := match (today, todayPnl)
      case (_, Some(p)) => p
      case (Some(d), None) => (match Lookup(marked, d) case Some(p) => p case None => 0.0)
      case _ => 0.0;
    Verdict(StatusOf(t, net, largest), largest, LargestDate(marked), net, Winning(marked),
            if net > 0.0 then largest / net else 0.0, if net > 0.0 then t.threshold * net else 0.0,
            Headroom(marked, today, t.threshold), pnl, today)
  }

  // ---------------------------------------------------------------- the arithmetic

  /** Ratio tests without division. */
  lemma {:induction false} RatioAtLeast(x: real, y: real, t: real)
    requires y > 0.0
    ensures x / y >= t <==> x >= t * y
  {
    var r := x / y;
    assert r * y == x;
    if r >= t { ScaleUp(t, r, y); }
    if r < t { ScaleUpStrict(r, t, y); }
  }

  /** Above the cap, and only there, today on top is too large a share. */
  lemma {:induction false} CapIsBreakEven(t: real, prior: real, d: real)
    requires 0.0 < t < 1.0
    ensures d >= RegimeBCap(t, prior) <==> d >= t * (prior + d)
    ensures d > RegimeBCap(t, prior) <==> d > t * (prior + d)
  {
    CapTimes(t, prior);
    hide RegimeBCap;
    BreakEven(t, prior, d, RegimeBCap(t, prior));
  }

  lemma {:induction false} BreakEven(t: real, prior: real, d: real, cap: real)
    requires 0.0 < t < 1.0 && cap * (1.0 - t) == t * prior
    ensures d >= cap <==> d >= t * (prior + d)
    ensures d > cap <==> d > t * (prior + d)
  {
    var over, w := d - cap, 1.0 - t;
    OverTimes(t, prior, d, cap);
    SignOf(over, w);
    SignOf(-over, w);
    NegativeTimes(over, w);
  }

  lemma {:induction false} OverTimes(t: real, prior: real, d: real, cap: real)
    requires cap * (1.0 - t) == t * prior
    ensures d - t * (prior + d) == (d - cap) * (1.0 - t)
  {
  }

  lemma {:induction false} NegativeTimes(x: real, y: real)
    ensures (-x) * y == -(x * y)
  {
  }

  lemma {:induction false} CapTimes(t: real, prior: real)
    requires 0.0 < t < 1.0
    ensures RegimeBCap(t, prior) * (1.0 - t) == t * prior
  {
    var w := 1.0 - t;
    assert t * prior / w * w == t * prior;
  }

  /** The branch that lets today run up to the best prior day can never be taken. */
  lemma {:induction false} PriorMaxBranchIsDead(t: real, prior: real, best: real)
    requires 0.0 < t < 1.0 && best > RegimeBCap(t, prior)
    ensures !(best / t - prior <= best)
  {
    CapIsBreakEven(t, prior, best);
    hide RegimeBCap;
    var q := best / t;
    assert q * t == best;
    if q - prior <= best {
      ScaleUp(q, prior + best, t);
    }
  }

  /** So the headroom is: none if a prior day is over the cap, else the distance to it. */
  function SimpleHeadroom(t: real, prior: real, best: real, d: real): (h: real)
    requires t < 1.0
    ensures h >= 0.0
  {
    if best > 0.0 && best > RegimeBCap(t, prior) then 0.0 else Max(0.0, RegimeBCap(t, prior) - d)
  }

  lemma {:induction false} HeadroomSimplified(days: Days, day: string, pnl: real, t: real)
    requires 0.0 < t < 1.0 && OneEntryADay(days)
    ensures Headroom(Put(days, day, pnl), Some(day), t)
            == SimpleHeadroom(t, Net(Without(days, day)), LargestWin(Without(days, day)), pnl)
  {
    SplitToday(days, day, pnl);
    PutKeepsOneEntry(days, day, pnl);
    var prior := Without(days, day);
    if LargestWin(prior) > RegimeBCap(t, Net(prior)) {
      PriorMaxBranchIsDead(t, Net(prior), LargestWin(prior));
    }
  }

  // ---------------------------------------------------------------- exactness

  /** Today's verdict is a violation, with `prior` and `best` from the other days. */
  ghost predicate Violates(t: Thresholds, prior: real, best: real, d: real) {
    StatusOf(t, prior + d, Max(best, d)) == Violation
  }

  lemma {:induction false} ViolatesIff(t: Thresholds, prior: real, best: real, d: real)
    requires t.Accepted() && best >= 0.0
    ensures Violates(t, prior, best, d)
            <==> prior + d > 0.0 && Max(best, d) > 0.0
                 && (best >= t.threshold * (prior + d) || d >= RegimeBCap(t.threshold, prior))
  {
    if prior + d > 0.0 {
      RatioAtLeast(Max(best, d), prior + d, t.threshold);
      CapIsBreakEven(t.threshold, prior, d);
    }
  }

  ghost predicate ViolatesAfter(t: Thresholds, prior: real, best: real, d: real, x: real) {
    Violates(t, prior, best, d + x)
  }

  /** Raising today's result by x makes a violation exactly when x reaches h. */
  ghost predicate ExactHeadroom(t: Thresholds, prior: real, best: real, d: real, h: real) {
    forall x :: x >= 0.0 ==> (ViolatesAfter(t, prior, best, d, x) <==> x >= h)
  }

  ghost predicate NotViolating(t: Thresholds, prior: real, best: real, d: real) {
    var s := StatusOf(t, prior + d, Max(best, d));
    s == Okay || s == Warning
  }

  lemma {:induction false} NotViolatingMeans(t: Thresholds, prior: real, best: real, d: real)
    requires t.Accepted() && best >= 0.0 && NotViolating(t, prior, best, d)
    ensures prior + d > 0.0 && Max(best, d) > 0.0 && best < t.threshold * (prior + d)
    ensures best <= RegimeBCap(t.threshold, prior) && d < RegimeBCap(t.threshold, prior)
  {
    hide RegimeBCap;
    RatioAtLeast(Max(best, d), prior + d, t.threshold);
    CapIsBreakEven(t.threshold, prior, d);
    CapIsBreakEven(t.threshold, prior, best);
    LargerShare(t.threshold, prior, best, d);
  }

  lemma {:induction false} LargerShare(t: real, prior: real, best: real, d: real)
    requires t > 0.0
    ensures best >= d ==> t * (prior + best) >= t * (prior + d)
    ensures best <= d ==> t * (prior + best) <= t * (prior + d)
  {
    if best >= d { ScaleUp(prior + d, prior + best, t); }
    if best <= d { ScaleUp(prior + best, prior + d, t); }
  }

  /** While the verdict is OK or WARNING the headroom is exact: today can absorb any extra
      profit short of it, and none from it on. */
  lemma {:induction false} HeadroomExactWhenSafe(t: Thresholds, prior: real, best: real, d: real)
    requires t.Accepted() && best >= 0.0 && NotViolating(t, prior, best, d)
    ensures ExactHeadroom(t, prior, best, d, SimpleHeadroom(t.threshold, prior, best, d))
    ensures SimpleHeadroom(t.threshold, prior, best, d) > 0.0
  {
    hide RegimeBCap, Violates, NotViolating;
    NotViolatingMeans(t, prior, best, d);
    var cap := RegimeBCap(t.threshold, prior);
    forall x | x >= 0.0 ensures ViolatesAfter(t, prior, best, d, x) <==> x >= cap - d {
      ViolatesIff(t, prior, best, d + x);
      BestStaysBelow(t.threshold, prior, best, d, x);
    }
  }

  /** More profit today only makes a prior day's share smaller. */
  lemma {:induction false} BestStaysBelow(t: real, prior: real, best: real, d: real, x: real)
    requires t > 0.0 && x >= 0.0 && best < t * (prior + d)
    ensures best < t * (prior + (d + x))
  {
    ScaleUp(prior + d, prior + (d + x), t);
  }

  /** Once a prior day is over the cap, every value of today with a positive total is a
      violation, and the headroom is zero. */
  lemma {:induction false} PriorOverCapAlwaysViolates(t: Thresholds, prior: real, best: real, d: real)
    requires t.Accepted() && best > 0.0 && best > RegimeBCap(t.threshold, prior)
    ensures prior + d > 0.0 ==> Violates(t, prior, best, d)
    ensures SimpleHeadroom(t.threshold, prior, best, d) == 0.0
  {
    ViolatesIff(t, prior, best, d);
    CapIsBreakEven(t.threshold, prior, best);
    if d <= best {
      ScaleUp(prior + d, prior + best, t.threshold);
    }
  }

  /** In a violation the reported headroom is zero exactly when today is itself the largest
      day or a prior day is over the cap.  Otherwise a prior day is too large only because
      today is down, and positive headroom is reported although the rule is broken. */
  lemma {:induction false} ViolationHeadroomZeroIff(t: Thresholds, prior: real, best: real, d: real)
    requires t.Accepted() && best >= 0.0 && Violates(t, prior, best, d)
    ensures SimpleHeadroom(t.threshold, prior, best, d) == 0.0
            <==> d >= best || best > RegimeBCap(t.threshold, prior)
  {
    ViolatesIff(t, prior, best, d);
    CapIsBreakEven(t.threshold, prior, d);
  }

  lemma {:induction false} ViolationOnTotals()
    ensures var t := Thresholds(0.30, 0.25);
            && StatusOf(t, 90.0, 30.0) == Violation && StatusOf(t, 110.0, 30.0) == Warning
            && SimpleHeadroom(0.30, 100.0, 30.0, -10.0) > 0.0
  {
    RatioAtLeast(30.0, 90.0, 0.30);
    RatioAtLeast(30.0, 110.0, 0.30);
    RatioAtLeast(30.0, 110.0, 0.25);
    CapTimes(0.30, 100.0);
  }

  /** Without a positive total the headroom is never exact: profit that lifts the total just
      above zero already breaks the rule, whatever was reported. */
  lemma {:induction false} NeverExactBelowZero(t: Thresholds, prior: real, best: real, d: real, h: real)
    requires t.Accepted() && best >= 0.0 && prior + d <= 0.0 && h >= 0.0
    requires best == 0.0 ==> prior <= 0.0
    ensures !ExactHeadroom(t, prior, best, d, h)
  {
    hide RegimeBCap, Violates;
    var gap := prior + d + h;
    ViolatesIff(t, prior, best, d + h);
    if gap <= 0.0 {
      assert !ViolatesAfter(t, prior, best, d, h);
    } else {
      var eps := if best > 0.0 && best < gap / 2.0 then best else gap / 2.0;
      var x := eps - (prior + d);
      SmallTotalViolates(t, prior, best, d + x, eps);
      assert ViolatesAfter(t, prior, best, d, x) && 0.0 <= x < h;
    }
  }

  lemma {:induction false} SmallTotalViolates(t: Thresholds, prior: real, best: real, d: real, eps: real)
    requires t.Accepted() && best >= 0.0 && (best == 0.0 ==> prior <= 0.0)
    requires prior + d == eps > 0.0 && (best > 0.0 ==> eps <= best)
    ensures Violates(t, prior, best, d)
  {
    hide RegimeBCap, Violates;
    ViolatesIff(t, prior, best, d);
    CapIsBreakEven(t.threshold, prior, d);
    ShareIsLess(t.threshold, prior + d, t.threshold * (prior + d));
  }

  lemma {:induction false} ShareIsLess(t: real, y: real, w: real)
    requires t < 1.0 && y > 0.0 && w == t * y
    ensures w < y
  {
    ScaleUpStrict(t, 1.0, y);
  }

  /** The whole picture: with the reported headroom, raising today's result violates exactly
      from the headroom on if and only if the verdict is OK or WARNING, or is a violation
      with today on top or a prior day over the cap. */
  lemma {:induction false} HeadroomExactIff(t: Thresholds, prior: real, best: real, d: real)
    requires t.Accepted() && best >= 0.0
    requires best == 0.0 ==> prior <= 0.0
    ensures ExactHeadroom(t, prior, best, d, SimpleHeadroom(t.threshold, prior, best, d))
            <==> NotViolating(t, prior, best, d)
                 || (Violates(t, prior, best, d) && (d >= best || best > RegimeBCap(t.threshold, prior)))
  {
    hide RegimeBCap;
    var h := SimpleHeadroom(t.threshold, prior, best, d);
    if NotViolating(t, prior, best, d) {
      HeadroomExactWhenSafe(t, prior, best, d);
    } else if Violates(t, prior, best, d) {
      ViolationHeadroomZeroIff(t, prior, best, d);
      if h == 0.0 {
        StaysViolating(t, prior, best, d);
      } else {
        assert ViolatesAfter(t, prior, best, d, 0.0);
      }
    } else {
      NeverExactBelowZero(t, prior, best, d, h);
    }
  }

  lemma {:induction false} StaysViolating(t: Thresholds, prior: real, best: real, d: real)
    requires t.Accepted() && best >= 0.0 && Violates(t, prior, best, d)
    requires d >= best || best > RegimeBCap(t.threshold, prior)
    ensures ExactHeadroom(t, prior, best, d, 0.0)
  {
    ViolatesIff(t, prior, best, d);
    hide Violates;
    var cap := RegimeBCap(t.threshold, prior);
    TopDayOverCap(t, prior, best, d);
    hide RegimeBCap;
    forall x | x >= 0.0 ensures ViolatesAfter(t, prior, best, d, x) {
      ViolatesIff(t, prior, best, d + x);
      if d < cap {
        PriorOverCapAlwaysViolates(t, prior, best, d + x);
      }
    }
  }

  lemma {:induction false} TopDayOverCap(t: Thresholds, prior: real, best: real, d: real)
    requires t.Accepted() && best >= 0.0 && prior + d > 0.0 && Max(best, d) > 0.0
    requires best >= t.threshold * (prior + d) || d >= RegimeBCap(t.threshold, prior)
    requires d >= best || best > RegimeBCap(t.threshold, prior)
    ensures d >= RegimeBCap(t.threshold, prior) || (best > 0.0 && best > RegimeBCap(t.threshold, prior))
  {
    CapIsBreakEven(t.threshold, prior, d);
    hide RegimeBCap;
    if best == 0.0 && d < 0.0 {
      assert Max(best, d) == 0.0;
    }
  }

  // ---------------------------------------------------------------- of the program

  /** Without a winning day the history cannot have a positive total. */
  lemma {:induction false} NoWinnerNoProfit(days: Days)
    ensures LargestWin(days) == 0.0 ==> Net(days) <= 0.0
  {
    if |days| > 0 {
      NoWinnerNoProfit(days[1..]);
    }
  }

  ghost function StatusAfter(t: Thresholds, days: Days, day: string, pnl: real, x: real): Status
    requires t.Accepted()
  {
    Evaluate(t, days, Some(day), Some(pnl + x)).status
  }

  lemma {:induction false} EvaluateToday(t: Thresholds, days: Days, day: string, pnl: real)
    requires t.Accepted() && OneEntryADay(days)
    ensures var v, prior, best := Evaluate(t, days, Some(day), Some(pnl)), Net(Without(days, day)),
            LargestWin(Without(days, day));
            && v.status == StatusOf(t, prior + pnl, Max(best, pnl))
            && v.headroom == SimpleHeadroom(t.threshold, prior, best, pnl)
            && v.todayPnl == pnl
  {
    SplitToday(days, day, pnl);
    HeadroomSimplified(days, day, pnl, t.threshold);
    hide Headroom, SimpleHeadroom, StatusOf;
  }

  /** Of the program itself, for every history and every mark of today: adding x >= 0 to
      today's mark turns the verdict into VIOLATION exactly from the reported headroom on,
      if and only if the verdict now is OK or WARNING, or is VIOLATION with today the
      largest day or a prior day over the cap. */
  lemma {:induction false} EvaluateHeadroomExactIff(t: Thresholds, days: Days, day: string, pnl: real)
    requires t.Accepted() && OneEntryADay(days)
    ensures var v, prior, best := Evaluate(t, days, Some(day), Some(pnl)), Net(Without(days, day)),
            LargestWin(Without(days, day));
            (forall x :: x >= 0.0 ==> (StatusAfter(t, days, day, pnl, x) == Violation <==> x >= v.headroom))
            <==> v.status == Okay || v.status == Warning
                 || (v.status == Violation && (pnl >= best || best > RegimeBCap(t.threshold, prior)))
  {
    var prior, best := Net(Without(days, day)), LargestWin(Without(days, day));
    hide Evaluate, RegimeBCap, SimpleHeadroom, Net, LargestWin, Without;
    EvaluateToday(t, days, day, pnl);
    NoWinnerNoProfit(Without(days, day));
    HeadroomExactIff(t, prior, best, pnl);
    forall x ensures StatusAfter(t, days, day, pnl, x) == Violation <==> ViolatesAfter(t, prior, best, pnl, x) {
      EvaluateToday(t, days, day, pnl + x);
    }
  }

  /** Of the program itself: a violation reports no headroom exactly when today is the
      largest day or a prior day is over the cap. */
  lemma {:induction false} EvaluateViolationHeadroomZeroIff(t: Thresholds, days: Days, day: string, pnl: real)
    requires t.Accepted() && OneEntryADay(days)
    requires Evaluate(t, days, Some(day), Some(pnl)).status == Violation
    ensures var prior, best := Net(Without(days, day)), LargestWin(Without(days, day));
            Evaluate(t, days, Some(day), Some(pnl)).headroom == 0.0
            <==> pnl >= best || best > RegimeBCap(t.threshold, prior)
  {
    hide Evaluate, RegimeBCap, SimpleHeadroom, Net, LargestWin, Without;
    EvaluateToday(t, days, day, pnl);
    ViolationHeadroomZeroIff(t, Net(Without(days, day)), LargestWin(Without(days, day)), pnl);
  }

  /** A history on which the rule is broken yet the program reports a positive headroom: days
      of 30, 25, 25 and 20 and today at -10.  The 30 is a third of the 90 in total, and 20
      more profit today would cure it. */
  lemma {:induction false} ViolationWithHeadroom()
    ensures var t := Thresholds(0.30, 0.25);
            var days := [DayPnl("a", 30.0), DayPnl("b", 25.0), DayPnl("c", 25.0), DayPnl("d", 20.0)];
            var v := Evaluate(t, days, Some("e"), Some(-10.0));
            t.Accepted() && OneEntryADay(days) && v.status == Violation && v.headroom > 0.0
            && Evaluate(t, days, Some("e"), Some(10.0)).status == Warning
  {
    var t := Thresholds(0.30, 0.25);
    var days := [DayPnl("a", 30.0), DayPnl("b", 25.0), DayPnl("c", 25.0), DayPnl("d", 20.0)];
    assert "a" != "b" && "a" != "c" && "a" != "d" && "b" != "c" && "b" != "d" && "c" != "d";
    assert "a" != "e" && "b" != "e" && "c" != "e" && "d" != "e";
    hide Evaluate, Net, LargestWin, Without, SimpleHeadroom, StatusOf, OneEntryADay;
    FourNames(days, "e");
    FourDays(days);
    ViolationOnTotals();
    EvaluateToday(t, days, "e", -10.0);
    EvaluateToday(t, days, "e", 10.0);
  }

  lemma {:induction false} FourNames(days: Days, today: string)
    requires |days| == 4 && forall i :: 0 <= i < 4 ==> days[i].day != today
    requires days[0].day != days[1].day && days[0].day != days[2].day && days[0].day != days[3].day
    requires days[1].day != days[2].day && days[1].day != days[3].day && days[2].day != days[3].day
    ensures OneEntryADay(days) && Without(days, today) == days
  {
    hide Without;
    AbsentUnchanged(days, today);
    forall i, j | 0 <= i < j < 4 ensures days[i].day != days[j].day {
      assert i == 0 || i == 1 || i == 2;
    }
  }

  lemma {:induction false} FourDays(days: Days)
    requires |days| == 4 && days[0].pnl == 30.0 && days[1].pnl == 25.0 && days[2].pnl == 25.0 && days[3].pnl == 20.0
    ensures Net(days) == 100.0 && LargestWin(days) == 30.0
  {
    assert days[1..][1..] == days[2..] && days[2..][1..] == days[3..] && days[3..][1..] == [];
    assert Net(days[3..]) == 20.0 && LargestWin(days[3..]) == 20.0;
    assert Net(days[2..]) == 45.0 && LargestWin(days[2..]) == 25.0;
    assert Net(days[1..]) == 70.0 && LargestWin(days[1..]) == 25.0;
  }

  // ---------------------------------------------------------------- the class

  class ConsistencyGuard {
    const thresholds: Thresholds
    const isIsoDate: string -> bool
    var days: Days

    ghost predicate Valid()
      reads this
    {
      thresholds.Accepted() && OneEntryADay(days)
    }

    constructor (t: Thresholds, isIsoDate: string -> bool)
      requires t.Accepted()
      ensures Valid() && thresholds == t && this.isIsoDate == isIsoDate && days == []
    {
      thresholds, this.isIsoDate, days := t, isIsoDate, [];
    }

    /** Record a day's result, overwriting any earlier one for that day, and judge it; a
        malformed date is refused and changes nothing. */
    method RecordEod(day: string, pnl: real) returns (v: Option<Verdict>)
      requires Valid()
      modifies this
      ensures Valid()
      ensures !isIsoDate(day) ==> v == None && days == old(days)
      ensures isIsoDate(day) ==> days == Put(old(days), day, pnl) && Lookup(days, day) == Some(pnl)
      ensures isIsoDate(day) ==> v == Some(Evaluate(thresholds, old(days), Some(day), Some(pnl)))
    {
      if !isIsoDate(day) {
        return None;
      }
      PutKeepsOneEntry(days, day, pnl);
      EvaluateAfterPut(thresholds, days, day, pnl);
      hide Evaluate, Put;
      days := Put(days, day, pnl);
      v := Some(Evaluate(thresholds, days, Some(day), Some(pnl)));
    }

    /** Forget every day; the thresholds stay. */
    method Reset()
      requires Valid()
      modifies this
      ensures Valid() && days == []
    {
      days := [];
    }
  }

  lemma {:induction false} EvaluateAfterPut(t: Thresholds, days: Days, day: string, pnl: real)
    requires t.Accepted()
    ensures Evaluate(t, Put(days, day, pnl), Some(day), Some(pnl)) == Evaluate(t, days, Some(day), Some(pnl))
  {
    PutTwice(days, day, pnl, pnl);
    hide Headroom, StatusOf, Net, LargestWin, LargestDate, Winning, Put;
  }

  /** Recording a day again replaces it: the first mark leaves no trace. */
  lemma {:induction false} PutTwice(days: Days, day: string, first: real, second: real)
    ensures Put(Put(days, day, first), day, second) == Put(days, day, second)
  {
    if |days| > 0 {
      if days[0].day == day {
        assert Put(days, day, first)[1..] == days[1..];
      } else {
        PutTwice(days[1..], day, first, second);
        assert Put(days, day, first)[1..] == Put(days[1..], day, first);
      }
    }
  }

  // ---------------------------------------------------------------- what a verdict tells

  /** The status, the ratio and the limit in terms of the total and the largest day. */
  lemma {:induction false} VerdictTells(t: Thresholds, days: Days, today: Option<string>, todayPnl: Option<real>)
    requires t.Accepted()
    ensures var v := Evaluate(t, days, today, todayPnl);
            var net, best := v.totalNet, v.largestDay;
            && (v.status == InsufficientData <==> net <= 0.0 || best <= 0.0)
            && (v.status == Violation <==> net > 0.0 && best > 0.0 && best >= t.threshold * net)
            && (v.status == Warning <==> net > 0.0 && best > 0.0 && t.warning * net <= best < t.threshold * net)
            && (net > 0.0 ==> v.ratio * net == best && v.maxAllowed == t.threshold * net)
            && (net <= 0.0 ==> v.ratio == 0.0 && v.maxAllowed == 0.0)
  {
    hide Net, LargestWin, Winning, LargestDate, Headroom, Put, Lookup;
    var v := Evaluate(t, days, today, todayPnl);
    var net, best := v.totalNet, v.largestDay;
    if net > 0.0 {
      RatioAtLeast(best, net, t.threshold);
      RatioAtLeast(best, net, t.warning);
      assert best / net * net == best;
      ScaleUp(t.warning, t.threshold, net);
    }
  }

  /** The total is the sum of the days, and the largest day the largest winning one, reported
      with the first date that reached it. */
  lemma {:induction false} HistoryTells(days: Days)
    ensures LargestWin(days) >= 0.0 && forall i :: 0 <= i < |days| ==> days[i].pnl <= LargestWin(days)
    ensures LargestWin(days) > 0.0 ==>
              exists i :: 0 <= i < |days| && days[i].pnl == LargestWin(days) && LargestDate(days) == Some(days[i].day)
                          && forall j :: 0 <= j < i ==> days[j].pnl < LargestWin(days)
    ensures LargestWin(days) == 0.0 ==> LargestDate(days) == None
  {
    LargestIsMax(days);
    if LargestWin(days) > 0.0 {
      var i := FirstReaches(days, LargestWin(days));
    }
  }

  lemma {:induction false} LargestIsMax(days: Days)
    ensures forall i :: 0 <= i < |days| ==> days[i].pnl <= LargestWin(days)
    ensures LargestWin(days) > 0.0 ==> exists i :: 0 <= i < |days| && days[i].pnl == LargestWin(days)
  {
    if |days| > 0 {
      LargestIsMax(days[1..]);
      if LargestWin(days[1..]) > 0.0 {
        var i :| 0 <= i < |days[1..]| && days[1..][i].pnl == LargestWin(days[1..]);
        assert days[i + 1].pnl == LargestWin(days[1..]);
      }
    }
  }

  lemma {:induction false} FirstReaches(days: Days, pnl: real) returns (i: nat)
    requires exists k :: 0 <= k < |days| && days[k].pnl == pnl
    ensures i < |days| && days[i].pnl == pnl && FirstWith(days, pnl) == Some(days[i].day)
    ensures forall j :: 0 <= j < i ==> days[j].pnl != pnl
  {
    if days[0].pnl == pnl {
      i := 0;
    } else {
      var k :| 0 <= k < |days| && days[k].pnl == pnl;
      assert days[1..][k - 1].pnl == pnl;
      i := FirstReaches(days[1..], pnl);
      i := i + 1;
    }
  }
}
