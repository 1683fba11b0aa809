/** The daily-spend breaker.  A call first checks the breaker and, when the provider has
    answered, records its cost; several calls may be between the two at once. */
module FmBreaker {
  import opened Options
  import opened Reals

  /** The day of the last record, what was recorded on it, and whether that reached the cap. */
  datatype State = State(date: Option<int>, spent: real, tripped: bool)

  const FRESH := State(None, 0.0, false)

  predicate Open(st: State, today: int) {
    st.date == Some(today) && st.tripped
  }

  /** The state a record starts from: a new day clears the counters. */
  function Rolled(st: State, today: int): State {
    if st.date == Some(today) then st else State(Some(today), 0.0, false)
  }

  function Recorded(cap: real, st: State, today: int, cost: real): State {
    var was := Rolled(st, today);
    State(was.date, was.spent + cost, was.tripped || (cap > 0.0 && cap <= was.spent + cost))
  }

  // ---------------------------------------------------------------- interleaved calls

  /** One atomic step of some call: its check, its record, or its end by an exception. */
  datatype Step = Check(day: int) | Record(day: int, cost: real) | Abandon(day: int)

  function Run(cap: real, steps: seq<Step>): State {
    if |steps| == 0 then FRESH
    else
      var st, last := Run(cap, steps[..|steps| - 1]), steps[|steps| - 1];
      if last.Record? then Recorded(cap, st, last.day, last.cost) else st
  }

  /** The calls that passed their check and have neither recorded nor been abandoned. */
  function InFlight(cap: real, steps: seq<Step>): int {
    if |steps| == 0 then 0
    else
      var before, last := steps[..|steps| - 1], steps[|steps| - 1];
      InFlight(cap, before)
      + match last
        case Check(day) => if Open(Run(cap, before), day) then 0 else 1
        case Record(_, _) => -1
        case Abandon(_) => -1
  }

  /** What the steps recorded on a day: the ledger, kept without any breaker. */
  function SpentOn(steps: seq<Step>, day: int): real {
    if |steps| == 0 then 0.0
    else
      var last := steps[|steps| - 1];
      SpentOn(steps[..|steps| - 1], day) + if last.Record? && last.day == day then last.cost else 0.0
  }

  /** Days never go back, costs lie in [0, most], only a call in flight records or is
      abandoned, and at most n calls are in flight. */
  ghost predicate Legal(cap: real, n: nat, most: real, steps: seq<Step>) {
    |steps| == 0
    || (var before, last := steps[..|steps| - 1], steps[|steps| - 1];
        && Legal(cap, n, most, before)
        && (|before| > 0 ==> before[|before| - 1].day <= last.day)
        && (last.Record? ==> 0.0 <= last.cost <= most)
        && (!last.Check? ==> InFlight(cap, before) > 0)
        && InFlight(cap, steps) <= n)
  }

  // ---------------------------------------------------------------- the breaker keeps the ledger

  ghost predicate NoRefunds(steps: seq<Step>) {
    forall i :: 0 <= i < |steps| && steps[i].Record? ==> steps[i].cost >= 0.0
  }

  /** Every record from step i on carries `day`. */
  ghost predicate OnlyOf(steps: seq<Step>, i: int, day: int) {
    forall j :: i <= j < |steps| && 0 <= j && steps[j].Record? ==> steps[j].day == day
  }

  /** Step j is the last record of another day. */
  ghost predicate LastOther(steps: seq<Step>, j: int, day: int) {
    0 <= j < |steps| && steps[j].Record? && steps[j].day != day && OnlyOf(steps, j + 1, day)
  }

  /** What was recorded on `day` since the last record of another day. */
  function Since(steps: seq<Step>, day: int): real {
    if |steps| == 0 then 0.0
    else
      var before, last := Since(steps[..|steps| - 1], day), steps[|steps| - 1];
      if !last.Record? then before else if last.day == day then before + last.cost else 0.0
  }

  /** In whatever order the days come, the state holds the spend since the day last changed. */
  lemma {:induction false} RunKeepsSince(cap: real, steps: seq<Step>, day: int)
    requires cap > 0.0 && NoRefunds(steps)
    ensures Since(steps, day) >= 0.0
    ensures var st := Run(cap, steps);
            if st.date == Some(day) then st.spent == Since(steps, day) && (st.tripped <==> st.spent >= cap)
            else Since(steps, day) == 0.0
  {
    if |steps| > 0 {
      RunKeepsSince(cap, steps[..|steps| - 1], day);
    }
  }

  lemma {:induction false} SpentStep(steps: seq<Step>, day: int)
    requires |steps| > 0
    ensures var last := steps[|steps| - 1];
            SpentOn(steps, day) == SpentOn(steps[..|steps| - 1], day)
                                   + if last.Record? && last.day == day then last.cost else 0.0
  {
  }

  lemma {:induction false} TailSpend(steps: seq<Step>, i: nat, day: int)
    requires i < |steps|
    ensures var last := steps[|steps| - 1];
            SpentOn(steps[i..], day) == SpentOn(steps[..|steps| - 1][i..], day)
                                        + if last.Record? && last.day == day then last.cost else 0.0
  {
    SpentStep(steps[i..], day);
    assert steps[i..][..|steps| - i - 1] == steps[..|steps| - 1][i..];
  }

  /** No stretch without a record of another day spends more than what the state holds. */
  lemma {:induction false} StretchWithinSince(steps: seq<Step>, i: nat, day: int)
    requires NoRefunds(steps) && i <= |steps| && OnlyOf(steps, i, day)
    ensures SpentOn(steps[i..], day) <= Since(steps, day)
  {
    if i == |steps| {
      assert steps[i..] == [];
      RunKeepsSince(1.0, steps, day);
    } else {
      TailSpend(steps, i, day);
      StretchWithinSince(steps[..|steps| - 1], i, day);
    }
  }

  /** After the last record of another day, or from the start if there is none, exactly what
      the state holds was spent. */
  lemma {:induction false} SinceIsStretch(steps: seq<Step>, i: nat, day: int)
    requires i <= |steps| && OnlyOf(steps, i, day) && (i > 0 ==> LastOther(steps, i - 1, day))
    ensures SpentOn(steps[i..], day) == Since(steps, day)
  {
    if i < |steps| {
      TailSpend(steps, i, day);
      SinceIsStretch(steps[..|steps| - 1], i, day);
    } else {
      assert steps[i..] == [];
    }
  }

  /** Where the present stretch of records of one day begins. */
  lemma {:induction false} StretchStart(steps: seq<Step>, day: int) returns (i: nat)
    ensures i <= |steps| && OnlyOf(steps, i, day) && (i > 0 ==> LastOther(steps, i - 1, day))
  {
    if |steps| == 0 {
      i := 0;
    } else {
      var last := steps[|steps| - 1];
      if last.Record? && last.day != day {
        i := |steps|;
      } else {
        i := StretchStart(steps[..|steps| - 1], day);
      }
    }
  }

  ghost predicate StretchReaches(cap: real, steps: seq<Step>, i: int, day: int) {
    0 <= i <= |steps| && OnlyOf(steps, i, day) && SpentOn(steps[i..], day) >= cap
  }

  /** Under any interleaving and any order of days, the breaker is open on a day exactly when
      some stretch up to now holds records of that day alone and spends the cap on it. */
  lemma {:induction false} OpenIffStretchReachesCap(cap: real, steps: seq<Step>, day: int)
    requires cap > 0.0 && NoRefunds(steps)
    ensures Open(Run(cap, steps), day) <==> exists i :: StretchReaches(cap, steps, i, day)
    ensures Open(Run(cap, steps), day) <==> Since(steps, day) >= cap
  {
    RunKeepsSince(cap, steps, day);
    hide Since, SpentOn, OnlyOf, Run;
    var i := StretchStart(steps, day);
    SinceIsStretch(steps, i, day);
    assert Since(steps, day) >= cap ==> StretchReaches(cap, steps, i, day);
    forall k | StretchReaches(cap, steps, k, day) ensures Since(steps, day) >= cap {
      StretchWithinSince(steps, k, day);
    }
  }

  /** Without a record of another day the spend since the day last changed only grows. */
  lemma {:induction false} SinceGrows(steps: seq<Step>, k: nat, day: int)
    requires NoRefunds(steps) && k <= |steps| && OnlyOf(steps, k, day)
    ensures Since(steps, day) >= Since(steps[..k], day)
  {
    if k < |steps| {
      SinceGrows(steps[..|steps| - 1], k, day);
      assert steps[..|steps| - 1][..k] == steps[..k];
    } else {
      assert steps[..k] == steps;
    }
  }

  /** The trip at step k was forgotten: a record of another day came since, and the records
      after the last such one do not reach the cap. */
  ghost predicate Forgotten(cap: real, steps: seq<Step>, k: nat, day: int) {
    exists j :: k <= j && LastOther(steps, j, day) && SpentOn(steps[j + 1..], day) < cap
  }

  /** After a trip the breaker is closed on that day exactly when the trip was forgotten. */
  lemma {:induction false} ClosedIffForgotten(cap: real, steps: seq<Step>, k: nat, day: int)
    requires cap > 0.0 && NoRefunds(steps) && k <= |steps| && Open(Run(cap, steps[..k]), day)
    ensures !Open(Run(cap, steps), day) <==> Forgotten(cap, steps, k, day)
  {
    OpenIffStretchReachesCap(cap, steps, day);
    OpenIffStretchReachesCap(cap, steps[..k], day);
    var i := StretchStart(steps, day);
    SinceIsStretch(steps, i, day);
    hide Since, SpentOn, Run, StretchReaches;
    if i <= k {
      SinceGrows(steps, k, day);
    } else {
      assert LastOther(steps, i - 1, day) && steps[i - 1 + 1..] == steps[i..];
    }
    forall j | LastOther(steps, j, day) ensures i == j + 1 {
    }
  }

  /** The state is the ledger of its own day; later days have no spend. */
  ghost predicate Keeps(cap: real, steps: seq<Step>, st: State) {
    && (st.date.Some? ==> |steps| > 0 && st.date.value <= steps[|steps| - 1].day
                          && st.spent == SpentOn(steps, st.date.value) && (st.tripped <==> st.spent >= cap))
    && (forall day :: SpentOn(steps, day) >= 0.0)
    && (forall day :: (st.date.None? || st.date.value < day) ==> SpentOn(steps, day) == 0.0)
  }

  lemma {:induction false} RunKeeps(cap: real, n: nat, most: real, steps: seq<Step>)
    requires cap > 0.0 && Legal(cap, n, most, steps)
    ensures Keeps(cap, steps, Run(cap, steps))
  {
    if |steps| > 0 {
      var before, last := steps[..|steps| - 1], steps[|steps| - 1];
      RunKeeps(cap, n, most, before);
      forall day
        ensures SpentOn(steps, day) == SpentOn(before, day) + if last.Record? && last.day == day then last.cost else 0.0
      {
        SpentStep(steps, day);
      }
      hide SpentOn;
    }
  }

  /** When days do not go back, the breaker is open on a day exactly when what was recorded
      on that day has reached the cap. */
  lemma {:induction false} OpenIffCapReached(cap: real, n: nat, most: real, steps: seq<Step>, day: int)
    requires cap > 0.0 && Legal(cap, n, most, steps)
    requires |steps| > 0 ==> steps[|steps| - 1].day <= day
    ensures Open(Run(cap, steps), day) <==> SpentOn(steps, day) >= cap
  {
    RunKeeps(cap, n, most, steps);
  }

  /** Once it is open on a day, a later check of that day passes exactly when the trip was
      forgotten in between. */
  lemma {:induction false} PassAfterTripIff(cap: real, steps: seq<Step>, k: nat, day: int)
    requires cap > 0.0 && NoRefunds(steps) && k < |steps| && steps[|steps| - 1] == Check(day)
    requires Open(Run(cap, steps[..k]), day)
    ensures InFlight(cap, steps) == InFlight(cap, steps[..|steps| - 1])
                                    + if Forgotten(cap, steps[..|steps| - 1], k, day) then 1 else 0
  {
    var before := steps[..|steps| - 1];
    assert before[..k] == steps[..k];
    hide Run, Forgotten;
    ClosedIffForgotten(cap, before, k, day);
  }

  lemma {:induction false} LegalOrder(cap: real, n: nat, most: real, steps: seq<Step>, i: nat, j: nat)
    requires Legal(cap, n, most, steps) && i <= j < |steps|
    ensures steps[i].day <= steps[j].day
    ensures NoRefunds(steps)
  {
    if j < |steps| - 1 {
      LegalOrder(cap, n, most, steps[..|steps| - 1], i, j);
    } else if i < j {
      LegalOrder(cap, n, most, steps[..|steps| - 1], i, j - 1);
    } else if 0 < j {
      LegalOrder(cap, n, most, steps[..|steps| - 1], 0, j - 1);
    }
  }

  /** So when days do not go back, no check of the day of a trip passes after it. */
  lemma {:induction false} NoPassAfterTrip(cap: real, n: nat, most: real, steps: seq<Step>, k: nat, day: int)
    requires cap > 0.0 && Legal(cap, n, most, steps) && k < |steps|
    requires Open(Run(cap, steps[..k]), day) && steps[|steps| - 1] == Check(day)
    ensures InFlight(cap, steps) == InFlight(cap, steps[..|steps| - 1])
  {
    LegalOrder(cap, n, most, steps, |steps| - 1, |steps| - 1);
    PassAfterTripIff(cap, steps, k, day);
    var before := steps[..|steps| - 1];
    OpenHasRecord(cap, steps[..k], day);
    var r :| 0 <= r < k && steps[..k][r].Record? && steps[r].day == day;
    hide Run, InFlight, Legal, SpentOn;
    forall j | k <= j < |before| ensures steps[j].day == day {
      LegalOrder(cap, n, most, steps, r, j);
      LegalOrder(cap, n, most, steps, j, |steps| - 1);
    }
  }

  /** A breaker that is open on a day has seen a record of that day. */
  lemma {:induction false} OpenHasRecord(cap: real, steps: seq<Step>, day: int)
    requires Run(cap, steps).date == Some(day)
    ensures exists r :: 0 <= r < |steps| && steps[r].Record? && steps[r].day == day
  {
    var before, last := steps[..|steps| - 1], steps[|steps| - 1];
    if last.Record? {
      assert last.day == day;
    } else {
      OpenHasRecord(cap, before, day);
      var r :| 0 <= r < |before| && before[r].Record? && before[r].day == day;
      assert steps[r] == before[r];
    }
  }

  // ---------------------------------------------------------------- the bound

  /** What may still be recorded on the state's day stays under the bound. */
  ghost predicate Bounded(cap: real, n: nat, most: real, steps: seq<Step>, st: State, bound: real) {
    && (forall day :: SpentOn(steps, day) < bound)
    && (Open(st, LastDay(steps)) ==> st.spent + Load(InFlight(cap, steps), most) < bound)
    && InFlight(cap, steps) >= 0
  }

  function LastDay(steps: seq<Step>): int {
    if |steps| == 0 then 0 else steps[|steps| - 1].day
  }

  /** The most that k calls can cost. */
  function Load(k: int, most: real): real { k as real * most }

  lemma {:induction false} LoadIs(k: int, most: real)
    ensures Load(k, most) == k as real * most
  {
  }

  lemma {:induction false} LoadGrows(k: int, n: int, most: real)
    requires k <= n && most >= 0.0
    ensures Load(k, most) <= Load(n, most)
  {
  }

  lemma {:induction false} LoadStep(k: int, most: real)
    ensures Load(k - 1, most) == Load(k, most) - most
    ensures Load(0, most) == 0.0
  {
    var x := k as real;
    assert (x - 1.0) * most == x * most - most;
  }

  lemma {:induction false} RunBounded(cap: real, n: nat, most: real, steps: seq<Step>)
    requires cap > 0.0 && most >= 0.0 && Legal(cap, n, most, steps)
    ensures Bounded(cap, n, most, steps, Run(cap, steps), cap + Load(n, most))
  {
    if |steps| > 0 {
      RunBounded(cap, n, most, steps[..|steps| - 1]);
      StepBounded(cap, n, most, steps);
    } else {
      LoadGrows(0, n, most);
    }
  }

  lemma {:induction false} StepBounded(cap: real, n: nat, most: real, steps: seq<Step>)
    requires cap > 0.0 && most >= 0.0 && |steps| > 0 && Legal(cap, n, most, steps)
    requires Bounded(cap, n, most, steps[..|steps| - 1], Run(cap, steps[..|steps| - 1]), cap + Load(n, most))
    ensures Bounded(cap, n, most, steps, Run(cap, steps), cap + Load(n, most))
  {
    var before, last, bound := steps[..|steps| - 1], steps[|steps| - 1], cap + Load(n, most);
    var was, k := Run(cap, before), InFlight(cap, before);
    RunKeeps(cap, n, most, before);
    RunKeeps(cap, n, most, steps);
    forall day
      ensures SpentOn(steps, day) == SpentOn(before, day) + if last.Record? && last.day == day then last.cost else 0.0
    {
      SpentStep(steps, day);
    }
    InFlightStep(cap, n, most, steps);
    LoadStep(k, most);
    LoadGrows(k, n, most);
    if k > 0 { LoadGrows(0, k - 1, most); }
    assert Open(was, last.day) ==> Open(was, LastDay(before));
    hide SpentOn, Legal, InFlight, Run, Load, LastDay;
  }

  lemma {:induction false} InFlightStep(cap: real, n: nat, most: real, steps: seq<Step>)
    requires |steps| > 0 && Legal(cap, n, most, steps)
    ensures var before, last := steps[..|steps| - 1], steps[|steps| - 1];
      && InFlight(cap, steps) == InFlight(cap, before)
                                 + (if !last.Check? then -1 else if Open(Run(cap, before), last.day) then 0 else 1)
      && Run(cap, steps) == (if last.Record? then Recorded(cap, Run(cap, before), last.day, last.cost)
                             else Run(cap, before))
      && InFlight(cap, steps) <= n && (!last.Check? ==> InFlight(cap, before) > 0)
      && (|before| > 0 ==> before[|before| - 1].day <= last.day) && (last.Record? ==> 0.0 <= last.cost <= most)
  {
  }

  /** While days do not go back: with at most n calls between check and record, each costing at
      most `most`, what is recorded for any one day stays under cap + n * most. */
  lemma {:induction false} DailySpendBounded(cap: real, n: nat, most: real, steps: seq<Step>, day: int)
    requires cap > 0.0 && most >= 0.0 && Legal(cap, n, most, steps)
    ensures SpentOn(steps, day) < cap + n as real * most
  {
    RunBounded(cap, n, most, steps);
  }

  // The bound cannot be improved.

  /** q full-priced calls one after the other. */
  function Saved(most: real, q: nat): (r: seq<Step>)
    ensures |r| == 2 * q && (q > 0 ==> r[|r| - 1].day == 0)
  {
    if q == 0 then [] else Saved(most, q - 1) + [Check(0)] + [Record(0, most)]
  }

  /** Then one call that stops short of the cap, then k checks, then j records. */
  function Burst(q: nat, first: real, most: real, k: nat, j: nat): (r: seq<Step>)
    ensures |r| == 2 * q + 2 + k + j && r[|r| - 1].day == 0
  {
    if j > 0 then Burst(q, first, most, k, j - 1) + [Record(0, most)]
    else if k > 0 then Burst(q, first, most, k - 1, 0) + [Check(0)]
    else Saved(most, q) + [Check(0)] + [Record(0, first)]
  }

  lemma {:induction false} Then(cap: real, n: nat, most: real, before: seq<Step>, r: Step)
    ensures Run(cap, before + [r])
            == (if r.Record? then Recorded(cap, Run(cap, before), r.day, r.cost) else Run(cap, before))
    ensures InFlight(cap, before + [r]) == InFlight(cap, before)
            + (if !r.Check? then -1 else if Open(Run(cap, before), r.day) then 0 else 1)
    ensures SpentOn(before + [r], 0) == SpentOn(before, 0) + if r.Record? && r.day == 0 then r.cost else 0.0
    ensures Legal(cap, n, most, before) && (|before| > 0 ==> before[|before| - 1].day <= r.day)
            && (r.Record? ==> 0.0 <= r.cost <= most) && (!r.Check? ==> InFlight(cap, before) > 0)
            && InFlight(cap, before + [r]) <= n
            ==> Legal(cap, n, most, before + [r])
  {
    assert (before + [r])[..|before + [r]| - 1] == before;
  }

  lemma {:induction false} Nothing(cap: real, n: nat, most: real)
    ensures Run(cap, []) == FRESH && InFlight(cap, []) == 0 && Legal(cap, n, most, [])
    ensures forall day :: SpentOn([], day) == 0.0
  {
  }

  /** A run of day 0 in which the breaker is closed and no call is in flight. */
  ghost predicate Resting(cap: real, n: nat, most: real, steps: seq<Step>, spent: real) {
    && Legal(cap, n, most, steps) && InFlight(cap, steps) == 0 && SpentOn(steps, 0) == spent
    && !Run(cap, steps).tripped && Run(cap, steps).spent == spent
    && (|steps| > 0 ==> steps[|steps| - 1].day == 0 && Run(cap, steps).date == Some(0))
  }

  lemma {:induction false} OneCallMore(cap: real, n: nat, most: real, steps: seq<Step>, spent: real, cost: real)
    requires n > 0 && Resting(cap, n, most, steps, spent) && (|steps| == 0 ==> spent == 0.0)
    requires 0.0 <= cost <= most && spent + cost < cap
    ensures Resting(cap, n, most, steps + [Check(0)] + [Record(0, cost)], spent + cost)
  {
    Nothing(cap, n, most);
    hide Run, InFlight, SpentOn, Legal;
    Then(cap, n, most, steps, Check(0));
    Then(cap, n, most, steps + [Check(0)], Record(0, cost));
  }

  lemma {:induction false} SavedRuns(cap: real, n: nat, most: real, q: nat)
    requires n > 0 && most > 0.0 && Load(q, most) < cap
    ensures Resting(cap, n, most, Saved(most, q), Load(q, most))
  {
    LoadStep(q, most);
    if q == 0 {
      Nothing(cap, n, most);
    } else {
      SavedRuns(cap, n, most, q - 1);
      hide Resting, Load;
      LoadStep(q - 1, most);
      OneCallMore(cap, n, most, Saved(most, q - 1), Load(q - 1, most), most);
    }
  }

  /** The state of a burst: all its calls are day-0 calls, and what is open is in flight. */
  ghost predicate Bursting(cap: real, n: nat, most: real, steps: seq<Step>, flying: int, spent: real) {
    && Legal(cap, n, most, steps) && InFlight(cap, steps) == flying && SpentOn(steps, 0) == spent
    && (|steps| > 0 ==> steps[|steps| - 1].day == 0)
  }

  lemma {:induction false} RecordMore(cap: real, n: nat, most: real, steps: seq<Step>, flying: int, spent: real)
    requires Bursting(cap, n, most, steps, flying, spent) && most > 0.0 && 0 < flying <= n
    ensures Bursting(cap, n, most, steps + [Record(0, most)], flying - 1, spent + most)
  {
    hide Run, InFlight, SpentOn, Legal;
    Then(cap, n, most, steps, Record(0, most));
  }

  lemma {:induction false} CheckMore(cap: real, n: nat, most: real, steps: seq<Step>, flying: int, spent: real)
    requires Bursting(cap, n, most, steps, flying, spent) && 0 <= flying < n && !Run(cap, steps).tripped
    ensures Bursting(cap, n, most, steps + [Check(0)], flying + 1, spent) && !Run(cap, steps + [Check(0)]).tripped
  {
    hide Run, InFlight, SpentOn, Legal;
    Then(cap, n, most, steps, Check(0));
  }

  lemma {:induction false} BurstRuns(cap: real, n: nat, q: nat, most: real, first: real, k: nat, j: nat)
    requires n > 0 && most > 0.0 && 0.0 <= first <= most && Load(q, most) + first < cap && j <= k <= n
    ensures var r := Burst(q, first, most, k, j);
            && Bursting(cap, n, most, r, k - j, Load(q, most) + first + Load(j, most))
            && (j == 0 ==> !Run(cap, r).tripped)
    decreases k + j
  {
    hide Run, Bursting, Load;
    LoadStep(j, most);
    if j > 0 {
      BurstRuns(cap, n, q, most, first, k, j - 1);
      RecordMore(cap, n, most, Burst(q, first, most, k, j - 1), k - j + 1, Load(q, most) + first + Load(j - 1, most));
    } else if k > 0 {
      BurstRuns(cap, n, q, most, first, k - 1, 0);
      CheckMore(cap, n, most, Burst(q, first, most, k - 1, 0), k - 1, Load(q, most) + first);
    } else {
      BurstStarts(cap, n, q, most, first);
    }
  }

  lemma {:induction false} BurstStarts(cap: real, n: nat, q: nat, most: real, first: real)
    requires n > 0 && most > 0.0 && 0.0 <= first <= most && Load(q, most) + first < cap
    ensures var r := Burst(q, first, most, 0, 0);
            Bursting(cap, n, most, r, 0, Load(q, most) + first) && !Run(cap, r).tripped
  {
    SavedRuns(cap, n, most, q);
    LoadStep(0, most);
    assert q == 0 ==> Load(q, most) == 0.0;
    hide Run, InFlight, SpentOn, Legal, Load;
    OneCallMore(cap, n, most, Saved(most, q), Load(q, most), first);
  }

  /** A day's spend can come as close to the bound as one likes, whatever a call costs. */
  lemma {:induction false} BoundIsApproached(cap: real, n: nat, most: real, gap: real)
    requires n > 0 && most > 0.0 && 0.0 < gap <= cap
    ensures exists steps :: Legal(cap, n, most, steps) && SpentOn(steps, 0) == cap + n as real * most - gap
  {
    hide Legal, SpentOn, Run, InFlight, Load;
    var q, first := Filled(cap - gap, most);
    BurstRuns(cap, n, q, most, first, n, n);
    LoadIs(n, most);
    assert SpentOn(Burst(q, first, most, n, n), 0) == cap + n as real * most - gap;
  }

  /** Any amount is so many full-priced calls and a last one that costs no more. */
  lemma {:induction false} Filled(amount: real, most: real) returns (q: nat, first: real)
    requires amount >= 0.0 && most > 0.0
    ensures 0.0 <= first <= most && Load(q, most) + first == amount
  {
    var ratio := amount / most;
    assert ratio * most == amount;
    QuotientSign(amount, most, ratio);
    q := ratio.Floor;
    LoadIs(q, most);
    hide Load;
    var part := ratio - q as real;
    Product(part, most);
    Product(1.0 - part, most);
    assert part * most == ratio * most - q as real * most;
    assert (1.0 - part) * most == most - part * most;
    first := part * most;
  }

  lemma {:induction false} QuotientSign(x: real, y: real, q: real)
    requires y > 0.0 && x >= 0.0 && q * y == x
    ensures q >= 0.0
  {
    SignOf(-q, y);
    assert (-q) * y == -x;
  }

  // ---------------------------------------------------------------- limits

  /** A cap of zero or less switches the breaker off. */
  lemma {:induction false} NoCapNeverTrips(cap: real, steps: seq<Step>, day: int)
    requires cap <= 0.0
    ensures !Open(Run(cap, steps), day)
  {
    NeverTripped(cap, steps);
  }

  lemma {:induction false} NeverTripped(cap: real, steps: seq<Step>)
    requires cap <= 0.0
    ensures !Run(cap, steps).tripped
  {
    if |steps| > 0 {
      NeverTripped(cap, steps[..|steps| - 1]);
    }
  }

  /** Days that do not go back are needed.  A record that carries an earlier day, as when a
      call reads the date just before midnight and gets the lock just after another's first
      record of the new day, clears the counters: the new day's cap has been reached and
      its breaker is closed. */
  lemma {:induction false} EarlierDayForgets(cap: real)
    requires cap > 0.0
    ensures var steps := [Check(1), Check(0), Record(1, cap), Record(0, 0.0)];
            SpentOn(steps, 1) >= cap && !Open(Run(cap, steps), 1)
            && InFlight(cap, steps) == 0 && Open(Run(cap, steps[..3]), 1)
  {
    hide Run, InFlight, SpentOn;
    Nothing(cap, 2, cap);
    var two := [Check(1)] + [Check(0)];
    var three := two + [Record(1, cap)];
    var steps := three + [Record(0, 0.0)];
    assert [] + [Check(1)] == [Check(1)];
    Then(cap, 2, cap, [], Check(1));
    Then(cap, 2, cap, [Check(1)], Check(0));
    Then(cap, 2, cap, two, Record(1, cap));
    Then(cap, 2, cap, three, Record(0, 0.0));
    SpentStep(steps, 1);
    assert steps[..3] == three && three[..2] == two;
    SpentStep(three, 1);
    SpentStep(two, 1);
    assert two[..1] == [Check(1)] && [Check(1)][..0] == [];
    SpentStep([Check(1)], 1);
    assert steps == [Check(1), Check(0), Record(1, cap), Record(0, 0.0)];
  }

  /** As Legal, but the days may come in any order. */
  ghost predicate Served(cap: real, n: nat, most: real, steps: seq<Step>) {
    |steps| == 0
    || (var before, last := steps[..|steps| - 1], steps[|steps| - 1];
        && Served(cap, n, most, before)
        && (last.Record? ==> 0.0 <= last.cost <= most)
        && (!last.Check? ==> InFlight(cap, before) > 0)
        && InFlight(cap, steps) <= n)
  }

  ghost predicate InOrder(steps: seq<Step>) {
    forall i, j :: 0 <= i <= j < |steps| ==> steps[i].day <= steps[j].day
  }

  lemma {:induction false} LegalIsServedInOrder(cap: real, n: nat, most: real, steps: seq<Step>)
    ensures Legal(cap, n, most, steps) <==> Served(cap, n, most, steps) && InOrder(steps)
  {
    hide InFlight;
    if |steps| > 0 {
      var before := steps[..|steps| - 1];
      LegalIsServedInOrder(cap, n, most, before);
      if Legal(cap, n, most, steps) {
        forall i, j | 0 <= i <= j < |steps| ensures steps[i].day <= steps[j].day {
          LegalOrder(cap, n, most, steps, i, j);
        }
      }
      if InOrder(steps) {
        assert forall i, j :: 0 <= i <= j < |before| ==> before[i].day == steps[i].day && before[j].day == steps[j].day;
      }
    }
  }

  /** k calls one after the other, each checked on day 0 and recorded on day 1. */
  function Straddling(most: real, k: nat): seq<Step> {
    if k == 0 then [] else Straddling(most, k - 1) + [Check(0)] + [Record(1, most)]
  }

  lemma {:induction false} ServedMore(cap: real, n: nat, most: real, before: seq<Step>, r: Step)
    requires Served(cap, n, most, before) && (r.Record? ==> 0.0 <= r.cost <= most)
    requires (!r.Check? ==> InFlight(cap, before) > 0) && InFlight(cap, before + [r]) <= n
    ensures Served(cap, n, most, before + [r])
  {
    hide InFlight;
    assert (before + [r])[..|before + [r]| - 1] == before;
  }

  ghost predicate Straddled(cap: real, most: real, steps: seq<Step>, spent: real) {
    && Served(cap, 1, most, steps) && InFlight(cap, steps) == 0 && SpentOn(steps, 0) == 0.0
       && SpentOn(steps, 1) == spent
    && Run(cap, steps).date != Some(0)
  }

  lemma {:induction false} OneMoreStraddles(cap: real, most: real, steps: seq<Step>, spent: real)
    requires most > 0.0 && Straddled(cap, most, steps, spent)
    ensures Straddled(cap, most, steps + [Check(0)] + [Record(1, most)], spent + most)
  {
    hide Run, InFlight, SpentOn, Served, Legal;
    var checked := steps + [Check(0)];
    Then(cap, 1, most, steps, Check(0));
    ServedMore(cap, 1, most, steps, Check(0));
    Then(cap, 1, most, checked, Record(1, most));
    ServedMore(cap, 1, most, checked, Record(1, most));
    SpentMore(steps, Check(0), 1);
    SpentMore(checked, Record(1, most), 1);
  }

  lemma {:induction false} SpentMore(before: seq<Step>, r: Step, day: int)
    ensures SpentOn(before + [r], day) == SpentOn(before, day) + if r.Record? && r.day == day then r.cost else 0.0
  {
    assert (before + [r])[..|before + [r]| - 1] == before;
  }

  lemma {:induction false} StraddlingRuns(cap: real, most: real, k: nat)
    requires most > 0.0
    ensures Straddled(cap, most, Straddling(most, k), Load(k, most))
  {
    LoadStep(k, most);
    if k > 0 {
      hide Straddled, Load;
      StraddlingRuns(cap, most, k - 1);
      OneMoreStraddles(cap, most, Straddling(most, k - 1), Load(k - 1, most));
    }
  }

  lemma {:induction false} StraddlingSpends(cap: real, most: real, k: nat, calls: real)
    requires most > 0.0 && calls == k as real
    ensures Served(cap, 1, most, Straddling(most, k)) && SpentOn(Straddling(most, k), 1) == calls * most
  {
    StraddlingRuns(cap, most, k);
    LoadIs(k, most);
    hide Served, SpentOn, Load, Run, InFlight;
  }

  /** Once days may go back there is no bound at all: whatever the cap, one call at a time can
      spend any amount on one day. */
  lemma {:induction false} NoBoundIfDaysGoBack(cap: real, most: real, amount: real)
    requires most > 0.0
    ensures exists steps :: Served(cap, 1, most, steps) && SpentOn(steps, 1) > amount
  {
    hide Served, SpentOn;
    var ratio := amount / most;
    assert ratio * most == amount;
    var k: nat := if ratio < 0.0 then 1 else ratio.Floor + 1;
    var calls := k as real;
    StraddlingSpends(cap, most, k, calls);
    ScaleUpStrict(ratio, calls, most);
    assert SpentOn(Straddling(most, k), 1) > amount;
  }

  // ---------------------------------------------------------------- the globals

  class Breaker {
    var date: Option<int>
    var spentToday: real
    var tripped: bool

    constructor ()
      ensures View() == FRESH
    {
      date, spentToday, tripped := None, 0.0, false;
    }

    ghost function View(): State
      reads this
    {
      State(date, spentToday, tripped)
    }

    method IsOpen(today: int) returns (r: bool)
      ensures r <==> Open(View(), today)
    {
      if date != Some(today) {
        return false;
      }
      r := tripped;
    }

    method CheckThenRecord(cap: real, today: int, cost: real) returns (allowed: bool)
      modifies this
      ensures View() == Recorded(cap, old(View()), today, cost)
      ensures allowed <==> !Open(View(), today)
    {
      if date != Some(today) {
        date, spentToday, tripped := Some(today), 0.0, false;
      }
      spentToday := spentToday + cost;
      if cap > 0.0 && cap <= spentToday {
        tripped := true;
      }
      allowed := !tripped;
    }
  }
}
