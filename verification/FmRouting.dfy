/** How routed calls use the cache and the breaker, each in this order: cache, breaker,
    provider, record, store. */
module FmRouting {
  import opened Options
  import FmBreaker
  import FmCache

  /** A call returns a response, is refused because the breaker is open, or raises. */
  datatype Outcome = Answered(response: FmCache.Response) | Refused | Raised

  /** `provider` is what the model returns, None if it or the call's own budget raises. */
  datatype Call = Call(key: string, now: real, today: int, provider: Option<FmCache.Response>, later: real,
                       laterDay: int)

  datatype State = State(entries: FmCache.Entries, breaker: FmBreaker.State)

  function Cached(s: FmCache.Settings, cacheOn: bool, st: State, c: Call): Option<FmCache.Response> {
    if cacheOn then FmCache.Answer(s, st.entries, c.key, c.now) else None
  }

  function OutcomeOf(s: FmCache.Settings, cacheOn: bool, st: State, c: Call): Outcome {
    if Cached(s, cacheOn, st, c).Some? then Answered(Cached(s, cacheOn, st, c).value)
    else if FmBreaker.Open(st.breaker, c.today) then Refused
    else if c.provider.None? then Raised
    else Answered(c.provider.value)
  }

  /** The call got as far as an answer of the provider. */
  predicate Paid(s: FmCache.Settings, cacheOn: bool, st: State, c: Call) {
    Cached(s, cacheOn, st, c).None? && !FmBreaker.Open(st.breaker, c.today) && c.provider.Some?
  }

  function After(s: FmCache.Settings, cap: real, cacheOn: bool, st: State, c: Call): State {
    var looked := if cacheOn then FmCache.AfterGet(s, st.entries, c.key, c.now) else st.entries;
    if !Paid(s, cacheOn, st, c) then State(looked, st.breaker)
    else State(if cacheOn then FmCache.AfterPut(s, looked, FmCache.Entry(c.key, c.later, c.provider.value)) else looked,
               FmBreaker.Recorded(cap, st.breaker, c.laterDay, c.provider.value.costUsd))
  }

  method RouteAndExecute(cache: FmCache.Cache, breaker: FmBreaker.Breaker, s: FmCache.Settings, cap: real,
                         cacheOn: bool, c: Call)
      returns (o: Outcome)
    modifies cache, breaker
    ensures o == OutcomeOf(s, cacheOn, State(old(cache.entries), old(breaker.View())), c)
    ensures State(cache.entries, breaker.View())
            == After(s, cap, cacheOn, State(old(cache.entries), old(breaker.View())), c)
  {
    hide FmCache.Answer, FmCache.AfterGet, FmCache.AfterPut, FmBreaker.Recorded;
    if cacheOn {
      var cached := cache.Get(s, c.key, c.now);
      if cached.Some? {
        return Answered(cached.value);
      }
    }
    var open := breaker.IsOpen(c.today);
    if open {
      return Refused;
    }
    if c.provider.None? {
      return Raised;
    }
    var _ := breaker.CheckThenRecord(cap, c.laterDay, c.provider.value.costUsd);
    if cacheOn {
      cache.Put(s, c.key, c.later, c.provider.value);
    }
    o := Answered(c.provider.value);
  }

  // ---------------------------------------------------------------- calls side by side

  /** How far a call has got: it missed the cache, it passed the breaker and waits for the
      provider, its answer has been paid for, or it is over. */
  datatype Phase = Looked | Passed | Paying(response: FmCache.Response) | Over(outcome: Outcome)

  /** A call in progress; its key is None when the cache was off as it began. */
  datatype Active = Active(key: Option<string>, phase: Phase)

  /** What one call does under one lock: the cache or the breaker sees these in some order. */
  datatype Event =
    | Lookup(id: nat, key: Option<string>, now: real)
    | Consult(id: nat, today: int)
    | Pay(id: nat, day: int, response: FmCache.Response)
    | Fail(id: nat, day: int)
    | Store(id: nat, now: real)

  datatype System = System(entries: FmCache.Entries, breaker: FmBreaker.State, calls: map<nat, Active>)

  const IDLE := System([], FmBreaker.FRESH, map[])

  /** A call goes through its steps in order; anything else is not a step of it. */
  predicate Ready(sys: System, e: Event) {
    if e.Lookup? then e.id !in sys.calls
    else
      && e.id in sys.calls
      && match e
         case Consult(_, _) => sys.calls[e.id].phase.Looked?
         case Store(_, _) => sys.calls[e.id].phase.Paying?
         case _ => sys.calls[e.id].phase.Passed?
  }

  function Moved(sys: System, id: nat, phase: Phase): map<nat, Active>
    requires id in sys.calls
  {
    sys.calls[id := Active(sys.calls[id].key, phase)]
  }

  function LookedUp(s: FmCache.Settings, sys: System, key: Option<string>, now: real): Option<FmCache.Response> {
    if key.Some? then FmCache.Answer(s, sys.entries, key.value, now) else None
  }

  function Next(s: FmCache.Settings, cap: real, sys: System, e: Event): System {
    if !Ready(sys, e) then sys else
    match e
    case Lookup(id, key, now) =>
      var found := LookedUp(s, sys, key, now);
      System(if key.Some? then FmCache.AfterGet(s, sys.entries, key.value, now) else sys.entries, sys.breaker,
             sys.calls[id := Active(key, if found.Some? then Over(Answered(found.value)) else Looked)])
    case Consult(id, today) =>
      sys.(calls := Moved(sys, id, if FmBreaker.Open(sys.breaker, today) then Over(Refused) else Passed))
    case Pay(id, day, response) =>
      sys.(breaker := FmBreaker.Recorded(cap, sys.breaker, day, response.costUsd),
           calls := Moved(sys, id, Paying(response)))
    case Fail(id, _) =>
      sys.(calls := Moved(sys, id, Over(Raised)))
    case Store(id, now) =>
      var key, response := sys.calls[id].key, sys.calls[id].phase.response;
      System(if key.Some? then FmCache.AfterPut(s, sys.entries, FmCache.Entry(key.value, now, response))
             else sys.entries,
             sys.breaker, Moved(sys, id, Over(Answered(response))))
  }

  function Run(s: FmCache.Settings, cap: real, events: seq<Event>): System {
    if |events| == 0 then IDLE else Next(s, cap, Run(s, cap, events[..|events| - 1]), events[|events| - 1])
  }

  /** What one event asks of the cache. */
  function Asked(sys: System, e: Event): seq<FmCache.Request> {
    if !Ready(sys, e) then []
    else if e.Lookup? && e.key.Some? then [FmCache.Get(e.key.value, e.now)]
    else if e.Store? && sys.calls[e.id].key.Some? then
      [FmCache.Put(sys.calls[e.id].key.value, e.now, sys.calls[e.id].phase.response)]
    else []
  }

  /** What one event does at the breaker. */
  function Did(sys: System, e: Event): seq<FmBreaker.Step> {
    if !Ready(sys, e) then []
    else if e.Consult? then [FmBreaker.Check(e.today)]
    else if e.Pay? then [FmBreaker.Record(e.day, e.response.costUsd)]
    else if e.Fail? then [FmBreaker.Abandon(e.day)]
    else []
  }

  function Requests(s: FmCache.Settings, cap: real, events: seq<Event>): seq<FmCache.Request> {
    if |events| == 0 then []
    else Requests(s, cap, events[..|events| - 1]) + Asked(Run(s, cap, events[..|events| - 1]), events[|events| - 1])
  }

  function Steps(s: FmCache.Settings, cap: real, events: seq<Event>): seq<FmBreaker.Step> {
    if |events| == 0 then []
    else Steps(s, cap, events[..|events| - 1]) + Did(Run(s, cap, events[..|events| - 1]), events[|events| - 1])
  }

  lemma {:induction false} OneRequestMore(s: FmCache.Settings, reqs: seq<FmCache.Request>, r: FmCache.Request)
    ensures FmCache.Run(s, reqs + [r]) ==
            match r
            case Get(k, now) => FmCache.AfterGet(s, FmCache.Run(s, reqs), k, now)
            case Put(k, now, v) => FmCache.AfterPut(s, FmCache.Run(s, reqs), FmCache.Entry(k, now, v))
  {
    assert (reqs + [r])[..|reqs + [r]| - 1] == reqs;
  }

  lemma {:induction false} OneStepMore(cap: real, steps: seq<FmBreaker.Step>, r: FmBreaker.Step)
    ensures FmBreaker.Run(cap, steps + [r])
            == if r.Record? then FmBreaker.Recorded(cap, FmBreaker.Run(cap, steps), r.day, r.cost)
               else FmBreaker.Run(cap, steps)
  {
    assert (steps + [r])[..|steps + [r]| - 1] == steps;
  }

  lemma {:induction false} EventAsks(s: FmCache.Settings, cap: real, reqs: seq<FmCache.Request>, sys: System, e: Event)
    requires sys.entries == FmCache.Run(s, reqs)
    ensures Next(s, cap, sys, e).entries == FmCache.Run(s, reqs + Asked(sys, e))
  {
    hide FmCache.Run, FmCache.AfterGet, FmCache.AfterPut, FmCache.Answer, FmBreaker.Recorded;
    var asked := Asked(sys, e);
    if |asked| > 0 {
      OneRequestMore(s, reqs, asked[0]);
      assert asked == [asked[0]];
    } else {
      assert reqs + asked == reqs;
    }
  }

  lemma {:induction false} EventDoes(s: FmCache.Settings, cap: real, steps: seq<FmBreaker.Step>, sys: System, e: Event)
    requires sys.breaker == FmBreaker.Run(cap, steps)
    ensures Next(s, cap, sys, e).breaker == FmBreaker.Run(cap, steps + Did(sys, e))
  {
    hide FmBreaker.Run, FmCache.AfterGet, FmCache.AfterPut, FmCache.Answer, FmBreaker.Recorded;
    var did := Did(sys, e);
    if |did| > 0 {
      OneStepMore(cap, steps, did[0]);
      assert did == [did[0]];
    } else {
      assert steps + did == steps;
    }
  }

  /** However the calls interleave, they are a run of the cache and a run of the breaker side by
      side, so all that holds of those holds here. */
  lemma {:induction false} RunIsBothRuns(s: FmCache.Settings, cap: real, events: seq<Event>)
    ensures Run(s, cap, events).entries == FmCache.Run(s, Requests(s, cap, events))
    ensures Run(s, cap, events).breaker == FmBreaker.Run(cap, Steps(s, cap, events))
  {
    if |events| > 0 {
      var before, e := events[..|events| - 1], events[|events| - 1];
      RunIsBothRuns(s, cap, before);
      EventAsks(s, cap, Requests(s, cap, before), Run(s, cap, before), e);
      EventDoes(s, cap, Steps(s, cap, before), Run(s, cap, before), e);
      hide Next, Asked, Did, FmCache.Run, FmBreaker.Run;
    }
  }

  // ---------------------------------------------------------------- one call on its own

  /** The steps of a call that is left alone. */
  function StepsOf(cacheOn: bool, id: nat, c: Call): seq<Event> {
    var opening := [Lookup(id, if cacheOn then Some(c.key) else None, c.now), Consult(id, c.today)];
    opening + if c.provider.Some? then [Pay(id, c.laterDay, c.provider.value), Store(id, c.later)]
              else [Fail(id, c.laterDay)]
  }

  function Through(s: FmCache.Settings, cap: real, sys: System, events: seq<Event>): System
    decreases |events|
  {
    if |events| == 0 then sys else Through(s, cap, Next(s, cap, sys, events[0]), events[1..])
  }

  /** A call whose steps nothing comes between does what the call as a whole does. */
  lemma {:induction false} AloneIsAtomic(s: FmCache.Settings, cap: real, cacheOn: bool, sys: System, id: nat, c: Call)
    requires id !in sys.calls
    ensures var sys', st := Through(s, cap, sys, StepsOf(cacheOn, id, c)), State(sys.entries, sys.breaker);
            && State(sys'.entries, sys'.breaker) == After(s, cap, cacheOn, st, c)
            && id in sys'.calls && sys'.calls[id].phase == Over(OutcomeOf(s, cacheOn, st, c))
  {
    hide FmCache.AfterGet, FmCache.AfterPut, FmCache.Answer, FmBreaker.Recorded;
    var events := StepsOf(cacheOn, id, c);
    var sys1 := Next(s, cap, sys, events[0]);
    var sys2 := Next(s, cap, sys1, events[1]);
    var sys3 := Next(s, cap, sys2, events[2]);
    if c.provider.Some? {
      Four(s, cap, sys, events);
    } else {
      Three(s, cap, sys, events);
    }
  }

  lemma {:induction false} Three(s: FmCache.Settings, cap: real, sys: System, events: seq<Event>)
    requires |events| == 3
    ensures Through(s, cap, sys, events)
            == Next(s, cap, Next(s, cap, Next(s, cap, sys, events[0]), events[1]), events[2])
  {
    hide Next;
    var rest := events[1..];
    var last := rest[1..];
    assert last == [events[2]] && last[1..] == [];
    var sys2 := Next(s, cap, Next(s, cap, sys, events[0]), events[1]);
    assert Through(s, cap, sys2, last) == Through(s, cap, Next(s, cap, sys2, events[2]), []);
  }

  lemma {:induction false} Four(s: FmCache.Settings, cap: real, sys: System, events: seq<Event>)
    requires |events| == 4
    ensures Through(s, cap, sys, events)
            == Next(s, cap, Next(s, cap, Next(s, cap, Next(s, cap, sys, events[0]), events[1]), events[2]), events[3])
  {
    hide Next;
    var rest := events[1..];
    Three(s, cap, Next(s, cap, sys, events[0]), rest);
  }

  // ---------------------------------------------------------------- what a lookup costs

  /** After any interleaving, whatever is still in flight: a lookup ends its call with the
      response stored last, the breaker neither consulted nor changed, if and only if that
      response is unexpired, was not struck by a late lookup, and its standing rivals never
      filled the cache. */
  lemma {:induction false} FreeIff(s: FmCache.Settings, cap: real, events: seq<Event>, id: nat, key: string, now: real)
    requires id !in Run(s, cap, events).calls
    ensures var reqs, e := Requests(s, cap, events), Lookup(id, Some(key), now);
            var put, sys := FmCache.LastPut(reqs, key), Run(s, cap, events + [e]);
            && id in sys.calls
            && (sys.calls[id].phase != Looked
                <==> put.Some? && !s.Expired(put.value, now) && !FmCache.Struck(s, reqs, key)
                     && !FmCache.Crowded(s, reqs, key))
            && (sys.calls[id].phase != Looked ==> sys.calls[id].phase == Over(Answered(put.value.value)))
            && sys.breaker == Run(s, cap, events).breaker && Steps(s, cap, events + [e]) == Steps(s, cap, events)
  {
    var reqs, e := Requests(s, cap, events), Lookup(id, Some(key), now);
    RunIsBothRuns(s, cap, events);
    FmCache.MissExactlyWhen(s, reqs, key, now);
    if FmCache.Answer(s, FmCache.Run(s, reqs), key, now).Some? {
      FmCache.HitIsLastPut(s, reqs, key, now);
    }
    assert (events + [e])[..|events + [e]| - 1] == events;
    hide FmCache.Answer, FmCache.AfterGet, FmCache.Crowded, FmCache.Struck, FmCache.LastPut, FmCache.Run, Requests;
  }

  /** So a repeat within the time-to-live is free when fewer than `capacity` other keys were
      touched in between and no late lookup came, as it cannot while the clock does not go
      back. */
  lemma {:induction false} RepeatIsFree(s: FmCache.Settings, cap: real, events: seq<Event>, id: nat, key: string,
                                        now: real)
    requires id !in Run(s, cap, events).calls
    requires var reqs := Requests(s, cap, events);
             var put := FmCache.LastPut(reqs, key);
             && put.Some? && !s.Expired(put.value, now) && |FmCache.Rivals(s, reqs, key)| < s.capacity
             && (FmCache.Struck(s, reqs, key) ==> FmCache.Timed(reqs) && reqs[|reqs| - 1].now <= now)
    ensures var e, put := Lookup(id, Some(key), now), FmCache.LastPut(Requests(s, cap, events), key);
            var sys := Run(s, cap, events + [e]);
            && id in sys.calls && sys.calls[id].phase == Over(Answered(put.value.value))
            && Steps(s, cap, events + [e]) == Steps(s, cap, events)
  {
    var reqs := Requests(s, cap, events);
    hide FmCache.Crowded, FmCache.Rivals, FmCache.LastPut, FmCache.Timed, Run, Steps, Requests;
    FreeIff(s, cap, events, id, key, now);
    FmCache.StandingAreRivals(s, reqs, key);
    if FmCache.Struck(s, reqs, key) {
      FmCache.StruckIsExpired(s, reqs, key, now);
    }
  }

  // ---------------------------------------------------------------- what a day costs

  /** The calls between their check and their record. */
  function Flying(sys: System): set<nat> { set id | id in sys.calls && sys.calls[id].phase.Passed? }

  /** The breaker's count of calls in flight is the number of calls waiting for a provider. */
  lemma {:induction false} InFlightIsFlying(s: FmCache.Settings, cap: real, events: seq<Event>)
    ensures FmBreaker.InFlight(cap, Steps(s, cap, events)) == |Flying(Run(s, cap, events))|
  {
    if |events| > 0 {
      var before, e := events[..|events| - 1], events[|events| - 1];
      InFlightIsFlying(s, cap, before);
      RunIsBothRuns(s, cap, before);
      FlyingMoves(s, cap, Run(s, cap, before), e);
      DidMoves(cap, Steps(s, cap, before), Run(s, cap, before), e);
      hide Next, Did, Flying, FmBreaker.InFlight, FmBreaker.Run;
    } else {
      assert Flying(IDLE) == {};
    }
  }

  /** What one event adds to the calls in flight. */
  function Change(sys: System, e: Event): int {
    if !Ready(sys, e) then 0
    else if e.Consult? then (if FmBreaker.Open(sys.breaker, e.today) then 0 else 1)
    else if e.Pay? || e.Fail? then -1
    else 0
  }

  lemma {:induction false} FlyingMoves(s: FmCache.Settings, cap: real, sys: System, e: Event)
    ensures |Flying(Next(s, cap, sys, e))| == |Flying(sys)| + Change(sys, e)
  {
    var sys' := Next(s, cap, sys, e);
    hide FmCache.AfterGet, FmCache.AfterPut, FmBreaker.Recorded, LookedUp, FmBreaker.Open;
    if Ready(sys, e) {
      assert sys'.calls == sys.calls[e.id := sys'.calls[e.id]];
      FlyingUpdated(sys, sys', e.id);
    }
  }

  lemma {:induction false} FlyingUpdated(sys: System, sys': System, id: nat)
    requires id in sys'.calls && sys'.calls == sys.calls[id := sys'.calls[id]]
    ensures |Flying(sys')| == |Flying(sys)| + (if sys'.calls[id].phase.Passed? then 1 else 0)
                              - if id in sys.calls && sys.calls[id].phase.Passed? then 1 else 0
  {
    var was, now := Flying(sys), Flying(sys');
    forall other: nat | other != id ensures other in was <==> other in now {
    }
    assert id in now <==> sys'.calls[id].phase.Passed?;
    hide Flying;
    SameOthers(was, now, id);
  }

  lemma {:induction false} SameOthers(was: set<nat>, now: set<nat>, id: nat)
    requires forall other: nat :: other != id ==> (other in was <==> other in now)
    ensures |now| == |was| + (if id in now then 1 else 0) - if id in was then 1 else 0
  {
    var others := was - {id};
    assert now - {id} == others;
    SizeBeside(was, id);
    SizeBeside(now, id);
  }

  lemma {:induction false} SizeBeside(s: set<nat>, x: nat)
    ensures |s| == |s - {x}| + if x in s then 1 else 0
  {
    if x !in s {
      assert s - {x} == s;
    }
  }

  lemma {:induction false} DidMoves(cap: real, steps: seq<FmBreaker.Step>, sys: System, e: Event)
    requires sys.breaker == FmBreaker.Run(cap, steps)
    ensures FmBreaker.InFlight(cap, steps + Did(sys, e)) == FmBreaker.InFlight(cap, steps) + Change(sys, e)
  {
    var did := Did(sys, e);
    if |did| > 0 {
      assert (steps + did)[..|steps + did| - 1] == steps;
    } else {
      assert steps + did == steps;
    }
  }

  /** At most n calls ever wait for a provider at once, an answer costs between 0 and `most`,
      and the days the breaker sees do not go back. */
  ghost predicate Disciplined(s: FmCache.Settings, cap: real, n: nat, most: real, events: seq<Event>) {
    |events| == 0
    || (var before, e := events[..|events| - 1], events[|events| - 1];
        var steps, did := Steps(s, cap, before), Did(Run(s, cap, before), e);
        && Disciplined(s, cap, n, most, before) && |Flying(Run(s, cap, events))| <= n
        && (e.Pay? ==> 0.0 <= e.response.costUsd <= most)
        && (|steps| > 0 && |did| > 0 ==> steps[|steps| - 1].day <= did[0].day))
  }

  lemma {:induction false} DidOne(sys: System, e: Event)
    requires |Did(sys, e)| > 0
    ensures var did := Did(sys, e);
            && did == [did[0]] && (did[0].Record? ==> e.Pay? && did[0].cost == e.response.costUsd)
            && (!did[0].Check? ==> e.id in Flying(sys))
  {
  }

  lemma {:induction false} DisciplinedIsLegal(s: FmCache.Settings, cap: real, n: nat, most: real, events: seq<Event>)
    requires Disciplined(s, cap, n, most, events)
    ensures FmBreaker.Legal(cap, n, most, Steps(s, cap, events))
  {
    if |events| > 0 {
      var before, e := events[..|events| - 1], events[|events| - 1];
      DisciplinedIsLegal(s, cap, n, most, before);
      InFlightIsFlying(s, cap, before);
      InFlightIsFlying(s, cap, events);
      var sys := Run(s, cap, before);
      var steps, did := Steps(s, cap, before), Did(sys, e);
      hide Next, Run, FmBreaker.Legal, FmBreaker.InFlight, FmBreaker.Run;
      assert (e.Pay? || e.Fail?) && Ready(sys, e) ==> e.id in Flying(sys);
      if |did| > 0 {
        DidOne(sys, e);
        FmBreaker.Then(cap, n, most, steps, did[0]);
        hide Next, Flying, Run, Did, FmBreaker.Legal, FmBreaker.InFlight, FmBreaker.Run;
        assert did == [did[0]];
      } else {
        assert steps + did == steps;
      }
    }
  }

  /** So with at most n calls waiting at once the spend of a day stays under the cap and n
      answers, whatever the cache does and however the calls interleave. */
  lemma {:induction false} DailySpendBounded(s: FmCache.Settings, cap: real, n: nat, most: real, events: seq<Event>,
                                             day: int)
    requires cap > 0.0 && most >= 0.0 && Disciplined(s, cap, n, most, events)
    ensures FmBreaker.SpentOn(Steps(s, cap, events), day) < cap + n as real * most
  {
    DisciplinedIsLegal(s, cap, n, most, events);
    FmBreaker.DailySpendBounded(cap, n, most, Steps(s, cap, events), day);
  }

  /** Repeating a call at once is answered from the cache whatever the breaker says. */
  lemma {:induction false} RepeatIsAnswered(s: FmCache.Settings, d: FmCache.Entries, e: FmCache.Entry, now: real)
    requires s.capacity > 0 && FmCache.Fits(s, d) && !s.Expired(e, now)
    ensures FmCache.Answer(s, FmCache.AfterPut(s, d, e), e.key, now) == Some(e.value)
  {
    var t := FmCache.Touched(s.capacity, d, e);
    FmCache.TouchedFits(s, d, e);
    FmCache.FindIsUnique(t, |t| - 1);
    hide FmCache.Touched;
  }
}
