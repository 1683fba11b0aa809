/** Comparing the equity the program computes with the equity the broker reports: a drift
    latch with hysteresis, its counters, and a windowed maximum. */
module Reconciler {
  import opened Options
  import opened Reals

  // ---------------------------------------------------------------- configuration

  datatype Parameters = Parameters(usd: real, pct: real, belowUsd: Option<real>, belowPct: Option<real>,
                                   aboveUsd: Option<real>, abovePct: Option<real>, minLogical: real,
                                   clearUsd: Option<real>, clearPct: Option<real>, window: int)

  datatype Band = Band(usd: real, pct: real)

  datatype Settings = Settings(below: Band, above: Band, clear: Band, minLogical: real, window: nat)

  predicate Negative(o: Option<real>) { o.Some? && o.value < 0.0 }

  /** The constructor's checks, None where it raises. */
  function Configure(p: Parameters): Option<Settings> {
    if p.usd < 0.0 || p.pct < 0.0 || p.minLogical < 0.0 then None
    else if Negative(p.belowUsd) || Negative(p.belowPct) || Negative(p.aboveUsd) || Negative(p.abovePct) then None
    else
      var below := Band(Or(p.belowUsd, p.usd), Or(p.belowPct, p.pct));
      var above := Band(Or(p.aboveUsd, p.usd), Or(p.abovePct, p.pct));
      var clear := Band(Or(p.clearUsd, below.usd * 0.7), Or(p.clearPct, below.pct * 0.7));
      if clear.usd < 0.0 || clear.pct < 0.0 || clear.usd > below.usd || clear.pct > below.pct || p.window < 0 then None
      else Some(Settings(below, above, clear, p.minLogical, p.window))
  }

  /** The clear band lies inside the trigger band. */
  ghost predicate Hysteresis(s: Settings) {
    0.0 <= s.clear.usd <= s.below.usd && 0.0 <= s.clear.pct <= s.below.pct && 0.0 <= s.above.usd && 0.0 <= s.above.pct
  }

  /** Whatever the constructor accepts has the clear band inside the trigger band, and it
      refuses only a negative number or a clear band given wider than the trigger band. */
  lemma {:induction false} AcceptedMeansHysteresis(p: Parameters)
    ensures Configure(p).Some? ==> Hysteresis(Configure(p).value) && Configure(p).value.minLogical >= 0.0
    ensures Configure(p).None? <==>
            || p.usd < 0.0 || p.pct < 0.0 || p.minLogical < 0.0 || p.window < 0
            || Negative(p.belowUsd) || Negative(p.belowPct) || Negative(p.aboveUsd) || Negative(p.abovePct)
            || Negative(p.clearUsd) || Negative(p.clearPct)
            || (p.clearUsd.Some? && p.clearUsd.value > Or(p.belowUsd, p.usd))
            || (p.clearPct.Some? && p.clearPct.value > Or(p.belowPct, p.pct))
  {
    SevenTenths(Or(p.belowUsd, p.usd));
    SevenTenths(Or(p.belowPct, p.pct));
  }

  lemma {:induction false} SevenTenths(x: real)
    ensures x >= 0.0 ==> 0.0 <= x * 0.7 <= x
  {
  }

  // ---------------------------------------------------------------- one tick

  /** The broker's equity is None if it has none to report or raises. */
  datatype Tick = Tick(logical: real, broker: Option<real>)

  datatype Reason = NoBrokerData | WithinTolerance | BrokerBelow | BrokerAbove

  datatype Transition = Stable | Entered | Exited

  datatype State = State(latched: bool, entries: nat, exits: nat, total: nat, noData: nat, within: nat, outside: nat,
                         maxDrift: real, window: seq<real>, windowedMax: real)

  const INITIAL := State(false, 0, 0, 0, 0, 0, 0, 0.0, [], 0.0)

  datatype Result = Result(drift: Option<real>, pct: Option<real>, inTolerance: bool, reason: Reason, inDrift: bool,
                           transition: Transition)

  function MaxOf(xs: seq<real>): real
    requires |xs| > 0
  {
    if |xs| == 1 then xs[0] else Max(MaxOf(xs[..|xs| - 1]), xs[|xs| - 1])
  }

  /** The last w of a list. */
  function Last(xs: seq<real>, w: nat): seq<real> { if |xs| <= w then xs else xs[|xs| - w..] }

  predicate Real(s: Settings, t: Tick) { t.logical >= s.minLogical && t.broker.Some? }

  function Drift(t: Tick): real
    requires t.broker.Some?
  {
    t.logical - t.broker.value
  }

  function Share(t: Tick): real
    requires t.broker.Some? && t.logical > 0.0
  {
    Abs(Drift(t)) / Abs(t.logical)
  }

  function ReasonOf(s: Settings, t: Tick): Reason
    requires s.minLogical > 0.0
  {
    if !Real(s, t) then NoBrokerData
    else
      var band := if Drift(t) >= 0.0 then s.below else s.above;
      if Abs(Drift(t)) <= band.usd && Share(t) <= band.pct then WithinTolerance
      else if Drift(t) > 0.0 then BrokerBelow
      else BrokerAbove
  }

  /** Whether a tick ends a drift: the broker is above, or the drift is in the clear band. */
  predicate Clears(s: Settings, t: Tick)
    requires s.minLogical > 0.0
  {
    Real(s, t) && (Drift(t) < 0.0 || (Abs(Drift(t)) <= s.clear.usd && Share(t) <= s.clear.pct))
  }

  lemma {:induction false} ShareAtMost(t: Tick, limit: real)
    requires t.broker.Some? && t.logical > 0.0
    ensures Share(t) <= limit <==> Abs(Drift(t)) <= limit * t.logical
  {
    var q, k := Share(t), t.logical;
    assert q * k == Abs(Drift(t));
    assert (q - limit) * k == Abs(Drift(t)) - limit * k;
    SignOf(q - limit, k);
  }

  /** How far the broker is below, as a signed amount, decides the reason: it is below when
      either bound of the below band is exceeded, above when either bound of the above band
      is, and within tolerance otherwise. */
  lemma {:induction false} ReasonIff(s: Settings, t: Tick)
    requires s.minLogical > 0.0 && Hysteresis(s) && Real(s, t)
    ensures ReasonOf(s, t) == BrokerBelow <==> Drift(t) > s.below.usd || Drift(t) > s.below.pct * t.logical
    ensures ReasonOf(s, t) == BrokerAbove <==> -Drift(t) > s.above.usd || -Drift(t) > s.above.pct * t.logical
  {
    ShareAtMost(t, s.below.pct);
    ShareAtMost(t, s.above.pct);
    Product(s.below.pct, t.logical);
    Product(s.above.pct, t.logical);
    hide Share;
  }

  /** A drift ends exactly when the broker is at most the clear band below. */
  lemma {:induction false} ClearsIff(s: Settings, t: Tick)
    requires s.minLogical > 0.0 && Hysteresis(s) && Real(s, t)
    ensures Clears(s, t) <==> Drift(t) <= s.clear.usd && Drift(t) <= s.clear.pct * t.logical
  {
    ShareAtMost(t, s.clear.pct);
    Product(s.clear.pct, t.logical);
    hide Share;
  }

  function TransitionOf(s: Settings, latched: bool, t: Tick): Transition
    requires s.minLogical > 0.0
  {
    if !latched && ReasonOf(s, t) == BrokerBelow then Entered
    else if latched && Clears(s, t) then Exited
    else Stable
  }

  function After(s: Settings, st: State, t: Tick): State
    requires s.minLogical > 0.0
  {
    if !Real(s, t) then st.(total := st.total + 1, noData := st.noData + 1)
    else
      var step, reason := TransitionOf(s, st.latched, t), ReasonOf(s, t);
      var window := if s.window > 0 then Last(st.window + [Abs(Drift(t))], s.window) else st.window;
      State(if step == Entered then true else if step == Exited then false else st.latched,
            if step == Entered then st.entries + 1 else st.entries,
            if step == Exited then st.exits + 1 else st.exits,
            st.total + 1, st.noData,
            if reason == WithinTolerance then st.within + 1 else st.within,
            if reason == WithinTolerance then st.outside else st.outside + 1,
            Max(st.maxDrift, Abs(Drift(t))),
            window,
            if s.window > 0 then MaxOf(window) else st.windowedMax)
  }

  function ResultOf(s: Settings, st: State, t: Tick): Result
    requires s.minLogical > 0.0
  {
    if !Real(s, t) then Result(None, None, true, NoBrokerData, st.latched, Stable)
    else Result(Some(Drift(t)), Some(Share(t)), ReasonOf(s, t) == WithinTolerance, ReasonOf(s, t),
                After(s, st, t).latched,
                TransitionOf(s, st.latched, t))
  }

  function Run(s: Settings, ticks: seq<Tick>): State
    requires s.minLogical > 0.0
  {
    if |ticks| == 0 then INITIAL else After(s, Run(s, ticks[..|ticks| - 1]), ticks[|ticks| - 1])
  }

  /** What a tick reports: the drift, its share of the logical equity, and the reason. */
  lemma {:induction false} ResultTells(s: Settings, st: State, t: Tick)
    requires s.minLogical > 0.0
    ensures var r := ResultOf(s, st, t);
            if t.broker.None? || t.logical < s.minLogical then
              r.drift == None && r.pct == None && r.reason == NoBrokerData && r.inTolerance
            else
              && r.drift == Some(t.logical - t.broker.value) && r.pct.Some?
              && r.pct.value * t.logical == Abs(t.logical - t.broker.value)
              && r.reason == ReasonOf(s, t) && (r.inTolerance <==> r.reason == WithinTolerance)
  {
    hide ReasonOf, After, TransitionOf;
    if Real(s, t) {
      var k := Abs(t.logical);
      assert k == t.logical;
      assert Abs(Drift(t)) / k * k == Abs(Drift(t));
    }
  }

  // ---------------------------------------------------------------- the counters

  /** The three outcomes make up the total, and entries exceed exits by one exactly while
      the latch is set. */
  lemma {:induction false} CountersBalance(s: Settings, ticks: seq<Tick>)
    requires s.minLogical > 0.0
    ensures var st := Run(s, ticks);
            && st.total == |ticks| == st.noData + st.within + st.outside
            && st.entries == st.exits + if st.latched then 1 else 0
  {
    if |ticks| > 0 {
      CountersBalance(s, ticks[..|ticks| - 1]);
      hide ReasonOf, Clears, MaxOf, Last;
    }
  }

  /** The entries and exits of a run, in order. */
  function Changes(s: Settings, ticks: seq<Tick>): seq<Transition>
    requires s.minLogical > 0.0
  {
    if |ticks| == 0 then []
    else
      var before := ticks[..|ticks| - 1];
      var step := ResultOf(s, Run(s, before), ticks[|ticks| - 1]).transition;
      Changes(s, before) + if step == Stable then [] else [step]
  }

  ghost predicate Alternates(changes: seq<Transition>) {
    forall i :: 0 <= i < |changes| ==> changes[i] == if i % 2 == 0 then Entered else Exited
  }

  /** Entries and exits alternate, starting with an entry. */
  lemma {:induction false} ChangesAlternate(s: Settings, ticks: seq<Tick>)
    requires s.minLogical > 0.0
    ensures Alternates(Changes(s, ticks))
    ensures Run(s, ticks).latched <==> |Changes(s, ticks)| % 2 == 1
  {
    hide After, ResultOf;
    if |ticks| > 0 {
      var before, t := ticks[..|ticks| - 1], ticks[|ticks| - 1];
      ChangesAlternate(s, before);
      LatchMoves(s, Run(s, before), t);
      AlternatesMore(Changes(s, before), ResultOf(s, Run(s, before), t).transition, Run(s, before).latched);
      assert Run(s, ticks) == After(s, Run(s, before), t);
    } else {
      assert Changes(s, ticks) == [];
    }
  }

  lemma {:induction false} AlternatesMore(changes: seq<Transition>, step: Transition, latched: bool)
    requires Alternates(changes) && (latched <==> |changes| % 2 == 1)
    requires (step == Entered ==> !latched) && (step == Exited ==> latched)
    ensures Alternates(changes + if step == Stable then [] else [step])
    ensures step != Stable ==> (|changes + [step]| % 2 == 1 <==> !latched)
  {
  }

  lemma {:induction false} LatchMoves(s: Settings, st: State, t: Tick)
    requires s.minLogical > 0.0
    ensures var step := ResultOf(s, st, t).transition;
            && (step == Entered ==> !st.latched) && (step == Exited ==> st.latched)
            && After(s, st, t).latched == if step == Entered then true else if step == Exited then false else st.latched
  {
    hide ReasonOf, Clears, MaxOf, Last;
  }

  // ---------------------------------------------------------------- the latch

  /** A tick that trips the latch cannot clear it. */
  lemma {:induction false} BelowNeverClears(s: Settings, t: Tick)
    requires s.minLogical > 0.0 && Hysteresis(s) && ReasonOf(s, t) == BrokerBelow
    ensures !Clears(s, t)
  {
  }

  /** Tick k set the drift off and nothing since has cleared it. */
  ghost predicate DriftSince(s: Settings, ticks: seq<Tick>, k: int)
    requires s.minLogical > 0.0
  {
    0 <= k < |ticks| && ReasonOf(s, ticks[k]) == BrokerBelow && forall j :: k < j < |ticks| ==> !Clears(s, ticks[j])
  }

  /** The latch is set exactly when some tick found the broker below and no tick since has
      cleared: so every such tick ends in the drift state, and ticks without broker data
      change nothing. */
  lemma {:induction false} LatchedIff(s: Settings, ticks: seq<Tick>)
    requires s.minLogical > 0.0 && Hysteresis(s)
    ensures Run(s, ticks).latched <==> exists k :: DriftSince(s, ticks, k)
  {
    if |ticks| > 0 {
      var before, t := ticks[..|ticks| - 1], ticks[|ticks| - 1];
      LatchedIff(s, before);
      if ReasonOf(s, t) == BrokerBelow { BelowNeverClears(s, t); }
      LatchStep(s, Run(s, before), t);
      hide ReasonOf, Clears, After;
      if ReasonOf(s, t) == BrokerBelow {
        assert DriftSince(s, ticks, |ticks| - 1);
      }
      if exists k :: DriftSince(s, before, k) {
        var k :| DriftSince(s, before, k);
        assert !Clears(s, t) ==> DriftSince(s, ticks, k);
      }
      if exists k :: DriftSince(s, ticks, k) {
        var k :| DriftSince(s, ticks, k);
        assert k < |before| ==> DriftSince(s, before, k) && !Clears(s, ticks[|ticks| - 1]);
      }
    }
  }

  lemma {:induction false} LatchStep(s: Settings, st: State, t: Tick)
    requires s.minLogical > 0.0
    ensures After(s, st, t).latched <==> if st.latched then !Clears(s, t) else ReasonOf(s, t) == BrokerBelow
  {
    hide MaxOf, Last;
  }

  // ---------------------------------------------------------------- the maxima

  /** The sizes of the drifts seen, leaving out ticks without broker data. */
  function Drifts(s: Settings, ticks: seq<Tick>): seq<real> {
    if |ticks| == 0 then []
    else Drifts(s, ticks[..|ticks| - 1]) + if Real(s, ticks[|ticks| - 1]) then [Abs(Drift(ticks[|ticks| - 1]))] else []
  }

  ghost predicate IsMax(xs: seq<real>, m: real) {
    m in xs && forall x :: x in xs ==> x <= m
  }

  lemma {:induction false} MaxOfIsMax(xs: seq<real>)
    requires |xs| > 0
    ensures IsMax(xs, MaxOf(xs))
  {
    if |xs| > 1 {
      MaxOfIsMax(xs[..|xs| - 1]);
      assert xs == xs[..|xs| - 1] + [xs[|xs| - 1]];
    }
  }

  lemma {:induction false} LastExtends(xs: seq<real>, x: real, w: nat)
    ensures Last(Last(xs, w) + [x], w) == Last(xs + [x], w)
  {
  }

  lemma {:induction false} DriftsStep(s: Settings, ticks: seq<Tick>)
    requires |ticks| > 0
    ensures var before, t := Drifts(s, ticks[..|ticks| - 1]), ticks[|ticks| - 1];
            Drifts(s, ticks) == if Real(s, t) then before + [Abs(Drift(t))] else before
  {
  }

  /** The window holds the last W real drifts and its maximum is theirs. */
  lemma {:induction false} WindowIsExact(s: Settings, ticks: seq<Tick>)
    requires s.minLogical > 0.0
    ensures Run(s, ticks).window == if s.window > 0 then Last(Drifts(s, ticks), s.window) else []
    ensures s.window > 0 && |Drifts(s, ticks)| > 0
            ==> IsMax(Last(Drifts(s, ticks), s.window), Run(s, ticks).windowedMax)
  {
    if |ticks| > 0 {
      var before, t := ticks[..|ticks| - 1], ticks[|ticks| - 1];
      DriftsStep(s, ticks);
      hide Last, IsMax, MaxOf, After, Abs, Max, Drift, Drifts, Real;
      WindowIsExact(s, before);
      MaximaStep(s, Run(s, before), t);
      if Real(s, t) {
        LastExtends(Drifts(s, before), Abs(Drift(t)), s.window);
        WindowMax(Drifts(s, before) + [Abs(Drift(t))], s.window);
      }
    }
  }

  /** The lifetime maximum is that of all real drifts, 0 before the first. */
  lemma {:induction false} LifetimeMaxIsExact(s: Settings, ticks: seq<Tick>)
    requires s.minLogical > 0.0
    ensures if |Drifts(s, ticks)| == 0 then Run(s, ticks).maxDrift == 0.0
            else IsMax(Drifts(s, ticks), Run(s, ticks).maxDrift)
  {
    if |ticks| > 0 {
      var before, t := ticks[..|ticks| - 1], ticks[|ticks| - 1];
      DriftsStep(s, ticks);
      hide Last, IsMax, MaxOf, After, Abs, Max, Drift, Drifts, Real;
      LifetimeMaxIsExact(s, before);
      MaximaStep(s, Run(s, before), t);
      if Real(s, t) {
        AbsNonnegative(Drift(t));
        MaxGrows(Drifts(s, before), Abs(Drift(t)), Run(s, before).maxDrift);
      }
    }
  }

  lemma {:induction false} AbsNonnegative(x: real)
    ensures Abs(x) >= 0.0
  {
  }

  lemma {:induction false} WindowMax(xs: seq<real>, w: nat)
    requires |xs| > 0
    ensures w > 0 ==> |Last(xs, w)| > 0 && IsMax(Last(xs, w), MaxOf(Last(xs, w)))
  {
    if w > 0 {
      MaxOfIsMax(Last(xs, w));
    }
  }

  lemma {:induction false} MaximaStep(s: Settings, st: State, t: Tick)
    requires s.minLogical > 0.0
    ensures !Real(s, t) ==> After(s, st, t).window == st.window && After(s, st, t).windowedMax == st.windowedMax
                            && After(s, st, t).maxDrift == st.maxDrift
    ensures Real(s, t) ==>
              && After(s, st, t).maxDrift == Max(st.maxDrift, Abs(Drift(t)))
              && After(s, st, t).window == (if s.window > 0 then Last(st.window + [Abs(Drift(t))], s.window)
                                            else st.window)
              && (s.window > 0 ==> After(s, st, t).windowedMax == MaxOf(After(s, st, t).window))
  {
    hide MaxOf, Last, TransitionOf, ReasonOf, Abs, Max;
  }

  lemma {:induction false} MaxGrows(xs: seq<real>, x: real, m: real)
    requires x >= 0.0 && (if |xs| == 0 then m == 0.0 else IsMax(xs, m))
    ensures IsMax(xs + [x], Max(m, x))
  {
  }

  // ---------------------------------------------------------------- the reconciler

  class BrokerEquityReconciler {
    const settings: Settings
    var checksTotal: nat
    var checksNoData: nat
    var checksInTolerance: nat
    var checksOutOfTolerance: nat
    var maxDrift: real
    var entries: nat
    var exits: nat
    var windowedMax: real
    var driftWindow: seq<real>
    var inDriftState: bool

    constructor (settings: Settings)
      requires Hysteresis(settings) && settings.minLogical > 0.0
      ensures this.settings == settings && View() == INITIAL
    {
      this.settings := settings;
      checksTotal, checksNoData, checksInTolerance, checksOutOfTolerance := 0, 0, 0, 0;
      maxDrift, windowedMax, entries, exits, driftWindow, inDriftState := 0.0, 0.0, 0, 0, [], false;
    }

    ghost function View(): State
      reads this
    {
      State(inDriftState, entries, exits, checksTotal, checksNoData, checksInTolerance, checksOutOfTolerance,
            maxDrift, driftWindow, windowedMax)
    }

    method Reconcile(t: Tick) returns (r: Result)
      requires settings.minLogical > 0.0
      modifies this
      ensures View() == After(settings, old(View()), t)
      ensures r == ResultOf(settings, old(View()), t)
    {
      hide MaxOf, Last, ReasonOf, TransitionOf, Max, Hysteresis;
      checksTotal := checksTotal + 1;
      if t.logical < settings.minLogical || t.broker.None? {
        checksNoData := checksNoData + 1;
        return Result(None, None, true, NoBrokerData, inDriftState, Stable);
      }
      var drift := t.logical - t.broker.value;
      var size := Abs(drift);
      var pct := size / Abs(t.logical);
      assert drift == Drift(t) && pct == Share(t);
      hide Abs, Drift, Share;
      var reason := Classify(t, drift, size, pct);
      if reason == WithinTolerance {
        checksInTolerance := checksInTolerance + 1;
      } else {
        checksOutOfTolerance := checksOutOfTolerance + 1;
      }
      maxDrift := Max(maxDrift, size);
      if settings.window > 0 {
        driftWindow := Last(driftWindow + [size], settings.window);
        LastIsNonempty(old(driftWindow) + [size], settings.window);
        windowedMax := MaxOf(driftWindow);
      }
      var transition := MoveLatch(t, drift, size, pct, reason);
      r := Result(Some(drift), Some(pct), reason == WithinTolerance, reason, inDriftState, transition);
    }

    method Classify(t: Tick, drift: real, size: real, pct: real) returns (reason: Reason)
      requires settings.minLogical > 0.0 && Real(settings, t) && drift == Drift(t) && size == Abs(drift)
               && pct == Share(t)
      ensures reason == ReasonOf(settings, t)
    {
      hide Share;
      var band := if drift >= 0.0 then settings.below else settings.above;
      var exceeds := size > band.usd || pct > band.pct;
      if !exceeds {
        reason := WithinTolerance;
      } else if drift > 0.0 {
        reason := BrokerBelow;
      } else {
        reason := BrokerAbove;
      }
    }

    method MoveLatch(t: Tick, drift: real, size: real, pct: real, reason: Reason) returns (transition: Transition)
      requires settings.minLogical > 0.0 && Real(settings, t) && drift == Drift(t) && size == Abs(drift)
               && pct == Share(t)
      requires reason == ReasonOf(settings, t)
      modifies this`inDriftState, this`entries, this`exits
      ensures transition == TransitionOf(settings, old(inDriftState), t)
      ensures inDriftState
              == if transition == Entered then true else if transition == Exited then false else old(inDriftState)
      ensures entries == old(entries) + if transition == Entered then 1 else 0
      ensures exits == old(exits) + if transition == Exited then 1 else 0
    {
      hide ReasonOf, Share, Abs;
      transition := Stable;
      if !inDriftState {
        if reason == BrokerBelow {
          inDriftState, entries, transition := true, entries + 1, Entered;
        }
      } else if drift < 0.0 || (size <= settings.clear.usd && pct <= settings.clear.pct) {
        inDriftState, exits, transition := false, exits + 1, Exited;
      }
    }
  }

  lemma {:induction false} LastIsNonempty(xs: seq<real>, w: nat)
    requires |xs| > 0 && w > 0
    ensures |Last(xs, w)| > 0
  {
  }
}
