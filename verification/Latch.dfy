/** The durable latch on top of the kill switch: a small file, replaced atomically, that
    survives crashes.  One writer; a crash may come between any two disk steps. */
module Latch {
  import opened Options
  import opened Texts
  import K = KillSwitch

  datatype State = Armed | Tripped

  /** What a trip leaves for the post-mortem. */
  datatype Audit = Audit(at: Option<string>, action: Option<string>, scope: Option<K.Scope>,
                         severity: Option<K.Severity>,
                         evidence: K.Evidence)

  const NO_AUDIT := Audit(None, None, None, None, K.NoEvidence)

  datatype Record = Record(state: State, audit: Audit, clearedAt: Option<string>, clearedBy: Option<string>)

  /** The object in the file: as a record, but the state is whatever text is there. */
  datatype Object = Object(state: Option<string>, audit: Audit, clearedAt: Option<string>, clearedBy: Option<string>)

  /** A file is missing, unreadable or not an object, an object whose evidence is neither empty
      nor anything a dictionary can be made of (a number other than 0, say), or any other
      object: a missing, null, zero or empty evidence and a list of pairs read well. */
  datatype File = Absent | Garbage | Malformed | Holds(content: Object)

  const ARMED := Record(Armed, NO_AUDIT, None, None)

  const CORRUPT_LATCH := "CORRUPT_LATCH"

  function ActionName(a: K.Action): string {
    match a
    case Continue => "CONTINUE"
    case HalveSize => "HALVE_SIZE"
    case PauseNewEntries => "PAUSE_NEW_ENTRIES"
    case FlattenBot => "FLATTEN_BOT"
    case FlattenTierB => "FLATTEN_TIER_B"
    case FlattenAll => "FLATTEN_ALL"
    case FlattenTierAPreemptive => "FLATTEN_TIER_A_PREEMPTIVE"
  }

  function StateName(s: State): string { if s.Armed? then "ARMED" else "TRIPPED" }

  function ToDict(r: Record): Object {
    Object(Some(StateName(r.state)), r.audit, r.clearedAt, r.clearedBy)
  }

  /** Any state but "TRIPPED", or none, reads as armed. */
  function FromDict(o: Object): Record {
    Record(if o.state == Some("TRIPPED") then Tripped else Armed, o.audit, o.clearedAt, o.clearedBy)
  }

  lemma {:induction false} DictRoundTrip(r: Record)
    ensures FromDict(ToDict(r)) == r
  {
    assert "ARMED" != "TRIPPED";
  }

  /** What reading the file gives, None where it raises: only the parse is guarded, not the
      conversion of the evidence. */
  function Read(f: File, now: string): Option<Record> {
    match f
    case Absent => Some(ARMED)
    case Garbage =>
      var audit := Audit(Some(now), Some(CORRUPT_LATCH), Some(K.Global), Some(K.Critical), K.NoEvidence);
      Some(Record(Tripped, audit, None, None))
    case Malformed => None
    case Holds(o) => Some(FromDict(o))
  }

  datatype Boot = Allowed | Refused | Raised

  function BootGate(f: File): Boot {
    match Read(f, "")
    case None => Raised
    case Some(r) => if r.state == Tripped then Refused else Allowed
  }

  predicate BootAllowed(f: File) { BootGate(f) == Allowed }

  /** The boot gate refuses exactly the unreadable file and the object marked TRIPPED, and
      raises on malformed evidence.  So it fails closed on garbage, but not on a deleted file
      nor on an unknown state. */
  lemma {:induction false} BootRefusedIff(f: File, now: string)
    ensures BootGate(f) == Refused <==> f.Garbage? || (f.Holds? && f.content.state == Some("TRIPPED"))
    ensures BootGate(f) == Raised <==> f.Malformed?
    ensures BootAllowed(f) <==> Read(f, now).Some? && Read(f, now).value.state == Armed
    ensures BootAllowed(Absent) && BootAllowed(Holds(Object(Some("tripped"), NO_AUDIT, None, None)))
  {
    assert "tripped"[0] != "TRIPPED"[0];
  }

  // ---------------------------------------------------------------- what is written

  function TripOf(v: K.Verdict, now: string): Object {
    ToDict(Record(Tripped, Audit(Some(now), Some(ActionName(v.action)), Some(v.scope), Some(v.severity), v.evidence),
                  None, None))
  }

  function ClearOf(prior: Record, who: string, now: string): Object {
    var audit := if prior.audit.action == Some(CORRUPT_LATCH) then NO_AUDIT else prior.audit;
    ToDict(Record(Armed, audit, Some(now), Some(Strip(who))))
  }

  /** What recording a verdict will write, None if nothing. */
  function Wants(f: File, v: K.Verdict, now: string): Option<Object> {
    if K.Latching(v.action) && BootAllowed(f) then Some(TripOf(v, now)) else None
  }

  lemma {:induction false} ActionNamesDiffer(a: K.Action, b: K.Action)
    ensures ActionName(a) == ActionName(b) ==> a == b
  {
    assert "FLATTEN_BOT"[8] != "FLATTEN_ALL"[8];
    assert |ActionName(a)| == |ActionName(b)| ==> a == b || ActionName(a)[8] != ActionName(b)[8];
  }

  /** The record of a trip tells the whole verdict, and when: no two trips read alike. */
  lemma {:induction false} TripTellsVerdict(v: K.Verdict, now: string, w: K.Verdict, later: string)
    ensures Read(Holds(TripOf(v, now)), later) == Read(Holds(TripOf(w, later)), now) ==> v == w && now == later
    ensures BootGate(Holds(TripOf(v, now))) == Refused
  {
    ActionNamesDiffer(v.action, w.action);
    hide ActionName;
  }

  // ---------------------------------------------------------------- disk steps

  /** Where the one writer is: the object it is to write, and whether that is a clear. */
  datatype Writer =
    | Idle
    | Opening(content: Object, clearing: bool)
    | Writing(content: Object, clearing: bool)
    | Replacing(content: Object, clearing: bool)

  datatype System = System(final: File, tmp: File, writer: Writer)

  /** Calls, the writer's next disk step, or a crash of the process. */
  datatype Event = RecordVerdict(v: K.Verdict, now: string) | Clear(who: string, now: string) | Advance | Crash

  function Advanced(s: System): System {
    match s.writer
    case Idle => s
    case Opening(o, c) => System(s.final, Garbage, Writing(o, c))
    case Writing(o, c) => System(s.final, Holds(o), Replacing(o, c))
    case Replacing(_, _) => System(s.tmp, Absent, Idle)
  }

  /** A call waits until the writer is idle; until then it changes nothing. */
  function Next(s: System, e: Event): System {
    match e
    case Crash => s.(writer := Idle)
    case Advance => Advanced(s)
    case RecordVerdict(v, now) =>
      if s.writer.Idle? && Wants(s.final, v, now).Some? then s.(writer := Opening(Wants(s.final, v, now).value, false))
      else s
    case Clear(who, now) =>
      if s.writer.Idle? && |Strip(who)| > 0 && Read(s.final, now).Some? then
        s.(writer := Opening(ClearOf(Read(s.final, now).value, who, now), true))
      else s
  }

  function Run(s: System, events: seq<Event>): System {
    if |events| == 0 then s else Next(Run(s, events[..|events| - 1]), events[|events| - 1])
  }

  ghost predicate Valid(s: System) {
    && (s.writer.Replacing? ==> s.tmp == Holds(s.writer.content))
    && (!s.writer.Idle? && s.writer.clearing ==> s.writer.content.state == Some("ARMED"))
    && (!s.writer.Idle? && !s.writer.clearing ==> s.writer.content.state == Some("TRIPPED") && BootAllowed(s.final))
  }

  lemma {:induction false} NextValid(s: System, e: Event)
    requires Valid(s)
    ensures Valid(Next(s, e))
  {
    hide Strip, ActionName;
  }

  /** Whatever happens, the final path holds the old content or, after the replace step, the
      complete new object: never the half-written one. */
  lemma {:induction false} FinalIsOldOrNew(s: System, e: Event)
    requires Valid(s)
    ensures Next(s, e).final == s.final
            || (e == Advance && s.writer.Replacing? && Next(s, e).final == Holds(s.writer.content))
  {
  }

  /** Over any run with crashes the final path holds what was there before or an object this
      program wrote: garbage or malformed evidence there is never its doing. */
  lemma {:induction false} NeverWritesGarbage(s: System, events: seq<Event>)
    requires Valid(s)
    ensures Valid(Run(s, events)) && (Run(s, events).final == s.final || Run(s, events).final.Holds?)
  {
    if |events| > 0 {
      NeverWritesGarbage(s, events[..|events| - 1]);
      var before := Run(s, events[..|events| - 1]);
      NextValid(before, events[|events| - 1]);
      FinalIsOldOrNew(before, events[|events| - 1]);
      hide Next, Valid;
    }
  }

  ghost predicate ClearCompletes(s: System, e: Event) {
    e == Advance && s.writer.Replacing? && s.writer.clearing
  }

  ghost predicate NoClearCompletes(s: System, events: seq<Event>) {
    |events| == 0
    || (NoClearCompletes(s, events[..|events| - 1])
        && !ClearCompletes(Run(s, events[..|events| - 1]), events[|events| - 1]))
  }

  /** While the boot gate refuses, only a completed clear changes the file: the first trip's
      record stays, through further verdicts, clears that never finish, and crashes. */
  lemma {:induction false} FirstTripStays(s: System, events: seq<Event>)
    requires Valid(s) && !BootAllowed(s.final) && NoClearCompletes(s, events)
    ensures Valid(Run(s, events)) && Run(s, events).final == s.final && !BootAllowed(Run(s, events).final)
  {
    if |events| > 0 {
      FirstTripStays(s, events[..|events| - 1]);
      var before := Run(s, events[..|events| - 1]);
      NextValid(before, events[|events| - 1]);
      FinalIsOldOrNew(before, events[|events| - 1]);
      hide Next, BootAllowed;
    }
  }

  /** The three disk steps of one write, the first k of them. */
  function Steps(s: System, k: nat): System
    requires k <= 3
  {
    if k == 0 then s else Advanced(Steps(s, k - 1))
  }

  /** A latching verdict on an armed latch: after all three disk steps the trip is in the
      file and boot is refused; a crash before the last one leaves the file as it was. */
  lemma {:induction false} TripDurableIffReplaced(s: System, v: K.Verdict, now: string, k: nat)
    requires s.writer.Idle? && K.Latching(v.action) && BootAllowed(s.final) && k <= 3
    ensures var after := Next(Steps(Next(s, RecordVerdict(v, now)), k), Crash);
            && after.final == (if k == 3 then Holds(TripOf(v, now)) else s.final)
            && (BootAllowed(after.final) <==> k < 3)
            && after.writer == Idle
  {
    var s0 := Next(s, RecordVerdict(v, now));
    var s1 := Advanced(s0);
    var s2 := Advanced(s1);
    var s3 := Advanced(s2);
    assert Steps(s0, 0) == s0 && Steps(s0, 1) == s1;
    assert Steps(s0, 2) == s2;
    assert Steps(s0, 3) == s3;
    hide Steps;
    assert "ARMED" != "TRIPPED";
  }

  /** A completed clear re-arms the latch and keeps the last trip's audit trail, unless the
      file was unreadable; the next latching verdict then trips it again.  On malformed
      evidence a clear raises and writes nothing, so the file must be repaired by hand. */
  lemma {:induction false} ClearRearms(s: System, who: string, now: string)
    requires s.writer.Idle? && |Strip(who)| > 0
    ensures s.final.Malformed? ==> Next(s, Clear(who, now)) == s
    ensures !s.final.Malformed? ==>
              var after, audit := Steps(Next(s, Clear(who, now)), 3), Read(s.final, now).value.audit;
              && BootAllowed(after.final) && after.writer.Idle? && after.final.Holds?
              && after.final.content.audit == (if audit.action == Some(CORRUPT_LATCH) then NO_AUDIT else audit)
              && after.final.content.clearedBy == Some(Strip(who))
              && (forall v: K.Verdict, t :: K.Latching(v.action) ==> Wants(after.final, v, t) == Some(TripOf(v, t)))
  {
    hide Strip;
    var s0 := Next(s, Clear(who, now));
    var s1 := Advanced(s0);
    var s2 := Advanced(s1);
    var s3 := Advanced(s2);
    assert Steps(s0, 1) == s1;
    assert Steps(s0, 2) == s2;
    assert Steps(s0, 3) == s3;
    hide Steps;
    assert "ARMED" != "TRIPPED";
  }

  // ---------------------------------------------------------------- a tick's verdicts

  /** The file after recording every verdict of a list, each write running to its end. */
  function AfterAll(f: File, verdicts: seq<K.Verdict>, now: string): File {
    if |verdicts| == 0 then f
    else
      var g := AfterAll(f, verdicts[..|verdicts| - 1], now);
      var w := Wants(g, verdicts[|verdicts| - 1], now);
      if w.Some? then Holds(w.value) else g
  }

  lemma {:induction false} LastOfFirst(verdicts: seq<K.Verdict>)
    requires |verdicts| > 0
    ensures var before, last := verdicts[..|verdicts| - 1], verdicts[|verdicts| - 1];
            K.FirstLatching(verdicts) == if K.FirstLatching(before).Some? then K.FirstLatching(before)
                                         else if K.Latching(last.action) then Some(last) else None
  {
    var before, last := verdicts[..|verdicts| - 1], [verdicts[|verdicts| - 1]];
    assert verdicts == before + last;
    K.FirstOfTwo(before, last);
  }

  /** Recording a list of verdicts stores the first that latches, if the latch was armed. */
  lemma {:induction false} FirstTripWins(f: File, verdicts: seq<K.Verdict>, now: string)
    ensures var first := K.FirstLatching(verdicts);
            AfterAll(f, verdicts, now) == if BootAllowed(f) && first.Some? then Holds(TripOf(first.value, now)) else f
  {
    if |verdicts| > 0 {
      FirstTripWins(f, verdicts[..|verdicts| - 1], now);
      LastOfFirst(verdicts);
      assert forall v :: !BootAllowed(Holds(TripOf(v, now)));
      hide K.FirstLatching, TripOf, BootAllowed;
    }
  }

  /** An armed latch fed all of a tick's verdicts trips if and only if the portfolio, the apex
      cushion or the correlations are in breach, and stores the verdict that tells the first of
      these in that order. */
  lemma {:induction false} ArmedTickTripsIff(f: File, c: K.Config, t: K.Tick, now: string)
    requires BootAllowed(f)
    ensures var after := AfterAll(f, K.Evaluated(c, t), now);
            && (!BootAllowed(after)
                <==> K.GlobalBreach(c, t.portfolio) || K.ApexBreach(c, t) || K.CorrelationBreach(c, t))
            && (BootAllowed(after) ==> after == f)
            && (!BootAllowed(after) ==> exists v :: K.Leads(c, t, Some(v)) && after == Holds(TripOf(v, now)))
  {
    FirstTripWins(f, K.Evaluated(c, t), now);
    K.TickLatches(c, t);
    var first := K.FirstLatching(K.Evaluated(c, t));
    assert forall v :: !BootAllowed(Holds(TripOf(v, now)));
    hide K.Evaluated, TripOf, BootAllowed, K.FirstLatching, K.GlobalBreach, K.ApexBreach, K.CorrelationBreach;
    if first.Some? {
      assert K.Leads(c, t, Some(first.value));
    }
  }

  // ---------------------------------------------------------------- the latch object

  /** The disk as one process sees it, between crashes. */
  class KillSwitchLatch {
    var final: File
    var tmp: File

    constructor (final: File, tmp: File)
      ensures this.final == final && this.tmp == tmp
    {
      this.final, this.tmp := final, tmp;
    }

    ghost function View(): System
      reads this
    {
      System(final, tmp, Idle)
    }

    method WriteAtomic(payload: Object)
      modifies this
      ensures final == Holds(payload) && tmp == Absent
      ensures View() == Steps(System(old(final), old(tmp), Opening(payload, true)), 3)
      ensures View() == Steps(System(old(final), old(tmp), Opening(payload, false)), 3)
    {
      tmp := Garbage;
      tmp := Holds(payload);
      final, tmp := tmp, Absent;
      ThreeSteps(old(final), old(tmp), payload);
    }

    /** Records a verdict; true if this call tripped the latch, None if it raises. */
    method Record(v: K.Verdict, now: string) returns (latched: Option<bool>)
      modifies this
      ensures latched == Some(true) <==> K.Latching(v.action) && BootAllowed(old(final))
      ensures latched == None <==> K.Latching(v.action) && old(final).Malformed?
      ensures latched == Some(true) ==>
                final == Holds(TripOf(v, now)) && View() == Steps(Next(old(View()), RecordVerdict(v, now)), 3)
      ensures latched != Some(true) ==> View() == old(View())
    {
      if !K.Latching(v.action) {
        return Some(false);
      }
      var existing := Read(final, now);
      BootRefusedIff(final, now);
      if existing.None? {
        return None;
      }
      if existing.value.state == Tripped {
        return Some(false);
      }
      hide Steps, TripOf, BootAllowed;
      WriteAtomic(TripOf(v, now));
      latched := Some(true);
    }

    /** The operator's reset; raises without a name or on malformed evidence. */
    method ClearBy(who: string, now: string) returns (r: Option<Record>)
      modifies this
      ensures r == None <==> |Strip(who)| == 0 || old(final).Malformed?
      ensures r == None ==> View() == old(View())
      ensures r.Some? ==>
                final == Holds(ClearOf(Read(old(final), now).value, who, now)) && r == Some(FromDict(final.content))
      ensures r.Some? ==> View() == Steps(Next(old(View()), Clear(who, now)), 3)
    {
      if |Strip(who)| == 0 {
        return None;
      }
      var prior := Read(final, now);
      if prior.None? {
        return None;
      }
      hide Steps, Strip;
      var payload := ClearOf(prior.value, who, now);
      WriteAtomic(payload);
      r := Some(FromDict(payload));
    }

    /** Record every verdict of a tick, in order. */
    method Feed(verdicts: seq<K.Verdict>, now: string)
      modifies this
      ensures final == AfterAll(old(final), verdicts, now)
    {
      hide TripOf, BootAllowed;
      for i := 0 to |verdicts|
        invariant final == AfterAll(old(final), verdicts[..i], now)
      {
        assert verdicts[..i + 1][..i] == verdicts[..i];
        var _ := Record(verdicts[i], now);
      }
      assert verdicts[..|verdicts|] == verdicts;
    }
  }

  lemma {:induction false} ThreeSteps(final: File, tmp: File, payload: Object)
    ensures forall c :: Steps(System(final, tmp, Opening(payload, c)), 3) == System(Holds(payload), Absent, Idle)
  {
    forall c ensures Steps(System(final, tmp, Opening(payload, c)), 3) == System(Holds(payload), Absent, Idle) {
      var s := System(final, tmp, Opening(payload, c));
      assert Steps(s, 1) == System(final, Garbage, Writing(payload, c));
      assert Steps(s, 2) == System(final, Holds(payload), Replacing(payload, c));
    }
  }
}
