/** The response cache: least recently used entries go first, and an entry lives for one of
    two times-to-live, the shorter for empty responses.  A run of lookups and stores is
    compared with what an observer of the requests alone can say. */
module FmCache {
  import opened Options
  import opened Texts

  datatype Response = Response(text: string, costUsd: real)

  datatype Entry = Entry(key: string, at: real, value: Response)

  datatype Settings = Settings(positiveTtl: real, negativeTtl: real, capacity: int) {
    predicate Disabled() { positiveTtl <= 0.0 && negativeTtl <= 0.0 }

    function Ttl(r: Response): real {
      if |Strip(r.text)| == 0 then negativeTtl else positiveTtl
    }

    predicate Expired(e: Entry, now: real) {
      Ttl(e.value) <= 0.0 || now - e.at > Ttl(e.value)
    }
  }

  /** Entries with the least recently touched first. */
  type Entries = seq<Entry>

  // ---------------------------------------------------------------- one request

  function Find(d: Entries, key: string): (i: nat)
    ensures i <= |d|
    ensures i < |d| ==> d[i].key == key
    ensures forall j :: 0 <= j < i ==> d[j].key != key
  {
    if |d| == 0 || d[0].key == key then 0 else 1 + Find(d[1..], key)
  }

  predicate Has(d: Entries, key: string) { Find(d, key) < |d| }

  function Without(d: Entries, key: string): Entries {
    if Has(d, key) then d[..Find(d, key)] + d[Find(d, key) + 1..] else d
  }

  function Newest(capacity: nat, d: Entries): Entries {
    if |d| <= capacity then d else d[|d| - capacity..]
  }

  /** The entry becomes the most recently touched one, and the oldest give way. */
  function Touched(capacity: nat, d: Entries, e: Entry): Entries {
    Newest(capacity, Without(d, e.key) + [e])
  }

  function Answer(s: Settings, d: Entries, key: string, now: real): Option<Response> {
    if s.Disabled() || !Has(d, key) || s.Expired(d[Find(d, key)], now) then None else Some(d[Find(d, key)].value)
  }

  function AfterGet(s: Settings, d: Entries, key: string, now: real): Entries {
    if s.Disabled() || !Has(d, key) then d
    else if s.Expired(d[Find(d, key)], now) then Without(d, key)
    else Without(d, key) + [d[Find(d, key)]]
  }

  function AfterPut(s: Settings, d: Entries, e: Entry): Entries {
    if s.capacity <= 0 then d else Touched(s.capacity, d, e)
  }

  // ---------------------------------------------------------------- a run

  datatype Request = Get(key: string, now: real) | Put(key: string, now: real, value: Response)

  function Run(s: Settings, reqs: seq<Request>): Entries {
    if |reqs| == 0 then []
    else
      var d := Run(s, reqs[..|reqs| - 1]);
      match reqs[|reqs| - 1]
      case Get(key, now) => AfterGet(s, d, key, now)
      case Put(key, now, value) => AfterPut(s, d, Entry(key, now, value))
  }

  // What an observer can say of the requests, without looking into the cache.

  predicate Timed(reqs: seq<Request>) {
    forall i, j :: 0 <= i <= j < |reqs| ==> reqs[i].now <= reqs[j].now
  }

  function LastPut(reqs: seq<Request>, key: string): (r: Option<Entry>)
    ensures r.Some? ==> r.value.key == key
  {
    if |reqs| == 0 then None
    else
      var last := reqs[|reqs| - 1];
      if last.Put? && last.key == key then Some(Entry(key, last.now, last.value)) else LastPut(reqs[..|reqs| - 1], key)
  }

  /** A request touches its key if it stores a response or is answered with one. */
  predicate Touches(s: Settings, before: seq<Request>, r: Request) {
    r.Put? || Answer(s, Run(s, before), r.key, r.now).Some?
  }

  /** The other keys touched since `key` was last touched. */
  function Rivals(s: Settings, reqs: seq<Request>, key: string): set<string> {
    if |reqs| == 0 then {}
    else
      var before, last := reqs[..|reqs| - 1], reqs[|reqs| - 1];
      if !Touches(s, before, last) then Rivals(s, before, key)
      else if last.key == key then {}
      else Rivals(s, before, key) + {last.key}
  }

  /** A lookup that comes after its key's last response has expired. */
  predicate Late(s: Settings, before: seq<Request>, r: Request) {
    r.Get? && !s.Disabled() && LastPut(before, r.key).Some? && s.Expired(LastPut(before, r.key).value, r.now)
  }

  /** A late lookup has come since the key was last stored. */
  predicate Struck(s: Settings, reqs: seq<Request>, key: string) {
    |reqs| > 0
    && (var before, last := reqs[..|reqs| - 1], reqs[|reqs| - 1];
        !(last.Put? && last.key == key) && ((last.key == key && Late(s, before, last)) || Struck(s, before, key)))
  }

  /** The rivals still standing: a late lookup strikes its key out until it is touched again. */
  function Standing(s: Settings, reqs: seq<Request>, key: string): set<string> {
    if |reqs| == 0 then {}
    else
      var before, last := reqs[..|reqs| - 1], reqs[|reqs| - 1];
      if Touches(s, before, last) then
        if last.key == key then {} else Standing(s, before, key) + {last.key}
      else if Late(s, before, last) then Standing(s, before, key) - {last.key}
      else Standing(s, before, key)
  }

  /** At some point since `key` was last touched its standing rivals filled the cache. */
  predicate Crowded(s: Settings, reqs: seq<Request>, key: string) {
    |reqs| > 0
    && (var before, last := reqs[..|reqs| - 1], reqs[|reqs| - 1];
        || |Standing(s, reqs, key)| >= s.capacity
        || (!(Touches(s, before, last) && last.key == key) && Crowded(s, before, key)))
  }

  /** No lookup was late. */
  predicate NeverLate(s: Settings, reqs: seq<Request>) {
    |reqs| == 0 || (NeverLate(s, reqs[..|reqs| - 1]) && !Late(s, reqs[..|reqs| - 1], reqs[|reqs| - 1]))
  }

  // ---------------------------------------------------------------- invariants

  ghost predicate Distinct(d: Entries) {
    forall i, j :: 0 <= i < j < |d| ==> d[i].key != d[j].key
  }

  function Later(d: Entries, i: int): set<string>
    requires 0 <= i
  {
    set j | i < j < |d| :: d[j].key
  }

  ghost predicate Fits(s: Settings, d: Entries) {
    Distinct(d) && (if s.capacity <= 0 then d == [] else |d| <= s.capacity)
  }

  /** The entry is its key's last store and no late lookup came since; the entries behind it
      are its standing rivals, and they never filled the cache. */
  ghost predicate FaithfulAt(s: Settings, reqs: seq<Request>, d: Entries, i: int)
    requires 0 <= i < |d|
  {
    && LastPut(reqs, d[i].key) == Some(d[i]) && !Struck(s, reqs, d[i].key)
    && Later(d, i) == Standing(s, reqs, d[i].key) && !Crowded(s, reqs, d[i].key)
  }

  ghost predicate Faithful(s: Settings, reqs: seq<Request>, d: Entries) {
    forall i :: 0 <= i < |d| ==> FaithfulAt(s, reqs, d, i)
  }

  /** A key that was stored and is gone was crowded out or struck by a late lookup. */
  ghost predicate Accounted(s: Settings, reqs: seq<Request>, d: Entries) {
    forall key :: LastPut(reqs, key).Some? && !Has(d, key) ==> Crowded(s, reqs, key) || Struck(s, reqs, key)
  }

  lemma {:induction false} FindIsUnique(d: Entries, i: nat)
    requires Distinct(d) && i < |d|
    ensures Find(d, d[i].key) == i
  {
  }

  lemma {:induction false} LaterSize(d: Entries, i: nat)
    requires Distinct(d) && i < |d|
    ensures |Later(d, i)| == |d| - 1 - i
    decreases |d| - i
  {
    if i < |d| - 1 {
      LaterSize(d, i + 1);
      assert Later(d, i) == Later(d, i + 1) + {d[i + 1].key};
    } else {
      assert Later(d, i) == {};
    }
  }

  lemma {:induction false} SubsetSize(a: set<string>, b: set<string>)
    requires a <= b
    ensures |a| <= |b|
  {
    if a != {} {
      var x :| x in a;
      SubsetSize(a - {x}, b - {x});
    }
  }

  lemma {:induction false} HasAt(d: Entries, key: string)
    ensures Has(d, key) <==> exists i :: 0 <= i < |d| && d[i].key == key
  {
  }

  lemma {:induction false} WithoutKeeps(d: Entries, key: string)
    requires Distinct(d)
    ensures Distinct(Without(d, key)) && !Has(Without(d, key), key)
    ensures |Without(d, key)| == if Has(d, key) then |d| - 1 else |d|
    ensures forall k :: k != key ==> (Has(Without(d, key), k) <==> Has(d, k))
  {
    var w, f := Without(d, key), Find(d, key);
    forall k | k != key ensures Has(w, k) <==> Has(d, k) {
      HasAt(w, k);
      HasAt(d, k);
      if Has(d, k) {
        var i := Find(d, k);
        assert if i < f || !Has(d, key) then w[i] == d[i] else w[i - 1] == d[i];
      }
    }
  }

  lemma {:induction false} LaterAppended(d: Entries, e: Entry, i: nat)
    requires i < |d|
    ensures Later(d + [e], i) == Later(d, i) + {e.key}
  {
    var t := d + [e];
    forall k ensures k in Later(t, i) <==> k in Later(d, i) + {e.key} {
      if k in Later(d, i) {
        var j :| i < j < |d| && d[j].key == k;
        assert t[j] == d[j];
      }
      assert t[|d|] == e;
    }
  }

  lemma {:induction false} LaterShifted(d: Entries, n: nat, i: nat)
    requires n + i < |d|
    ensures Later(d[n..], i) == Later(d, n + i)
  {
    var t := d[n..];
    forall k ensures k in Later(t, i) <==> k in Later(d, n + i) {
      if k in Later(d, n + i) {
        var j :| n + i < j < |d| && d[j].key == k;
        assert t[j - n] == d[j];
      }
    }
  }

  /** The entry at f is cut out: where an entry stood before, and what was behind it. */
  lemma {:induction false} LaterCut(d: Entries, f: nat, i: nat)
    requires Distinct(d) && f < |d| && i < |d| - 1
    ensures Later(d[..f] + d[f + 1..], i) == Later(d, if i < f then i else i + 1) - {d[f].key}
    ensures (d[..f] + d[f + 1..])[i] == d[if i < f then i else i + 1] && d[if i < f then i else i + 1].key != d[f].key
  {
    var w, o := d[..f] + d[f + 1..], if i < f then i else i + 1;
    forall j | 0 <= j < |w| ensures w[j] == d[if j < f then j else j + 1] {
    }
    forall k ensures k in Later(w, i) <==> k in Later(d, o) - {d[f].key} {
      if k in Later(d, o) - {d[f].key} {
        var j :| o < j < |d| && d[j].key == k;
        assert w[if j < f then j else j - 1] == d[j];
      }
    }
  }

  /** Where an entry of the list without `key` stood before, and what was behind it. */
  lemma {:induction false} WithoutAt(d: Entries, key: string, i: nat) returns (o: nat)
    requires Distinct(d) && i < |Without(d, key)|
    ensures o < |d| && d[o] == Without(d, key)[i] && d[o].key != key
    ensures Later(Without(d, key), i) == Later(d, o) - {key}
  {
    hide Later, Find, Distinct;
    if Has(d, key) {
      var f := Find(d, key);
      o := if i < f then i else i + 1;
      LaterCut(d, f, i);
    } else {
      o := i;
      NotLater(d, key, i);
    }
  }

  lemma {:induction false} NotLater(d: Entries, key: string, i: nat)
    requires !Has(d, key) && i < |d|
    ensures Later(d, i) == Later(d, i) - {key} && d[i].key != key
  {
  }

  lemma {:induction false} TouchedAt(capacity: nat, d: Entries, e: Entry, i: nat) returns (o: nat)
    requires capacity > 0 && Distinct(d) && i < |Touched(capacity, d, e)| - 1
    ensures o < |d| && d[o] == Touched(capacity, d, e)[i] && d[o].key != e.key
    ensures Later(Touched(capacity, d, e), i) == Later(d, o) + {e.key}
  {
    hide Later, Without;
    var w := Without(d, e.key);
    var n := |w| + 1 - |Touched(capacity, d, e)|;
    o := WithoutAt(d, e.key, n + i);
    LaterAppended(w, e, n + i);
    LaterShifted(w + [e], n, i);
    assert Touched(capacity, d, e) == (w + [e])[n..];
  }

  lemma {:induction false} TouchedFits(s: Settings, d: Entries, e: Entry)
    requires s.capacity > 0 && Fits(s, d)
    ensures var t := Touched(s.capacity, d, e);
            Fits(s, t) && |t| > 0 && t[|t| - 1] == e
  {
    WithoutKeeps(d, e.key);
    var w := Without(d, e.key);
    forall i | 0 <= i < |w| ensures w[i].key != e.key {
      if w[i].key == e.key {
        HasAt(w, e.key);
      }
    }
    hide Without, Find;
  }

  lemma {:induction false} NewestKeeps(capacity: nat, d: Entries, i: nat)
    requires |d| - capacity <= i < |d|
    ensures Has(Newest(capacity, d), d[i].key)
  {
    var t := Newest(capacity, d);
    assert t[if |d| <= capacity then i else i - (|d| - capacity)] == d[i];
    HasAt(t, d[i].key);
  }

  /** An entry pushed out by a touch had `capacity` others behind it. */
  lemma {:induction false} PushedOut(capacity: nat, d: Entries, e: Entry, key: string) returns (o: nat)
    requires capacity > 0 && Distinct(d) && Has(d, key) && key != e.key
    requires !Has(Touched(capacity, d, e), key)
    ensures o < |d| && d[o].key == key && |Later(d, o) + {e.key}| >= capacity
  {
    var w := Without(d, e.key);
    WithoutKeeps(d, e.key);
    var i, n := Find(w, key), |w| + 1 - capacity;
    o := WithoutAt(d, e.key, i);
    if i >= n {
      NewestKeeps(capacity, w + [e], i);
    }
    hide Without, Later;
    LaterSize(w, i);
    assert Later(w, i) == Later(d, o) - {e.key};
    SizeWith(Later(w, i), Later(d, o), e.key);
  }

  lemma {:induction false} SizeWith(a: set<string>, b: set<string>, x: string)
    requires a == b - {x}
    ensures |b + {x}| == |a| + 1
  {
    assert b + {x} == a + {x};
  }

  ghost predicate Consistent(s: Settings, reqs: seq<Request>, d: Entries) {
    Fits(s, d) && Faithful(s, reqs, d) && Accounted(s, reqs, d)
  }

  /** Whatever the last request was, what it says of other keys stays. */
  lemma {:induction false} OthersKeep(s: Settings, reqs: seq<Request>, key: string)
    requires |reqs| > 0 && reqs[|reqs| - 1].key != key
    ensures LastPut(reqs, key) == LastPut(reqs[..|reqs| - 1], key)
    ensures Struck(s, reqs, key) == Struck(s, reqs[..|reqs| - 1], key)
  {
    hide Late;
  }

  lemma {:induction false} AfterTouch(s: Settings, reqs: seq<Request>, k: string)
    requires |reqs| > 0 && Touches(s, reqs[..|reqs| - 1], reqs[|reqs| - 1])
    ensures var before, key := reqs[..|reqs| - 1], reqs[|reqs| - 1].key;
      && Standing(s, reqs, k) == (if k == key then {} else Standing(s, before, k) + {key})
      && (Crowded(s, reqs, k) <==> |Standing(s, reqs, k)| >= s.capacity || (k != key && Crowded(s, before, k)))
  {
    hide Touches;
  }

  lemma {:induction false} WithinCapacity(s: Settings, d: Entries, i: nat)
    requires s.capacity > 0 && Fits(s, d) && i < |d|
    ensures |Later(d, i)| < s.capacity
  {
    LaterSize(d, i);
  }

  lemma {:induction false} TouchKeeps(s: Settings, reqs: seq<Request>, d: Entries, e: Entry)
    requires |reqs| > 0 && s.capacity > 0 && Consistent(s, reqs[..|reqs| - 1], d)
    requires reqs[|reqs| - 1].key == e.key && Touches(s, reqs[..|reqs| - 1], reqs[|reqs| - 1])
    requires LastPut(reqs, e.key) == Some(e) && !Struck(s, reqs, e.key)
    ensures Consistent(s, reqs, Touched(s.capacity, d, e))
  {
    hide Standing, Crowded, LastPut, Touched, Later, Touches, Find, Struck, FaithfulAt;
    var t := Touched(s.capacity, d, e);
    TouchedFits(s, d, e);
    forall i | 0 <= i < |t| ensures FaithfulAt(s, reqs, t, i) {
      TouchFaithful(s, reqs, d, e, i);
    }
    forall k | LastPut(reqs, k).Some? && !Has(t, k)
      ensures Crowded(s, reqs, k) || Struck(s, reqs, k)
    {
      TouchAccounts(s, reqs, d, e, k);
    }
  }

  lemma {:induction false} TouchFaithful(s: Settings, reqs: seq<Request>, d: Entries, e: Entry, i: nat)
    requires |reqs| > 0 && s.capacity > 0 && Fits(s, d) && Faithful(s, reqs[..|reqs| - 1], d)
    requires reqs[|reqs| - 1].key == e.key && Touches(s, reqs[..|reqs| - 1], reqs[|reqs| - 1])
    requires LastPut(reqs, e.key) == Some(e) && !Struck(s, reqs, e.key) && i < |Touched(s.capacity, d, e)|
    ensures FaithfulAt(s, reqs, Touched(s.capacity, d, e), i)
  {
    hide Standing, Crowded, LastPut, Touched, Later, Touches, Find, Struck;
    var t := Touched(s.capacity, d, e);
    TouchedFits(s, d, e);
    AfterTouch(s, reqs, t[i].key);
    WithinCapacity(s, t, i);
    if i < |t| - 1 {
      var o := TouchedAt(s.capacity, d, e, i);
      assert FaithfulAt(s, reqs[..|reqs| - 1], d, o);
      OthersKeep(s, reqs, t[i].key);
    } else {
      LaterLast(t);
    }
  }

  lemma {:induction false} LaterLast(d: Entries)
    requires |d| > 0
    ensures Later(d, |d| - 1) == {}
  {
  }

  lemma {:induction false} TouchAccounts(s: Settings, reqs: seq<Request>, d: Entries, e: Entry, k: string)
    requires |reqs| > 0 && s.capacity > 0 && Consistent(s, reqs[..|reqs| - 1], d)
    requires reqs[|reqs| - 1].key == e.key && Touches(s, reqs[..|reqs| - 1], reqs[|reqs| - 1])
    requires LastPut(reqs, k).Some? && !Has(Touched(s.capacity, d, e), k)
    ensures Crowded(s, reqs, k) || Struck(s, reqs, k)
  {
    var t := Touched(s.capacity, d, e);
    TouchedFits(s, d, e);
    HasAt(t, k);
    hide Standing, Crowded, LastPut, Touched, Later, Find, Struck, Touches;
    assert k != e.key by {
      assert t[|t| - 1].key == e.key;
    }
    OthersKeep(s, reqs, k);
    AfterTouch(s, reqs, k);
    if Has(d, k) {
      var o := PushedOut(s.capacity, d, e, k);
      assert FaithfulAt(s, reqs[..|reqs| - 1], d, o);
    }
  }

  /** What an unanswered lookup does to the rivals. */
  lemma {:induction false} AfterMiss(s: Settings, reqs: seq<Request>, k: string)
    requires |reqs| > 0 && !Touches(s, reqs[..|reqs| - 1], reqs[|reqs| - 1])
    ensures var before, r := reqs[..|reqs| - 1], reqs[|reqs| - 1];
      && Standing(s, reqs, k) == (if Late(s, before, r) then Standing(s, before, k) - {r.key}
                                  else Standing(s, before, k))
      && (Crowded(s, reqs, k) <==> |Standing(s, reqs, k)| >= s.capacity || Crowded(s, before, k))
      && LastPut(reqs, k) == LastPut(before, k)
      && (Struck(s, reqs, k) <==> (r.key == k && Late(s, before, r)) || Struck(s, before, k))
  {
    hide Late, Answer;
  }

  /** A lookup that came too late removes the entry and touches nothing. */
  lemma {:induction false} PopKeeps(s: Settings, reqs: seq<Request>, d: Entries)
    requires |reqs| > 0 && s.capacity > 0 && Consistent(s, reqs[..|reqs| - 1], d)
    requires d == Run(s, reqs[..|reqs| - 1]) && !s.Disabled()
    requires var r := reqs[|reqs| - 1]; r.Get? && Has(d, r.key) && s.Expired(d[Find(d, r.key)], r.now)
    ensures Consistent(s, reqs, Without(d, reqs[|reqs| - 1].key))
  {
    hide Standing, Crowded, Later, Touches, Late, FaithfulAt, LastPut, Struck;
    var key := reqs[|reqs| - 1].key;
    var w := Without(d, key);
    WithoutKeeps(d, key);
    LateIs(s, reqs, d);
    hide Find, Without;
    forall i | 0 <= i < |w| ensures FaithfulAt(s, reqs, w, i) {
      PopFaithful(s, reqs, d, i);
    }
    forall k | LastPut(reqs, k).Some? && !Has(w, k) ensures Crowded(s, reqs, k) || Struck(s, reqs, k) {
      AfterMiss(s, reqs, k);
    }
  }

  lemma {:induction false} LateIs(s: Settings, reqs: seq<Request>, d: Entries)
    requires |reqs| > 0 && Faithful(s, reqs[..|reqs| - 1], d)
    requires d == Run(s, reqs[..|reqs| - 1]) && !s.Disabled()
    requires var r := reqs[|reqs| - 1]; r.Get? && Has(d, r.key) && s.Expired(d[Find(d, r.key)], r.now)
    ensures var before, r := reqs[..|reqs| - 1], reqs[|reqs| - 1];
            Late(s, before, r) && !Touches(s, before, r)
  {
    hide Standing, Crowded, Later;
    assert FaithfulAt(s, reqs[..|reqs| - 1], d, Find(d, reqs[|reqs| - 1].key));
  }

  lemma {:induction false} PopFaithful(s: Settings, reqs: seq<Request>, d: Entries, i: nat)
    requires |reqs| > 0 && s.capacity > 0 && Fits(s, d) && Faithful(s, reqs[..|reqs| - 1], d)
    requires Late(s, reqs[..|reqs| - 1], reqs[|reqs| - 1]) && !Touches(s, reqs[..|reqs| - 1], reqs[|reqs| - 1])
    requires i < |Without(d, reqs[|reqs| - 1].key)|
    ensures FaithfulAt(s, reqs, Without(d, reqs[|reqs| - 1].key), i)
  {
    hide Standing, Crowded, LastPut, Later, Find, Touches, Late, Without, Struck;
    var key := reqs[|reqs| - 1].key;
    var w := Without(d, key);
    WithoutKeeps(d, key);
    var o := WithoutAt(d, key, i);
    assert FaithfulAt(s, reqs[..|reqs| - 1], d, o);
    AfterMiss(s, reqs, w[i].key);
    WithinCapacity(s, w, i);
  }

  /** Looking up what is not there, or looking at all when the cache is disabled, changes
      nothing. */
  lemma {:induction false} IdleKeeps(s: Settings, reqs: seq<Request>, d: Entries)
    requires |reqs| > 0 && s.capacity > 0 && Consistent(s, reqs[..|reqs| - 1], d)
    requires d == Run(s, reqs[..|reqs| - 1])
    requires var r := reqs[|reqs| - 1]; r.Get? && (s.Disabled() || !Has(d, r.key))
    ensures Consistent(s, reqs, d)
  {
    var before, r := reqs[..|reqs| - 1], reqs[|reqs| - 1];
    assert !Touches(s, before, r);
    assert Late(s, before, r) ==> !Has(d, r.key);
    hide Standing, Crowded, LastPut, Find, Struck, Touches, Late;
    forall i | 0 <= i < |d| ensures FaithfulAt(s, reqs, d, i) {
      assert FaithfulAt(s, before, d, i);
      AfterMiss(s, reqs, d[i].key);
      WithinCapacity(s, d, i);
      if Late(s, before, r) {
        NotLater(d, r.key, i);
      }
      hide Later;
    }
    forall k | LastPut(reqs, k).Some? && !Has(d, k) ensures Crowded(s, reqs, k) || Struck(s, reqs, k) {
      AfterMiss(s, reqs, k);
    }
  }

  /** With no capacity nothing is ever stored, and no rival is needed to fill it. */
  lemma {:induction false} NoCapacity(s: Settings, reqs: seq<Request>)
    requires s.capacity <= 0
    ensures Run(s, reqs) == []
    ensures |reqs| > 0 ==> forall key :: Crowded(s, reqs, key)
  {
    if |reqs| > 0 {
      NoCapacity(s, reqs[..|reqs| - 1]);
    }
  }

  lemma {:induction false} HitMoves(s: Settings, d: Entries, key: string)
    requires Fits(s, d) && Has(d, key)
    ensures Touched(s.capacity, d, d[Find(d, key)]) == Without(d, key) + [d[Find(d, key)]]
    ensures s.capacity > 0
  {
    WithoutKeeps(d, key);
  }

  /** A lookup that is answered is not late. */
  lemma {:induction false} HitIsNotLate(s: Settings, reqs: seq<Request>, d: Entries)
    requires |reqs| > 0 && d == Run(s, reqs[..|reqs| - 1]) && Faithful(s, reqs[..|reqs| - 1], d)
    requires var r := reqs[|reqs| - 1]; r.Get? && Answer(s, d, r.key, r.now).Some?
    ensures !Struck(s, reqs, reqs[|reqs| - 1].key)
  {
    hide Standing, Crowded, Later;
    assert FaithfulAt(s, reqs[..|reqs| - 1], d, Find(d, reqs[|reqs| - 1].key));
  }

  lemma {:induction false} RunConsistent(s: Settings, reqs: seq<Request>)
    ensures Consistent(s, reqs, Run(s, reqs))
  {
    if s.capacity <= 0 {
      NoCapacity(s, reqs);
    } else if |reqs| > 0 {
      var before, r := reqs[..|reqs| - 1], reqs[|reqs| - 1];
      RunConsistent(s, before);
      var d := Run(s, before);
      if r.Put? {
        TouchKeeps(s, reqs, d, Entry(r.key, r.now, r.value));
      } else if Answer(s, d, r.key, r.now).Some? {
        HitMoves(s, d, r.key);
        assert FaithfulAt(s, before, d, Find(d, r.key));
        HitIsNotLate(s, reqs, d);
        TouchKeeps(s, reqs, d, d[Find(d, r.key)]);
      } else if s.Disabled() || !Has(d, r.key) {
        IdleKeeps(s, reqs, d);
      } else {
        PopKeeps(s, reqs, d);
      }
    }
  }

  /** An entry expires as its age exceeds the time-to-live of its kind, the negative one if its
      text is blank, and at once if that is not positive. */
  lemma {:induction false} ExpiredIff(s: Settings, e: Entry, now: real)
    ensures Blank(e.value.text) ==> (s.Expired(e, now) <==> s.negativeTtl <= 0.0 || now - e.at > s.negativeTtl)
    ensures !Blank(e.value.text) ==> (s.Expired(e, now) <==> s.positiveTtl <= 0.0 || now - e.at > s.positiveTtl)
  {
    hide Blank, Strip;
    var _, _ := StripCuts(e.value.text);
  }

  // ---------------------------------------------------------------- what a run promises

  /** The cache never outgrows its capacity and never holds a key twice. */
  lemma {:induction false} NeverOverCapacity(s: Settings, reqs: seq<Request>)
    ensures |Run(s, reqs)| <= (if s.capacity <= 0 then 0 else s.capacity)
    ensures Distinct(Run(s, reqs))
  {
    RunConsistent(s, reqs);
  }

  /** A hit returns the response stored last under that key, within the time-to-live that
      its emptiness selects. */
  lemma {:induction false} HitIsLastPut(s: Settings, reqs: seq<Request>, key: string, now: real)
    requires Answer(s, Run(s, reqs), key, now).Some?
    ensures var put := LastPut(reqs, key);
            && put.Some? && Answer(s, Run(s, reqs), key, now) == Some(put.value.value)
            && 0.0 < s.Ttl(put.value.value) && now - put.value.at <= s.Ttl(put.value.value)
  {
    RunConsistent(s, reqs);
    hide Standing, Crowded, Later, Run;
    assert FaithfulAt(s, reqs, Run(s, reqs), Find(Run(s, reqs), key));
  }

  /** For every run, however the clock moves: a lookup misses if and only if the key was never
      stored, its last response has expired or was struck by a late lookup, or its standing
      rivals filled the cache since it was touched. */
  lemma {:induction false} MissExactlyWhen(s: Settings, reqs: seq<Request>, key: string, now: real)
    ensures var put := LastPut(reqs, key);
            Answer(s, Run(s, reqs), key, now).None?
            <==> put.None? || s.Expired(put.value, now) || Struck(s, reqs, key) || Crowded(s, reqs, key)
  {
    RunConsistent(s, reqs);
    hide Standing, Crowded, LastPut, Struck;
    var d := Run(s, reqs);
    if Has(d, key) {
      assert FaithfulAt(s, reqs, d, Find(d, key));
    }
  }

  /** While the clock does not go back, what was struck is still expired; and nothing is struck
      as long as no lookup is late. */
  lemma {:induction false} StruckIsExpired(s: Settings, reqs: seq<Request>, key: string, now: real)
    requires Struck(s, reqs, key)
    ensures Timed(reqs) && (|reqs| > 0 ==> reqs[|reqs| - 1].now <= now)
            ==> LastPut(reqs, key).Some? && s.Expired(LastPut(reqs, key).value, now)
    ensures !NeverLate(s, reqs)
  {
    var before, last := reqs[..|reqs| - 1], reqs[|reqs| - 1];
    if !(last.key == key && Late(s, before, last)) {
      StruckIsExpired(s, before, key, now);
    }
  }

  /** Those rivals are among all that were touched since, and are all of them as long as no
      lookup is late. */
  lemma {:induction false} StandingAreRivals(s: Settings, reqs: seq<Request>, key: string)
    ensures Standing(s, reqs, key) <= Rivals(s, reqs, key)
    ensures NeverLate(s, reqs) ==> Standing(s, reqs, key) == Rivals(s, reqs, key)
    ensures Crowded(s, reqs, key) ==> |Rivals(s, reqs, key)| >= s.capacity
  {
    if |reqs| > 0 {
      var before, last := reqs[..|reqs| - 1], reqs[|reqs| - 1];
      StandingAreRivals(s, before, key);
      RivalsStep(s, reqs, key);
      hide Rivals;
      SubsetSize(Standing(s, reqs, key), Rivals(s, reqs, key));
      if !(Touches(s, before, last) && last.key == key) {
        SubsetSize(Rivals(s, before, key), Rivals(s, reqs, key));
      }
    }
  }

  lemma {:induction false} RivalsStep(s: Settings, reqs: seq<Request>, key: string)
    requires |reqs| > 0
    ensures var before, last := reqs[..|reqs| - 1], reqs[|reqs| - 1];
            Rivals(s, reqs, key) == if !Touches(s, before, last) then Rivals(s, before, key)
                                    else if last.key == key then {} else Rivals(s, before, key) + {last.key}
  {
    hide Touches;
  }

  /** So a miss has a cause that needs no account of late lookups, unless the clock went back:
      the key was never stored, its last response has expired, or at least `capacity` other
      keys were touched since. */
  lemma {:induction false} MissHasCause(s: Settings, reqs: seq<Request>, key: string, now: real)
    requires Answer(s, Run(s, reqs), key, now).None?
    ensures var put := LastPut(reqs, key);
            || put.None? || s.Expired(put.value, now) || |Rivals(s, reqs, key)| >= s.capacity
            || (Struck(s, reqs, key) && !(Timed(reqs) && (|reqs| > 0 ==> reqs[|reqs| - 1].now <= now)))
  {
    hide Crowded, Rivals, LastPut, Answer, Run, Struck, Timed;
    MissExactlyWhen(s, reqs, key, now);
    StandingAreRivals(s, reqs, key);
    if Struck(s, reqs, key) {
      StruckIsExpired(s, reqs, key, now);
    }
  }

  /** And as long as no lookup was late those causes are exact, however the clock moves. */
  lemma {:induction false} MissWithoutLateLookups(s: Settings, reqs: seq<Request>, key: string, now: real)
    requires NeverLate(s, reqs)
    ensures var put := LastPut(reqs, key);
            Answer(s, Run(s, reqs), key, now).None?
            <==> put.None? || s.Expired(put.value, now) || |Rivals(s, reqs, key)| >= s.capacity
  {
    MissExactlyWhen(s, reqs, key, now);
    StandingAreRivals(s, reqs, key);
    assert |reqs| > 0 && |Standing(s, reqs, key)| >= s.capacity ==> Crowded(s, reqs, key);
    assert |reqs| == 0 ==> LastPut(reqs, key).None?;
    hide Crowded, Rivals, LastPut, Answer, Run, Standing, NeverLate, Struck;
    if Struck(s, reqs, key) {
      StruckIsExpired(s, reqs, key, now);
    }
  }

  /** A late lookup makes room: two keys were touched after "a" in a cache of two, yet "a"
      is still answered, because looking "b" up too late removed it. */
  lemma {:induction false} LateLookupMakesRoom()
    ensures exists s: Settings, reqs: seq<Request> ::
      && Timed(reqs) && s.capacity == 2 && |reqs| == 4
      && |Rivals(s, reqs, "a")| >= s.capacity && Answer(s, Run(s, reqs), "a", 100.0).Some?
  {
    var s := Settings(300.0, 60.0, 2);
    var full, blank := Response("x", 0.0), Response("", 0.0);
    assert s.Ttl(full) == 300.0 && s.Ttl(blank) == 60.0 by {
      assert StripLeft("x") == "x" && StripRight("x") == "x";
    }
    hide *;
    assert "a" != "b" && "a" != "c" && "b" != "c";
    var reqs := LateRun(s, full, blank, "a", "b", "c");
  }

  lemma {:induction false} LateRun(s: Settings, full: Response, blank: Response, x: string, y: string, z: string)
      returns (reqs: seq<Request>)
    requires s == Settings(300.0, 60.0, 2) && s.Ttl(full) == 300.0 && s.Ttl(blank) == 60.0
    requires x != y && x != z && y != z
    ensures Timed(reqs) && |reqs| == 4
    ensures |Rivals(s, reqs, x)| >= s.capacity && Answer(s, Run(s, reqs), x, 100.0).Some?
  {
    hide Run, Rivals, Find, Answer, AfterGet, AfterPut, Settings.Ttl, Distinct;
    var three := LateHalf(s, full, blank, x, y);
    reqs := three + [Put(z, 90.0, full)];
    var a, c := Entry(x, 0.0, full), Entry(z, 90.0, full);
    Next(s, three, reqs[3], x);
    AppendsFresh(s, [a], c);
    assert [a] + [c] == [a, c];
    TwoAreDistinct(a, c);
    GetAt(s, [a, c], 0, 100.0);
    TwoRivals({y}, y, z);
  }

  lemma {:induction false} TwoAreDistinct(a: Entry, b: Entry)
    requires a.key != b.key
    ensures Distinct([a, b])
  {
  }

  lemma {:induction false} TwoRivals(one: set<string>, y: string, z: string)
    requires one == {y} && y != z
    ensures |one + {z}| == 2
  {
  }

  lemma {:induction false} LateHalf(s: Settings, full: Response, blank: Response, x: string, y: string)
      returns (reqs: seq<Request>)
    requires s == Settings(300.0, 60.0, 2) && s.Ttl(full) == 300.0 && s.Ttl(blank) == 60.0 && x != y
    ensures Timed(reqs) && |reqs| == 3 && reqs[2].now == 90.0
    ensures Run(s, reqs) == [Entry(x, 0.0, full)] && Rivals(s, reqs, x) == {y}
  {
    hide Run, Rivals, Find, Answer, AfterGet, AfterPut, Settings.Ttl;
    var a, b := Entry(x, 0.0, full), Entry(y, 0.0, blank);
    var two := [Put(x, 0.0, full)] + [Put(y, 0.0, blank)];
    reqs := two + [Get(y, 90.0)];
    TwoStored(s, full, blank, x, y);
    Next(s, two, reqs[2], x);
    GetAt(s, [a, b], 1, 90.0);
  }

  lemma {:induction false} TwoStored(s: Settings, full: Response, blank: Response, x: string, y: string)
    requires s.capacity == 2 && x != y
    ensures var two := [Put(x, 0.0, full)] + [Put(y, 0.0, blank)];
            Run(s, two) == [Entry(x, 0.0, full), Entry(y, 0.0, blank)] && Rivals(s, two, x) == {y}
  {
    hide Run, Rivals, Find, Answer, AfterPut;
    var a, b, one := Entry(x, 0.0, full), Entry(y, 0.0, blank), [Put(x, 0.0, full)];
    Nothing(s);
    Next(s, [], one[0], x);
    AppendsFresh(s, [], a);
    assert [] + one == one && [] + [a] == [a];
    Next(s, one, Put(y, 0.0, blank), x);
    AppendsFresh(s, [a], b);
    assert [a] + [b] == [a, b];
  }

  lemma {:induction false} Nothing(s: Settings)
    ensures Run(s, []) == []
  {
  }

  /** A new key in a cache with room goes to the end. */
  lemma {:induction false} AppendsFresh(s: Settings, d: Entries, e: Entry)
    requires |d| < s.capacity && forall i :: 0 <= i < |d| ==> d[i].key != e.key
    ensures AfterPut(s, d, e) == d + [e]
  {
  }

  /** What a lookup of the entry at i does. */
  lemma {:induction false} GetAt(s: Settings, d: Entries, i: nat, now: real)
    requires !s.Disabled() && Distinct(d) && i < |d|
    ensures Answer(s, d, d[i].key, now) == if s.Expired(d[i], now) then None else Some(d[i].value)
    ensures s.Expired(d[i], now) ==> AfterGet(s, d, d[i].key, now) == d[..i] + d[i + 1..]
  {
    FindIsUnique(d, i);
  }

  lemma {:induction false} Next(s: Settings, before: seq<Request>, r: Request, key: string)
    ensures Run(s, before + [r]) == (match r
              case Get(k, now) => AfterGet(s, Run(s, before), k, now)
              case Put(k, now, value) => AfterPut(s, Run(s, before), Entry(k, now, value)))
    ensures Rivals(s, before + [r], key) ==
            if !(r.Put? || Answer(s, Run(s, before), r.key, r.now).Some?) then Rivals(s, before, key)
            else if r.key == key then {} else Rivals(s, before, key) + {r.key}
  {
    assert (before + [r])[..|before + [r]| - 1] == before;
  }

  // ---------------------------------------------------------------- the cache itself

  class Cache {
    var entries: Entries
    var hits: nat
    var misses: nat

    constructor ()
      ensures entries == [] && hits == 0 && misses == 0
    {
      entries, hits, misses := [], 0, 0;
    }

    method Get(s: Settings, key: string, now: real) returns (r: Option<Response>)
      modifies this
      ensures r == Answer(s, old(entries), key, now)
      ensures entries == AfterGet(s, old(entries), key, now)
      ensures hits == old(hits) + (if r.Some? then 1 else 0)
      ensures misses == old(misses) + (if r.Some? then 0 else 1)
    {
      if s.Disabled() {
        misses := misses + 1;
        return None;
      }
      var i := Find(entries, key);
      if i == |entries| {
        misses := misses + 1;
        return None;
      }
      var entry := entries[i];
      entries := entries[..i] + entries[i + 1..];
      if s.Ttl(entry.value) <= 0.0 || now - entry.at > s.Ttl(entry.value) {
        misses := misses + 1;
        return None;
      }
      entries := entries + [entry];
      hits := hits + 1;
      r := Some(entry.value);
    }

    method Put(s: Settings, key: string, now: real, value: Response)
      modifies this`entries
      ensures entries == AfterPut(s, old(entries), Entry(key, now, value))
    {
      if s.capacity <= 0 {
        return;
      }
      var i := Find(entries, key);
      if i < |entries| {
        entries := entries[..i] + entries[i + 1..];
      }
      assert entries == Without(old(entries), key);
      hide Without, Find;
      entries := entries + [Entry(key, now, value)];
      EvictOldest(s.capacity);
    }

    method EvictOldest(capacity: nat)
      modifies this`entries
      ensures entries == Newest(capacity, old(entries))
    {
      while |entries| > capacity
        invariant |entries| <= |old(entries)| && entries == old(entries)[|old(entries)| - |entries|..]
        invariant |entries| >= capacity || entries == old(entries)
      {
        entries := entries[1..];
      }
    }
  }
}
