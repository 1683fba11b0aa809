/** The level-2 order book: snapshots replace it, sequenced deltas merge into it, and the
    metrics computed on it and on its snapshots agree. */
module L2Book {
  import opened Options
  import opened Reals

  datatype Level = Level(price: real, qty: real)

  /** Quantity by price. */
  type Side = map<real, real>

  datatype Kind = Snapshot | Delta

  datatype Update = Update(ts: int, symbol: string, kind: Kind, bids: seq<Level>, asks: seq<Level>,
                           number: Option<int>) {
    /** What the update's own validation guarantees. */
    predicate Valid() { |symbol| > 0 && Levels(bids) && Levels(asks) }
  }

  predicate Levels(levels: seq<Level>) {
    forall i :: 0 <= i < |levels| ==> levels[i].price > 0.0 && levels[i].qty >= 0.0
  }

  datatype Book = Book(bids: Side, asks: Side, ts: Option<int>, last: Option<int>, kind: Option<Kind>)

  const EMPTY := Book(map[], map[], None, None, None)

  /** The program returns normally after applying or ignoring an update, or raises. */
  datatype Result = Applied | Ignored | SymbolMismatch | WrongKind | SequenceGap | CrossedBook

  // ---------------------------------------------------------------- best prices

  /** Bids count down from the highest price, asks count up from the lowest. */
  predicate Ahead(up: bool, p: real, q: real) { if up then p < q else p > q }

  predicate IsBest(prices: set<real>, up: bool, p: real) {
    p in prices && forall q :: q in prices && q != p ==> Ahead(up, p, q)
  }

  lemma {:induction false} BestExists(prices: set<real>, up: bool)
    requires prices != {}
    ensures exists p :: IsBest(prices, up, p)
  {
    assert (forall x :: x !in prices) ==> prices == {};
    var x :| x in prices;
    if prices == {x} {
      assert IsBest(prices, up, x);
    } else {
      var rest := prices - {x};
      BestExists(rest, up);
      var p :| IsBest(rest, up, p);
      assert prices == rest + {x};
      assert IsBest(prices, up, if Ahead(up, x, p) then x else p);
    }
  }

  function Best(prices: set<real>, up: bool): (p: real)
    requires prices != {}
    ensures IsBest(prices, up, p)
  {
    BestExists(prices, up);
    var p :| IsBest(prices, up, p);
    p
  }

  /** A side as a list of levels, best first. */
  function Ladder(m: Side, up: bool): (r: seq<Level>)
    ensures |r| == |m|
    decreases |m|
  {
    if m == map[] then [] else
    var p := Best(m.Keys, up);
    assert |m.Keys - {p}| == |m| - 1 && (m - {p}).Keys == m.Keys - {p};
    [Level(p, m[p])] + Ladder(m - {p}, up)
  }

  ghost predicate ListsSide(m: Side, up: bool, l: seq<Level>) {
    && (forall i :: 0 <= i < |l| ==> l[i].price in m && l[i].qty == m[l[i].price])
    && (forall i, j :: 0 <= i < j < |l| ==> Ahead(up, l[i].price, l[j].price))
    && (forall p :: p in m ==> Level(p, m[p]) in l)
  }

  /** The ladder lists every level of the side exactly once, in strict price order. */
  lemma {:induction false} LadderLists(m: Side, up: bool)
    ensures ListsSide(m, up, Ladder(m, up))
    ensures m != map[] ==> Ladder(m, up)[0].price == Best(m.Keys, up)
    decreases |m|
  {
    if m != map[] {
      var p := Best(m.Keys, up);
      var rest := m - {p};
      assert rest.Keys == m.Keys - {p};
      assert |rest.Keys| == |m.Keys| - 1;
      LadderLists(rest, up);
      ListsMore(m, up, p, Ladder(rest, up));
    }
  }

  lemma {:induction false} ListsMore(m: Side, up: bool, p: real, l: seq<Level>)
    requires IsBest(m.Keys, up, p) && ListsSide(m - {p}, up, l)
    ensures ListsSide(m, up, [Level(p, m[p])] + l)
  {
    var all := [Level(p, m[p])] + l;
    forall i, j | 0 <= i < j < |all| ensures Ahead(up, all[i].price, all[j].price) {
      assert all[j] == l[j - 1] && all[j].price in m - {p};
      if i > 0 {
        assert all[i] == l[i - 1];
      }
    }
    forall q | q in m ensures Level(q, m[q]) in all {
      if q != p {
        assert q in m - {p};
      } else {
        assert all[0] == Level(p, m[p]);
      }
    }
  }

  // ---------------------------------------------------------------- updates

  /** The levels of a snapshot: the last positive quantity given for a price. */
  function SnapshotSide(levels: seq<Level>): Side {
    if |levels| == 0 then map[]
    else
      var m, l := SnapshotSide(levels[..|levels| - 1]), levels[|levels| - 1];
      if l.qty > 0.0 then m[l.price := l.qty] else m
  }

  /** A delta's levels merged in: quantity 0 removes, any other sets. */
  function MergeSide(side: Side, levels: seq<Level>): Side {
    if |levels| == 0 then side
    else
      var m, l := MergeSide(side, levels[..|levels| - 1]), levels[|levels| - 1];
      if l.qty == 0.0 then m - {l.price} else m[l.price := l.qty]
  }

  /** The quantity a list of levels gives a price last, None if it never mentions it. */
  function LastQty(levels: seq<Level>, p: real): Option<real> {
    if |levels| == 0 then None
    else if levels[|levels| - 1].price == p then Some(levels[|levels| - 1].qty)
    else LastQty(levels[..|levels| - 1], p)
  }

  /** Price by price: a delta's last word on a price decides, and prices it does not mention
      stay as they were. */
  lemma {:induction false} MergeByPrice(side: Side, levels: seq<Level>, p: real)
    ensures var m, q := MergeSide(side, levels), LastQty(levels, p);
            && (q.None? ==> (p in m <==> p in side) && (p in m ==> m[p] == side[p]))
            && (q.Some? ==> (p in m <==> q.value != 0.0) && (p in m ==> m[p] == q.value))
  {
    if |levels| > 0 {
      MergeByPrice(side, levels[..|levels| - 1], p);
    }
  }

  predicate Crossed(b: Book) {
    b.bids != map[] && b.asks != map[] && Best(b.bids.Keys, false) >= Best(b.asks.Keys, true)
  }

  function AfterSnapshot(u: Update): Book {
    Book(SnapshotSide(u.bids), SnapshotSide(u.asks), Some(u.ts), u.number, Some(Snapshot))
  }

  function Merged(b: Book, u: Update): Book {
    Book(MergeSide(b.bids, u.bids), MergeSide(b.asks, u.asks), Some(u.ts), if u.number.Some? then u.number else b.last,
         Some(Delta))
  }

  /** Whether a delta is stale, out of sequence, or to be merged. */
  predicate Stale(strict: bool, b: Book, u: Update) {
    strict && u.number.Some? && b.last.Some? && u.number.value <= b.last.value
  }

  predicate Skips(strict: bool, b: Book, u: Update) {
    strict && u.number.Some? && b.last.Some? && u.number.value > b.last.value + 1
  }

  function After(symbol: string, strict: bool, b: Book, u: Update): Book {
    if u.symbol != symbol then b
    else if u.kind == Snapshot then AfterSnapshot(u)
    else if Stale(strict, b, u) || Skips(strict, b, u) then b
    else Merged(b, u)
  }

  function Outcome(symbol: string, strict: bool, b: Book, u: Update): Result {
    if u.symbol != symbol then SymbolMismatch
    else if u.kind == Delta && Stale(strict, b, u) then Ignored
    else if u.kind == Delta && Skips(strict, b, u) then SequenceGap
    else if Crossed(After(symbol, strict, b, u)) then CrossedBook
    else Applied
  }

  function Run(symbol: string, strict: bool, b: Book, stream: seq<Update>): Book {
    if |stream| == 0 then b
    else After(symbol, strict, Run(symbol, strict, b, stream[..|stream| - 1]), stream[|stream| - 1])
  }

  /** Price by price: a snapshot shows a price with the last positive quantity it gives for it. */
  lemma {:induction false} SnapshotByPrice(levels: seq<Level>, p: real)
    ensures p in SnapshotSide(levels) <==> exists i :: 0 <= i < |levels| && levels[i].price == p && levels[i].qty > 0.0
    ensures p in SnapshotSide(levels) ==>
              exists i :: 0 <= i < |levels| && levels[i] == Level(p, SnapshotSide(levels)[p]) && levels[i].qty > 0.0
                          && forall j :: i < j < |levels| && levels[j].price == p ==> levels[j].qty <= 0.0
  {
    if |levels| > 0 {
      var before, last := levels[..|levels| - 1], levels[|levels| - 1];
      SnapshotByPrice(before, p);
      if last.qty > 0.0 && last.price == p {
        assert levels[|levels| - 1] == Level(p, SnapshotSide(levels)[p]);
      } else if p in SnapshotSide(before) {
        var i :| 0 <= i < |before| && before[i] == Level(p, SnapshotSide(before)[p]) && before[i].qty > 0.0
                 && forall j :: i < j < |before| && before[j].price == p ==> before[j].qty <= 0.0;
        assert levels[i] == Level(p, SnapshotSide(levels)[p]);
      }
    }
  }

  /** The delta follows on what the book has, or nothing says that it does not. */
  ghost predicate InSequence(strict: bool, b: Book, u: Update) {
    !strict || u.number.None? || b.last.None? || u.number.value == b.last.value + 1
  }

  /** What one update does: a foreign or an out-of-sequence one leaves the book alone; a snapshot
      replaces both sides; a delta has the last word on every price it mentions; and a crossing
      is reported once the update has been applied. */
  lemma {:induction false} ApplyTells(symbol: string, strict: bool, b: Book, u: Update, p: real)
    ensures var after, r := After(symbol, strict, b, u), Outcome(symbol, strict, b, u);
            if u.symbol != symbol then after == b && r == SymbolMismatch
            else if u.kind == Delta && !InSequence(strict, b, u) then
              after == b && r == if u.number.value <= b.last.value then Ignored else SequenceGap
            else
              && after.ts == Some(u.ts) && after.kind == Some(u.kind)
              && (after.last == if u.kind == Delta && u.number.None? then b.last else u.number)
              && (u.kind == Snapshot ==> after.bids == SnapshotSide(u.bids) && after.asks == SnapshotSide(u.asks))
              && (u.kind == Delta ==> FollowsDelta(b.bids, u.bids, after.bids, p))
              && (u.kind == Delta ==> FollowsDelta(b.asks, u.asks, after.asks, p))
              && (r == CrossedBook <==> exists x, y :: x in after.bids && y in after.asks && x >= y)
              && (r == Applied || r == CrossedBook)
  {
    MergeByPrice(b.bids, u.bids, p);
    MergeByPrice(b.asks, u.asks, p);
    CrossedIff(After(symbol, strict, b, u));
    hide MergeSide, SnapshotSide, Crossed;
  }

  ghost predicate FollowsDelta(was: Side, levels: seq<Level>, now: Side, p: real) {
    match LastQty(levels, p)
    case None => (p in now <==> p in was) && (p in now ==> now[p] == was[p])
    case Some(q) => (p in now <==> q != 0.0) && (p in now ==> now[p] == q)
  }

  // ---------------------------------------------------------------- what updates keep

  ghost predicate Positive(m: Side) {
    forall p :: p in m ==> p > 0.0 && m[p] > 0.0
  }

  lemma {:induction false} SnapshotPositive(levels: seq<Level>)
    requires Levels(levels)
    ensures Positive(SnapshotSide(levels))
  {
    if |levels| > 0 {
      SnapshotPositive(levels[..|levels| - 1]);
    }
  }

  lemma {:induction false} MergePositive(m: Side, levels: seq<Level>)
    requires Levels(levels) && Positive(m)
    ensures Positive(MergeSide(m, levels))
  {
    if |levels| > 0 {
      MergePositive(m, levels[..|levels| - 1]);
    }
  }

  /** Prices and quantities stay positive through every run of valid updates, whatever was
      ignored or rejected on the way. */
  lemma {:induction false} QuantitiesStayPositive(symbol: string, strict: bool, b: Book, stream: seq<Update>)
    requires Positive(b.bids) && Positive(b.asks)
    requires forall i :: 0 <= i < |stream| ==> stream[i].Valid()
    ensures var r := Run(symbol, strict, b, stream); Positive(r.bids) && Positive(r.asks)
  {
    if |stream| > 0 {
      var last := stream[|stream| - 1];
      QuantitiesStayPositive(symbol, strict, b, stream[..|stream| - 1]);
      var was := Run(symbol, strict, b, stream[..|stream| - 1]);
      SnapshotPositive(last.bids);
      SnapshotPositive(last.asks);
      MergePositive(was.bids, last.bids);
      MergePositive(was.asks, last.asks);
      hide SnapshotSide, MergeSide, Positive;
    }
  }

  /** The book is crossed if and only if some bid reaches some ask. */
  lemma {:induction false} CrossedIff(b: Book)
    ensures Crossed(b) <==> exists p, q :: p in b.bids && q in b.asks && p >= q
  {
    if b.bids != map[] && b.asks != map[] {
      var p, q := Best(b.bids.Keys, false), Best(b.asks.Keys, true);
      assert p in b.bids && q in b.asks;
    }
  }

  // ---------------------------------------------------------------- a sequenced stream

  /** The levels that the venue sent under each number. */
  type Feed = int -> (seq<Level>, seq<Level>)

  ghost predicate Carries(symbol: string, feed: Feed, u: Update) {
    u.symbol == symbol && u.kind == Delta && u.number.Some? && u.bids == feed(u.number.value).0
        && u.asks == feed(u.number.value).1
  }

  /** The book's sides after numbers s + 1 to s + m, applied once each and in order. */
  function CleanBids(feed: Feed, bids: Side, s: int, m: nat): Side {
    if m == 0 then bids else MergeSide(CleanBids(feed, bids, s, m - 1), feed(s + m).0)
  }

  function CleanAsks(feed: Feed, asks: Side, s: int, m: nat): Side {
    if m == 0 then asks else MergeSide(CleanAsks(feed, asks, s, m - 1), feed(s + m).1)
  }

  /** How many numbers after s the stream brings in order, whatever else it brings. */
  function Reached(stream: seq<Update>, s: int): nat {
    if |stream| == 0 then 0
    else
      var m := Reached(stream[..|stream| - 1], s);
      if stream[|stream| - 1].number == Some(s + m + 1) then m + 1 else m
  }

  ghost predicate AllCarry(symbol: string, feed: Feed, stream: seq<Update>) {
    forall i :: 0 <= i < |stream| ==> Carries(symbol, feed, stream[i])
  }

  lemma {:induction false} CarriedStep(symbol: string, feed: Feed, b: Book, u: Update)
    requires b.last.Some? && Carries(symbol, feed, u)
    ensures var n := u.number.value;
            if n == b.last.value + 1 then
              && After(symbol, true, b, u).bids == MergeSide(b.bids, feed(n).0)
              && After(symbol, true, b, u).asks == MergeSide(b.asks, feed(n).1)
              && After(symbol, true, b, u).last == Some(n)
            else After(symbol, true, b, u) == b
    ensures Outcome(symbol, true, b, u) == SequenceGap <==> u.number.value > b.last.value + 1
  {
    hide MergeSide, Crossed;
  }

  lemma {:induction false} OneUpdateMore(symbol: string, feed: Feed, b: Book, s: int, stream: seq<Update>)
    requires |stream| > 0 && AllCarry(symbol, feed, stream)
    ensures var before, last := stream[..|stream| - 1], stream[|stream| - 1];
      && AllCarry(symbol, feed, before) && Carries(symbol, feed, last)
      && Run(symbol, true, b, stream) == After(symbol, true, Run(symbol, true, b, before), last)
      && Reached(stream, s) == Reached(before, s) + (if last.number == Some(s + Reached(before, s) + 1) then 1 else 0)
      && (NeverSkips(symbol, b, stream) ==>
            NeverSkips(symbol, b, before) && Outcome(symbol, true, Run(symbol, true, b, before), last) != SequenceGap)
  {
    hide After, Outcome, Carries;
  }

  /** A strict book fed any stream of that feed's deltas, with duplicates, stale numbers and
      gaps anywhere, holds what a clean replay of the numbers reached holds. */
  lemma {:induction false} StreamIsCleanReplay(symbol: string, feed: Feed, b: Book, s: int, stream: seq<Update>)
    requires b.last == Some(s) && AllCarry(symbol, feed, stream)
    ensures var r, m := Run(symbol, true, b, stream), Reached(stream, s);
            && r.bids == CleanBids(feed, b.bids, s, m) && r.asks == CleanAsks(feed, b.asks, s, m)
            && r.last == Some(s + m)
  {
    if |stream| > 0 {
      var before, last := stream[..|stream| - 1], stream[|stream| - 1];
      OneUpdateMore(symbol, feed, b, s, stream);
      CleanMore(feed, b, s, Reached(before, s));
      hide MergeSide, After, Outcome, Carries, AllCarry, Run, Reached, CleanBids, CleanAsks, NeverSkips;
      StreamIsCleanReplay(symbol, feed, b, s, before);
      CarriedStep(symbol, feed, Run(symbol, true, b, before), last);
    }
  }

  lemma {:induction false} CleanMore(feed: Feed, b: Book, s: int, m: nat)
    ensures CleanBids(feed, b.bids, s, m + 1) == MergeSide(CleanBids(feed, b.bids, s, m), feed(s + m + 1).0)
    ensures CleanAsks(feed, b.asks, s, m + 1) == MergeSide(CleanAsks(feed, b.asks, s, m), feed(s + m + 1).1)
  {
    hide MergeSide;
  }

  /** No update of the stream is refused as a gap. */
  ghost predicate NeverSkips(symbol: string, b: Book, stream: seq<Update>) {
    |stream| == 0
    || (var before, last := stream[..|stream| - 1], stream[|stream| - 1];
        NeverSkips(symbol, b, before) && Outcome(symbol, true, Run(symbol, true, b, before), last) != SequenceGap)
  }

  ghost predicate Within(stream: seq<Update>, most: int) {
    forall i :: 0 <= i < |stream| ==> stream[i].number.Some? && stream[i].number.value <= most
  }

  ghost predicate Brings(stream: seq<Update>, n: int) {
    exists i :: 0 <= i < |stream| && stream[i].number == Some(n)
  }

  lemma {:induction false} LastIsReached(symbol: string, feed: Feed, b: Book, s: int, stream: seq<Update>)
    requires b.last == Some(s) && AllCarry(symbol, feed, stream)
    ensures Run(symbol, true, b, stream).last == Some(s + Reached(stream, s))
  {
    StreamIsCleanReplay(symbol, feed, b, s, stream);
  }

  /** When nothing is refused as a gap, every number the stream brings is reached, so the
      clean replay goes up to the highest number brought. */
  lemma {:induction false} ReachedIsHighest(symbol: string, feed: Feed, b: Book, s: int, stream: seq<Update>)
    requires b.last == Some(s) && AllCarry(symbol, feed, stream)
    ensures NeverSkips(symbol, b, stream) ==> Within(stream, s + Reached(stream, s))
    ensures Reached(stream, s) > 0 ==> Brings(stream, s + Reached(stream, s))
  {
    hide NeverSkips, AllCarry;
    if |stream| > 0 {
      var before := stream[..|stream| - 1];
      LastNumber(symbol, feed, b, s, stream);
      ReachedIsHighest(symbol, feed, b, s, before);
      OneMore(stream, s + Reached(before, s), s + Reached(stream, s));
      hide Reached, Within, Brings;
    }
  }

  /** The last number either is the next one, and is reached, or lies behind; when nothing
      is refused as a gap it never lies further ahead. */
  lemma {:induction false} LastNumber(symbol: string, feed: Feed, b: Book, s: int, stream: seq<Update>)
    requires |stream| > 0 && b.last == Some(s) && AllCarry(symbol, feed, stream)
    ensures var before, number := stream[..|stream| - 1], stream[|stream| - 1].number;
            && AllCarry(symbol, feed, before) && number.Some?
            && Reached(stream, s) == Reached(before, s) + (if number.value == s + Reached(before, s) + 1 then 1 else 0)
            && (NeverSkips(symbol, b, stream)
                ==> NeverSkips(symbol, b, before) && number.value <= s + Reached(before, s) + 1)
  {
    var before, last := stream[..|stream| - 1], stream[|stream| - 1];
    OneUpdateMore(symbol, feed, b, s, stream);
    hide Run, Outcome, After, MergeSide, Reached, NeverSkips, AllCarry;
    LastIsReached(symbol, feed, b, s, before);
    CarriedStep(symbol, feed, Run(symbol, true, b, before), last);
  }

  lemma {:induction false} OneMore(stream: seq<Update>, was: int, now: int)
    requires |stream| > 0 && was <= now && stream[|stream| - 1].number.Some?
    ensures Within(stream[..|stream| - 1], was) && stream[|stream| - 1].number.value <= now ==> Within(stream, now)
    ensures Brings(stream[..|stream| - 1], now) || stream[|stream| - 1].number == Some(now) ==> Brings(stream, now)
  {
    var before := stream[..|stream| - 1];
    if Brings(before, now) {
      var i :| 0 <= i < |before| && before[i].number == Some(now);
      assert stream[i].number == Some(now);
    } else if stream[|stream| - 1].number == Some(now) {
      assert Brings(stream, now);
    }
  }

  // ---------------------------------------------------------------- snapshots

  datatype Snap = Snap(ts: int, symbol: string, bids: seq<Level>, asks: seq<Level>)

  function Take(l: seq<Level>, k: nat): seq<Level> { if |l| <= k then l else l[..k] }

  /** What a side shows: all of it, or its best `depth` levels. */
  function Shown(m: Side, up: bool, depth: Option<nat>): seq<Level> {
    if depth.None? then Ladder(m, up) else Take(Ladder(m, up), depth.value)
  }

  function ToSnapshot(symbol: string, b: Book, depth: Option<nat>): Snap
    requires b.ts.Some?
  {
    Snap(b.ts.value, symbol, Shown(b.bids, false, depth), Shown(b.asks, true, depth))
  }

  /** A snapshot shows true levels in strict price order, and no level it leaves out is
      better than one it shows. */
  lemma {:induction false} SnapshotIsSortedTop(m: Side, up: bool, depth: Option<nat>)
    ensures var l := Shown(m, up, depth);
            && (forall i, j :: 0 <= i < j < |l| ==> Ahead(up, l[i].price, l[j].price))
            && (forall i :: 0 <= i < |l| ==> l[i].price in m && l[i].qty == m[l[i].price])
            && (forall p, i :: p in m && Level(p, m[p]) !in l && 0 <= i < |l| ==> Ahead(up, l[i].price, p))
            && |l| == if depth.None? || |m| <= depth.value then |m| else depth.value
  {
    LadderLists(m, up);
    var all, l := Ladder(m, up), Shown(m, up, depth);
    assert l == all[..|l|];
    hide Ladder, Shown;
    TopOfListed(m, up, all, l);
  }

  /** Any front of a complete sorted list is better than what it leaves out. */
  lemma {:induction false} TopOfListed(m: Side, up: bool, all: seq<Level>, l: seq<Level>)
    requires ListsSide(m, up, all) && |l| <= |all| && l == all[..|l|]
    ensures forall i, j :: 0 <= i < j < |l| ==> Ahead(up, l[i].price, l[j].price)
    ensures forall i :: 0 <= i < |l| ==> l[i].price in m && l[i].qty == m[l[i].price]
    ensures forall p, i :: p in m && Level(p, m[p]) !in l && 0 <= i < |l| ==> Ahead(up, l[i].price, p)
  {
    assert forall j :: 0 <= j < |l| ==> l[j] == all[j];
    forall p, i | p in m && Level(p, m[p]) !in l && 0 <= i < |l| ensures Ahead(up, l[i].price, p) {
      var j :| 0 <= j < |all| && all[j] == Level(p, m[p]);
    }
  }

  ghost predicate DistinctPrices(l: seq<Level>) {
    forall i, j :: 0 <= i < j < |l| ==> l[i].price != l[j].price
  }

  lemma {:induction false} SnapshotSideOf(l: seq<Level>)
    requires DistinctPrices(l) && forall i :: 0 <= i < |l| ==> l[i].qty > 0.0
    ensures forall i :: 0 <= i < |l| ==> l[i].price in SnapshotSide(l) && SnapshotSide(l)[l[i].price] == l[i].qty
    ensures forall p :: p in SnapshotSide(l) ==> Prices(l, p)
  {
    if |l| > 0 {
      var before := l[..|l| - 1];
      SnapshotSideOf(before);
      forall p | p in SnapshotSide(l) ensures Prices(l, p) {
        if p != l[|l| - 1].price {
          assert Prices(before, p);
          var i :| 0 <= i < |before| && before[i].price == p;
          assert l[i].price == p;
        } else {
          assert l[|l| - 1].price == p;
        }
      }
    }
  }

  ghost predicate Prices(l: seq<Level>, p: real) {
    exists i :: 0 <= i < |l| && l[i].price == p
  }

  /** A full snapshot of a book, applied to any book, restores it. */
  lemma {:induction false} SnapshotRoundTrip(m: Side, up: bool)
    requires Positive(m)
    ensures SnapshotSide(Shown(m, up, None)) == m
  {
    LadderLists(m, up);
    hide Ladder, SnapshotSide;
    ListedSide(m, up, Ladder(m, up));
  }

  lemma {:induction false} ListedSide(m: Side, up: bool, l: seq<Level>)
    requires Positive(m) && ListsSide(m, up, l)
    ensures SnapshotSide(l) == m
  {
    hide SnapshotSide;
    SnapshotSideOf(l);
    var r := SnapshotSide(l);
    forall p | p in m ensures p in r && r[p] == m[p] {
      var i :| 0 <= i < |l| && l[i] == Level(p, m[p]);
      assert r[l[i].price] == l[i].qty;
    }
    forall p | p in r ensures p in m {
      var i :| 0 <= i < |l| && l[i].price == p;
    }
  }

  /** Both sides of a book come back when its full snapshot is replayed into any other book
      of the symbol, and that book then follows the replayed number. */
  lemma {:induction false} SnapshotRestoresBook(symbol: string, strict: bool, b: Book, other: Book, number: Option<int>)
    requires b.ts.Some? && Positive(b.bids) && Positive(b.asks)
    ensures var s := ToSnapshot(symbol, b, None);
            var r := After(symbol, strict, other, Update(s.ts, symbol, Snapshot, s.bids, s.asks, number));
            r.bids == b.bids && r.asks == b.asks && r.last == number && r.ts == b.ts
  {
    SnapshotRoundTrip(b.bids, false);
    SnapshotRoundTrip(b.asks, true);
    hide Shown, SnapshotSide;
  }

  // ---------------------------------------------------------------- metrics

  function TotalQty(l: seq<Level>): real {
    if |l| == 0 then 0.0 else l[0].qty + TotalQty(l[1..])
  }

  function Midpoint(bid: Level, ask: Level): real { (bid.price + ask.price) / 2.0 }

  function WeightedMidpoint(bid: Level, ask: Level): real {
    var total := bid.qty + ask.qty;
    if total == 0.0 then Midpoint(bid, ask) else (bid.price * ask.qty + ask.price * bid.qty) / total
  }

  function Tilt(bids: seq<Level>, asks: seq<Level>): real {
    var b, a := TotalQty(bids), TotalQty(asks);
    if b + a == 0.0 then 0.0 else (b - a) / (b + a)
  }

  function BestLevel(m: Side, up: bool): Option<Level> {
    if m == map[] then None else Some(Level(Best(m.Keys, up), m[Best(m.Keys, up)]))
  }

  // On the book:

  function Spread(b: Book): Option<real> {
    match (BestLevel(b.bids, false), BestLevel(b.asks, true))
    case (Some(p), Some(q)) => Some(q.price - p.price)
    case _ => None
  }

  function Mid(b: Book): Option<real> {
    match (BestLevel(b.bids, false), BestLevel(b.asks, true))
    case (Some(p), Some(q)) => Some(Midpoint(p, q))
    case _ => None
  }

  function WeightedMid(b: Book): Option<real> {
    match (BestLevel(b.bids, false), BestLevel(b.asks, true))
    case (Some(p), Some(q)) => Some(WeightedMidpoint(p, q))
    case _ => None
  }

  function Imbalance(b: Book, depth: Option<nat>, k: nat): Option<real> {
    if b.bids == map[] || b.asks == map[] then None
    else Some(Tilt(Take(Shown(b.bids, false, depth), k), Take(Shown(b.asks, true, depth), k)))
  }

  // On a snapshot:

  function SnapSpread(s: Snap): Option<real> {
    if |s.bids| == 0 || |s.asks| == 0 then None else Some(s.asks[0].price - s.bids[0].price)
  }

  function SnapMid(s: Snap): Option<real> {
    if |s.bids| == 0 || |s.asks| == 0 then None else Some((s.asks[0].price + s.bids[0].price) / 2.0)
  }

  function SnapWeightedMid(s: Snap): Option<real> {
    if |s.bids| == 0 || |s.asks| == 0 then None else Some(WeightedMidpoint(s.bids[0], s.asks[0]))
  }

  function SnapImbalance(s: Snap, k: nat): Option<real> {
    if |s.bids| == 0 || |s.asks| == 0 then None else Some(Tilt(Take(s.bids, k), Take(s.asks, k)))
  }

  lemma {:induction false} ShownTop(m: Side, up: bool, depth: Option<nat>)
    requires depth.Some? ==> depth.value > 0
    ensures BestLevel(m, up) == if |Shown(m, up, depth)| == 0 then None else Some(Shown(m, up, depth)[0])
    ensures m == map[] <==> |Shown(m, up, depth)| == 0
  {
    LadderLists(m, up);
  }

  /** Spread, mid, weighted mid and imbalance read from a snapshot are those of the book it
      was taken from, whatever depth it shows. */
  lemma {:induction false} SnapshotMetricsAgree(symbol: string, b: Book, depth: Option<nat>, k: nat)
    requires b.ts.Some? && (depth.Some? ==> depth.value > 0)
    ensures var s := ToSnapshot(symbol, b, depth);
            && SnapSpread(s) == Spread(b) && SnapMid(s) == Mid(b)
            && SnapWeightedMid(s) == WeightedMid(b) && SnapImbalance(s, k) == Imbalance(b, depth, k)
  {
    ShownTop(b.bids, false, depth);
    ShownTop(b.asks, true, depth);
    hide Shown, BestLevel, WeightedMidpoint, Tilt, Take;
  }

  /** The metrics in terms of the prices themselves: of the highest bid and the lowest ask, and
      of the quantities shown on either side. */
  lemma {:induction false} MetricsTell(b: Book, bid: real, ask: real)
    requires Positive(b.bids) && Positive(b.asks) && bid in b.bids && ask in b.asks
    requires (forall p :: p in b.bids ==> p <= bid) && forall p :: p in b.asks ==> ask <= p
    ensures Spread(b) == Some(ask - bid)
    ensures Mid(b).Some? && Mid(b).value - bid == ask - Mid(b).value
    ensures WeightedMid(b).Some?
            && WeightedMid(b).value * (b.bids[bid] + b.asks[ask]) == bid * b.asks[ask] + ask * b.bids[bid]
  {
    assert Best(b.bids.Keys, false) == bid && Best(b.asks.Keys, true) == ask;
    var total := b.bids[bid] + b.asks[ask];
    WeightedIs(Level(bid, b.bids[bid]), Level(ask, b.asks[ask]));
    hide WeightedMidpoint;
  }

  lemma {:induction false} WeightedIs(bid: Level, ask: Level)
    requires bid.qty > 0.0 && ask.qty > 0.0
    ensures WeightedMidpoint(bid, ask) * (bid.qty + ask.qty) == bid.price * ask.qty + ask.price * bid.qty
  {
    var total, sum := bid.qty + ask.qty, bid.price * ask.qty + ask.price * bid.qty;
    assert sum / total * total == sum;
  }

  lemma {:induction false} ImbalanceTells(b: Book, depth: Option<nat>, k: nat)
    requires Positive(b.bids) && Positive(b.asks) && b.bids != map[] && b.asks != map[]
    requires k > 0 && (depth.Some? ==> depth.value > 0)
    ensures var bids := TotalQty(Take(Shown(b.bids, false, depth), k));
            var asks := TotalQty(Take(Shown(b.asks, true, depth), k));
            Imbalance(b, depth, k).Some? && Imbalance(b, depth, k).value * (bids + asks) == bids - asks
  {
    var bids, asks := Take(Shown(b.bids, false, depth), k), Take(Shown(b.asks, true, depth), k);
    ShownPositive(b.bids, false, depth, k);
    ShownPositive(b.asks, true, depth, k);
    hide TotalQty, Take, Shown, Positive, Tilt;
    TiltTells(bids, asks);
  }

  lemma {:induction false} TiltTells(bids: seq<Level>, asks: seq<Level>)
    requires TotalQty(bids) > 0.0 && TotalQty(asks) > 0.0
    ensures Tilt(bids, asks) * (TotalQty(bids) + TotalQty(asks)) == TotalQty(bids) - TotalQty(asks)
  {
    var x, y := TotalQty(bids), TotalQty(asks);
    hide TotalQty;
    var q := (x - y) / (x + y);
    assert q * (x + y) == x - y;
  }

  lemma {:induction false} TotalPositive(l: seq<Level>)
    requires |l| > 0 && forall i :: 0 <= i < |l| ==> l[i].qty > 0.0
    ensures TotalQty(l) > 0.0
  {
    if |l| > 1 {
      TotalPositive(l[1..]);
    } else {
      assert TotalQty(l[1..]) == 0.0;
    }
  }

  lemma {:induction false} TiltRange(b: real, a: real, t: real)
    requires b > 0.0 && a > 0.0 && t == (b - a) / (b + a)
    ensures -1.0 < t < 1.0 && (t > 0.0 <==> b > a)
  {
    var w := b + a;
    assert t * w == b - a;
    assert (1.0 - t) * w == 2.0 * a && (t + 1.0) * w == 2.0 * b;
    SignOf(1.0 - t, w);
    SignOf(t + 1.0, w);
    SignOf(t, w);
  }

  ghost predicate Good(b: Book) {
    Positive(b.bids) && Positive(b.asks) && !Crossed(b)
  }

  /** The imbalance of a book is strictly between -1 and 1, and positive exactly when the
      bids shown outweigh the asks. */
  lemma {:induction false} ImbalanceRange(b: Book, depth: Option<nat>, k: nat)
    requires Positive(b.bids) && Positive(b.asks) && b.bids != map[] && b.asks != map[]
    requires k > 0 && (depth.Some? ==> depth.value > 0)
    ensures var bids, asks := Take(Shown(b.bids, false, depth), k), Take(Shown(b.asks, true, depth), k);
            && Imbalance(b, depth, k).Some? && -1.0 < Imbalance(b, depth, k).value < 1.0
            && (Imbalance(b, depth, k).value > 0.0 <==> TotalQty(bids) > TotalQty(asks))
  {
    var bids, asks := Take(Shown(b.bids, false, depth), k), Take(Shown(b.asks, true, depth), k);
    ShownPositive(b.bids, false, depth, k);
    ShownPositive(b.asks, true, depth, k);
    hide Tilt, TotalQty, Take, Shown, Positive;
    TiltOf(bids, asks);
  }

  lemma {:induction false} TiltOf(bids: seq<Level>, asks: seq<Level>)
    requires TotalQty(bids) > 0.0 && TotalQty(asks) > 0.0
    ensures -1.0 < Tilt(bids, asks) < 1.0 && (Tilt(bids, asks) > 0.0 <==> TotalQty(bids) > TotalQty(asks))
  {
    hide TotalQty;
    TiltRange(TotalQty(bids), TotalQty(asks), Tilt(bids, asks));
  }

  lemma {:induction false} ShownPositive(m: Side, up: bool, depth: Option<nat>, k: nat)
    requires Positive(m) && m != map[] && k > 0 && (depth.Some? ==> depth.value > 0)
    ensures TotalQty(Take(Shown(m, up, depth), k)) > 0.0
  {
    SnapshotIsSortedTop(m, up, depth);
    ShownTop(m, up, depth);
    hide Shown;
    TotalPositive(Take(Shown(m, up, depth), k));
  }

  /** The weighted mid lies strictly inside the spread, and above the plain mid exactly when
      the best bid is larger than the best ask. */
  lemma {:induction false} WeightedMidInside(b: Book)
    requires Good(b) && b.bids != map[] && b.asks != map[]
    ensures var bid, ask := BestLevel(b.bids, false).value, BestLevel(b.asks, true).value;
            && WeightedMid(b).Some? && bid.price < WeightedMid(b).value < ask.price
            && (WeightedMid(b).value > Mid(b).value <==> bid.qty > ask.qty)
  {
    var bid, ask := BestLevel(b.bids, false).value, BestLevel(b.asks, true).value;
    var w := WeightedMidpoint(bid, ask);
    WeightedInside(bid.price, ask.price, bid.qty, ask.qty, w);
    hide WeightedMidpoint, Best;
  }

  lemma {:induction false} WeightedInside(p: real, q: real, bq: real, aq: real, w: real)
    requires p < q && bq > 0.0 && aq > 0.0 && w == (p * aq + q * bq) / (bq + aq)
    ensures p < w < q && (w > (p + q) / 2.0 <==> bq > aq)
  {
    var t, d := bq + aq, q - p;
    assert w * t == p * aq + q * bq;
    ShareOfSpread(w - p, q - w, t, d, bq, aq);
  }

  /** Two parts in proportion to two positive quantities are positive and ordered as they. */
  lemma {:induction false} ShareOfSpread(u: real, v: real, t: real, d: real, bq: real, aq: real)
    requires t > 0.0 && d > 0.0 && bq > 0.0 && aq > 0.0 && u * t == d * bq && v * t == d * aq
    ensures u > 0.0 && v > 0.0 && (u > v <==> bq > aq)
  {
    var x, y := u - v, bq - aq;
    assert x * t == d * y;
    SignOf(u, t);
    SignOf(v, t);
    SignOf(x, t);
    SignOf(bq, d);
    SignOf(aq, d);
    SignOf(y, d);
  }

  // ---------------------------------------------------------------- the book object

  class OrderBook {
    const symbol: string
    const strict: bool
    const depth: Option<nat>
    var bids: Side
    var asks: Side
    var lastTs: Option<int>
    var lastSeq: Option<int>
    var lastKind: Option<Kind>

    constructor (symbol: string, strict: bool, depth: Option<nat>)
      requires |symbol| > 0 && (depth.Some? ==> depth.value > 0)
      ensures View() == EMPTY && this.symbol == symbol && this.strict == strict && this.depth == depth
    {
      this.symbol, this.strict, this.depth := symbol, strict, depth;
      bids, asks, lastTs, lastSeq, lastKind := map[], map[], None, None, None;
    }

    function View(): Book
      reads this
    {
      Book(bids, asks, lastTs, lastSeq, lastKind)
    }

    method Apply(u: Update) returns (r: Result)
      modifies this
      ensures View() == After(symbol, strict, old(View()), u)
      ensures r == Outcome(symbol, strict, old(View()), u)
    {
      if u.symbol != symbol {
        return SymbolMismatch;
      }
      hide AfterSnapshot, Merged, Crossed;
      if u.kind == Snapshot {
        r := ApplySnapshot(u);
      } else {
        r := ApplyDelta(u);
      }
    }

    method ApplySnapshot(u: Update) returns (r: Result)
      modifies this
      ensures u.kind != Snapshot ==> r == WrongKind && View() == old(View())
      ensures u.kind == Snapshot ==> View() == AfterSnapshot(u) && r == if Crossed(View()) then CrossedBook else Applied
    {
      if u.kind != Snapshot {
        return WrongKind;
      }
      bids, asks := SnapshotSide(u.bids), SnapshotSide(u.asks);
      lastTs, lastSeq, lastKind := Some(u.ts), u.number, Some(Snapshot);
      r := if Crossed(View()) then CrossedBook else Applied;
    }

    /** The order matters: a stale or skipping delta is turned away before anything changes,
        a crossing is found after everything has. */
    method ApplyDelta(u: Update) returns (r: Result)
      modifies this
      ensures u.kind != Delta ==> r == WrongKind && View() == old(View())
      ensures u.kind == Delta && Stale(strict, old(View()), u) ==> r == Ignored && View() == old(View())
      ensures u.kind == Delta && Skips(strict, old(View()), u) ==> r == SequenceGap && View() == old(View())
      ensures u.kind == Delta && !Stale(strict, old(View()), u) && !Skips(strict, old(View()), u) ==>
                View() == Merged(old(View()), u) && r == if Crossed(View()) then CrossedBook else Applied
    {
      if u.kind != Delta {
        return WrongKind;
      }
      if strict && u.number.Some? && lastSeq.Some? {
        if u.number.value <= lastSeq.value {
          return Ignored;
        }
        if u.number.value != lastSeq.value + 1 {
          return SequenceGap;
        }
      }
      bids := MergeInto(bids, u.bids);
      asks := MergeInto(asks, u.asks);
      lastTs := Some(u.ts);
      if u.number.Some? {
        lastSeq := u.number;
      }
      lastKind := Some(Delta);
      r := if Crossed(View()) then CrossedBook else Applied;
    }

    static method MergeInto(side: Side, levels: seq<Level>) returns (r: Side)
      ensures r == MergeSide(side, levels)
    {
      r := side;
      for i := 0 to |levels|
        invariant r == MergeSide(side, levels[..i])
      {
        assert levels[..i + 1][..i] == levels[..i];
        if levels[i].qty == 0.0 {
          r := r - {levels[i].price};
        } else {
          r := r[levels[i].price := levels[i].qty];
        }
      }
      assert levels[..|levels|] == levels;
    }

    method Read() returns (s: Option<Snap>)
      ensures s == if lastTs.None? then None else Some(ToSnapshot(symbol, View(), depth))
    {
      if lastTs.None? {
        return None;
      }
      s := Some(ToSnapshot(symbol, View(), depth));
    }
  }
}
