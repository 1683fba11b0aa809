/** Paper fills against an order-book snapshot: the greedy walk fills as much as can be
    filled, at the best price any allocation of that quantity could get. */
module LiveShadow {
  import opened Reals
  import opened Sums

  datatype BookLevel = BookLevel(price: real, size: real)

  datatype Side = Buy | Sell | Other

  datatype Order = Order(side: Side, size: real, requestedPx: real, feeBps: real, regime: string, session: string)

  datatype Book = Book(bids: seq<BookLevel>, asks: seq<BookLevel>, mid: real)

  datatype Reason = InvalidOrder | BookExhausted | Ok

  datatype Fill = Fill(ok: bool, filled: real, avgPrice: real, slippageBps: real, reason: Reason, consumed: nat,
                       regime: string, session: string)

  const DUST: real := 1.0e-12

  // ---------------------------------------------------------------- specification

  function LevelSize(levels: seq<BookLevel>, i: int): real {
    if 0 <= i < |levels| then levels[i].size else 0.0
  }

  function Price(levels: seq<BookLevel>, i: int): real {
    if 0 <= i < |levels| then levels[i].price else 0.0
  }

  /** What one level gives when `remaining` is still wanted. */
  function Take(remaining: real, size: real): real {
    if remaining <= 0.0 || size <= 0.0 then 0.0 else Min(remaining, size)
  }

  /** What is still wanted when the walk reaches level i. */
  ghost function Remaining(levels: seq<BookLevel>, size: real, i: nat): real {
    if i == 0 then size
    else Remaining(levels, size, i - 1) - Take(Remaining(levels, size, i - 1), LevelSize(levels, i - 1))
  }

  ghost function Taken(levels: seq<BookLevel>, size: real): int -> real {
    i => if i < 0 then 0.0 else Take(Remaining(levels, size, i), LevelSize(levels, i))
  }

  /** Positive quantity on offer at level i. */
  ghost function Offered(levels: seq<BookLevel>): int -> real {
    i => Max(0.0, LevelSize(levels, i))
  }

  ghost function Cost(levels: seq<BookLevel>, x: int -> real): int -> real {
    i => x(i) * Price(levels, i)
  }

  ghost function Filled(levels: seq<BookLevel>, size: real): real { Sum(|levels|, Taken(levels, size)) }

  ghost function Notional(levels: seq<BookLevel>, size: real): real { Sum(|levels|, Cost(levels, Taken(levels, size))) }

  ghost function Liquidity(levels: seq<BookLevel>, i: nat): real { Sum(i, Offered(levels)) }

  ghost function Vwap(levels: seq<BookLevel>, size: real): real {
    if Filled(levels, size) > 0.0 then Notional(levels, size) / Filled(levels, size) else 0.0
  }

  ghost function Consumed(levels: seq<BookLevel>, size: real, i: nat): nat {
    if i == 0 then 0 else Consumed(levels, size, i - 1) + if Taken(levels, size)(i - 1) > 0.0 then 1 else 0
  }

  /** x splits a quantity over the levels, taking no more than each offers. */
  ghost predicate Allocation(levels: seq<BookLevel>, x: int -> real) {
    forall i :: 0 <= i < |levels| ==> 0.0 <= x(i) <= Offered(levels)(i)
  }

  /** Best price first for a taker in direction dir: 1 for buying, -1 for selling. */
  ghost predicate BestFirst(levels: seq<BookLevel>, dir: real) {
    forall i, j :: 0 <= i < j < |levels| ==> Outlay(levels, dir, i) <= Outlay(levels, dir, j)
  }

  /** The price of level i as an outlay: higher is worse for the taker. */
  ghost function Outlay(levels: seq<BookLevel>, dir: real, i: int): real {
    dir * Price(levels, i)
  }

  // ---------------------------------------------------------------- quantities

  lemma {:induction false} FilledPlusRemaining(levels: seq<BookLevel>, size: real, i: nat)
    ensures Sum(i, Taken(levels, size)) + Remaining(levels, size, i) == size
  {
    hide Take, LevelSize, Taken;
    if i > 0 {
      FilledPlusRemaining(levels, size, i - 1);
      TakenAt(levels, size, i - 1);
    }
  }

  lemma {:induction false} TakenAt(levels: seq<BookLevel>, size: real, i: nat)
    ensures Taken(levels, size)(i) == Take(Remaining(levels, size, i), LevelSize(levels, i))
  {
    hide Take, LevelSize, Remaining;
  }

  /** The walk leaves exactly the part of the order that the levels so far cannot cover. */
  lemma {:induction false} RemainingIsShortfall(levels: seq<BookLevel>, size: real, i: nat)
    requires size > 0.0
    ensures Remaining(levels, size, i) == Max(0.0, size - Liquidity(levels, i))
    ensures Liquidity(levels, i) >= 0.0
  {
    if i > 0 {
      RemainingIsShortfall(levels, size, i - 1);
    }
  }

  /** The fill is as large as the book allows: the order, or all positive liquidity. */
  lemma {:induction false} FilledIsMaximal(levels: seq<BookLevel>, size: real)
    ensures size > 0.0 ==> Filled(levels, size) == Min(size, Liquidity(levels, |levels|))
    ensures size <= 0.0 ==> Filled(levels, size) == 0.0
    ensures Filled(levels, size) + Remaining(levels, size, |levels|) == size
  {
    FilledPlusRemaining(levels, size, |levels|);
    if size > 0.0 {
      RemainingIsShortfall(levels, size, |levels|);
    } else {
      NothingTaken(levels, size, |levels|);
    }
  }

  lemma {:induction false} NothingTaken(levels: seq<BookLevel>, size: real, n: nat)
    requires size <= 0.0
    ensures Remaining(levels, size, n) == size && Sum(n, Taken(levels, size)) == 0.0
  {
    hide Take, LevelSize;
    if n > 0 {
      NothingTaken(levels, size, n - 1);
      NothingWanted(size, LevelSize(levels, n - 1));
    }
  }

  lemma {:induction false} TakenIsAllocation(levels: seq<BookLevel>, size: real)
    ensures Allocation(levels, Taken(levels, size))
  {
  }

  // ---------------------------------------------------------------- optimality

  /** Once a level is left with anything on offer, nothing is wanted from any later one. */
  lemma {:induction false} StopsWhenServed(levels: seq<BookLevel>, size: real, i: nat, j: nat)
    requires i < j && Taken(levels, size)(i) < Offered(levels)(i)
    ensures Remaining(levels, size, j) <= 0.0 && Taken(levels, size)(j) == 0.0
  {
    hide Take, LevelSize;
    if i + 1 < j {
      StopsWhenServed(levels, size, i, j - 1);
      NothingWanted(Remaining(levels, size, j - 1), LevelSize(levels, j - 1));
    } else {
      LeavesOnlyWhenServed(Remaining(levels, size, i), LevelSize(levels, i));
    }
    NothingWanted(Remaining(levels, size, j), LevelSize(levels, j));
  }

  lemma {:induction false} NothingWanted(remaining: real, size: real)
    ensures remaining <= 0.0 ==> Take(remaining, size) == 0.0
  {
  }

  lemma {:induction false} LeavesOnlyWhenServed(remaining: real, size: real)
    ensures Take(remaining, size) < Max(0.0, size) ==> remaining - Take(remaining, size) <= 0.0
  {
  }

  /** The first of the first n levels with something left over, or n. */
  lemma {:induction false} FirstLeft(t: int -> real, offered: int -> real, n: nat) returns (i: nat)
    ensures i <= n && (i < n ==> t(i) < offered(i))
    ensures forall l :: 0 <= l < i ==> t(l) >= offered(l)
  {
    if n == 0 {
      i := 0;
    } else {
      i := FirstLeft(t, offered, n - 1);
      if i == n - 1 && t(i) >= offered(i) {
        i := n;
      }
    }
  }

  /** There is a pivot price: every level better than it is emptied, every worse one is
      untouched.  So moving any quantity between levels moves it to a worse price. */
  lemma {:induction false} Pivot(levels: seq<BookLevel>, size: real, dir: real) returns (p: real)
    requires BestFirst(levels, dir) && |levels| > 0
    ensures forall i :: 0 <= i < |levels| && Taken(levels, size)(i) < Offered(levels)(i) ==> p <= Outlay(levels, dir, i)
    ensures forall i :: 0 <= i < |levels| && Taken(levels, size)(i) > 0.0 ==> Outlay(levels, dir, i) <= p
  {
    hide Taken, Offered, Outlay;
    var n, t := |levels|, Taken(levels, size);
    var i := FirstLeft(t, Offered(levels), n);
    var at := if i < n then i else n - 1;
    p := Outlay(levels, dir, at);
    forall j | 0 <= j < n
      ensures t(j) < Offered(levels)(j) ==> p <= Outlay(levels, dir, j)
      ensures t(j) > 0.0 ==> Outlay(levels, dir, j) <= p
    {
      if i < j {
        StopsWhenServed(levels, size, i, j);
      }
    }
  }

  /** No other allocation of the filled quantity buys cheaper, or sells dearer. */
  lemma {:induction false} GreedyIsOptimal(levels: seq<BookLevel>, size: real, dir: real, x: int -> real)
    requires BestFirst(levels, dir) && Allocation(levels, x)
    requires Sum(|levels|, x) == Filled(levels, size)
    ensures dir * Notional(levels, size) <= dir * Sum(|levels|, Cost(levels, x))
  {
    hide Sum, Taken, Cost, BestFirst, Offered, Outlay;
    var n, t := |levels|, Taken(levels, size);
    if n > 0 {
      TakenIsAllocation(levels, size);
      var p := Pivot(levels, size, dir);
      var gain := i => dir * (Cost(levels, x)(i) - Cost(levels, t)(i)) - p * (x(i) - t(i));
      forall i | 0 <= i < n ensures gain(i) >= 0.0 {
        NoGain(levels, dir, x, t, p, i);
      }
      SumNonneg(n, gain);
      GainTotal(n, dir, p, Cost(levels, x), Cost(levels, t), x, t, gain);
      hide Allocation;
      FewerIsCheaper(dir, Sum(n, Cost(levels, x)), Sum(n, Cost(levels, t)), p, Sum(n, x) - Sum(n, t), Sum(n, gain));
    } else {
      EmptySums(levels, x, t);
    }
  }

  lemma {:induction false} EmptySums(levels: seq<BookLevel>, x: int -> real, t: int -> real)
    requires |levels| == 0
    ensures Sum(|levels|, Cost(levels, x)) == Sum(|levels|, Cost(levels, t)) == 0.0
  {
  }

  lemma {:induction false} FewerIsCheaper(dir: real, a: real, b: real, p: real, d: real, gain: real)
    requires gain == dir * (a - b) - p * d && d == 0.0 && gain >= 0.0
    ensures dir * b <= dir * a
  {
  }

  lemma {:induction false} NoGain(levels: seq<BookLevel>, dir: real, x: int -> real, t: int -> real, p: real, i: int)
    requires x(i) <= Offered(levels)(i) && 0.0 <= x(i)
    requires t(i) < Offered(levels)(i) ==> p <= Outlay(levels, dir, i)
    requires t(i) > 0.0 ==> Outlay(levels, dir, i) <= p
    ensures dir * (Cost(levels, x)(i) - Cost(levels, t)(i)) - p * (x(i) - t(i)) >= 0.0
  {
    MovingLoses(dir, x(i), t(i), Price(levels, i), p);
    CostAt(levels, x, i);
    CostAt(levels, t, i);
  }

  lemma {:induction false} CostAt(levels: seq<BookLevel>, x: int -> real, i: int)
    ensures Cost(levels, x)(i) == x(i) * Price(levels, i)
  {
  }

  lemma {:induction false} MovingLoses(dir: real, x: real, t: real, price: real, p: real)
    requires x > t ==> p <= dir * price
    requires x < t ==> dir * price <= p
    ensures dir * (x * price - t * price) - p * (x - t) >= 0.0
  {
    var v := dir * price;
    assert dir * (x * price - t * price) == v * (x - t);
    assert v * (x - t) - p * (x - t) == (v - p) * (x - t);
    SameSign(v - p, x - t);
  }

  lemma {:induction false} SameSign(a: real, b: real)
    requires (b > 0.0 ==> a >= 0.0) && (b < 0.0 ==> a <= 0.0)
    ensures a * b >= 0.0
  {
  }

  lemma {:induction false} GainTotal(n: nat, dir: real, p: real, cx: int -> real, ct: int -> real, x: int -> real,
                                     t: int -> real, gain: int -> real)
    requires forall i :: 0 <= i < n ==> gain(i) == dir * (cx(i) - ct(i)) - p * (x(i) - t(i))
    ensures Sum(n, gain) == dir * (Sum(n, cx) - Sum(n, ct)) - p * (Sum(n, x) - Sum(n, t))
  {
    if n > 0 {
      GainTotal(n - 1, dir, p, cx, ct, x, t, gain);
      GainStep(dir, p, Sum(n - 1, cx), cx(n - 1), Sum(n - 1, ct), ct(n - 1), Sum(n - 1, x), x(n - 1), Sum(n - 1, t),
               t(n - 1));
    } else {
      assert dir * 0.0 == 0.0 && p * 0.0 == 0.0;
    }
  }

  lemma {:induction false} GainStep(dir: real, p: real, a: real, a': real, b: real, b': real, c: real, c': real,
                                    d: real, d': real)
    ensures dir * (a - b) - p * (c - d) + (dir * (a' - b') - p * (c' - d'))
            == dir * (a + a' - (b + b')) - p * (c + c' - (d + d'))
  {
  }

  // ---------------------------------------------------------------- average price

  lemma {:induction false} ScaledAllocation(levels: seq<BookLevel>, size: real, r: real) returns (x: int -> real)
    requires 0.0 <= r <= 1.0
    ensures Allocation(levels, x)
    ensures Sum(|levels|, x) == r * Filled(levels, size)
    ensures Sum(|levels|, Cost(levels, x)) == r * Notional(levels, size)
  {
    hide Sum, Offered, Taken, Price, Cost;
    var t := Taken(levels, size);
    x := i => r * t(i);
    TakenIsAllocation(levels, size);
    forall i | 0 <= i < |levels|
      ensures 0.0 <= x(i) <= Offered(levels)(i) && Cost(levels, x)(i) == r * Cost(levels, t)(i)
    {
      ScaledCost(levels, t, x, r, i);
    }
    SumFactor(|levels|, r, t, x);
    SumFactor(|levels|, r, Cost(levels, t), Cost(levels, x));
  }

  lemma {:induction false} ScaledCost(levels: seq<BookLevel>, t: int -> real, x: int -> real, r: real, i: int)
    requires 0.0 <= r <= 1.0 && t(i) >= 0.0 && x(i) == r * t(i)
    ensures 0.0 <= x(i) <= t(i) && Cost(levels, x)(i) == r * Cost(levels, t)(i)
  {
    hide Price;
    ScaledLevel(r, t(i), x(i), Price(levels, i));
  }

  lemma {:induction false} ScaledLevel(r: real, t: real, x: real, price: real)
    requires 0.0 <= r <= 1.0 && t >= 0.0 && x == r * t
    ensures 0.0 <= x <= t && x * price == r * (t * price)
  {
    Shrink(r, t);
  }

  lemma {:induction false} Shrink(r: real, t: real)
    requires 0.0 <= r <= 1.0 && t >= 0.0
    ensures 0.0 <= r * t <= t
  {
    assert t - r * t == (1.0 - r) * t;
  }

  lemma {:induction false} FilledMonotone(levels: seq<BookLevel>, small: real, large: real)
    requires small <= large
    ensures Filled(levels, small) <= Filled(levels, large) && Filled(levels, small) >= 0.0
  {
    FilledIsMaximal(levels, small);
    FilledIsMaximal(levels, large);
    LiquidityNonnegative(levels, |levels|);
  }

  lemma {:induction false} LiquidityNonnegative(levels: seq<BookLevel>, n: nat)
    ensures Liquidity(levels, n) >= 0.0
  {
    SumNonneg(n, Offered(levels));
  }

  /** A larger order never gets a better average price. */
  lemma {:induction false} VwapMonotone(levels: seq<BookLevel>, small: real, large: real, dir: real)
    requires BestFirst(levels, dir) && small <= large && Filled(levels, small) > 0.0
    ensures dir * Vwap(levels, small) <= dir * Vwap(levels, large)
  {
    hide Filled, Notional, BestFirst;
    FilledMonotone(levels, small, large);
    var f, g, a, b := Filled(levels, small), Filled(levels, large), Notional(levels, small), Notional(levels, large);
    assert 0.0 <= f / g <= 1.0;
    var x := ScaledAllocation(levels, large, f / g);
    assert f / g * g == f;
    GreedyIsOptimal(levels, small, dir, x);
    CompareAverages(dir, a, b, f, g);
  }

  lemma {:induction false} CompareAverages(dir: real, a: real, b: real, f: real, g: real)
    requires f > 0.0 && g > 0.0 && dir * a <= dir * (f / g * b)
    ensures dir * (a / f) <= dir * (b / g)
  {
    var va, vb := a / f, b / g;
    assert a == va * f && b == vb * g;
    assert f / g * b == f * vb by {
      assert f / g * (vb * g) == (f / g * g) * vb;
    }
    assert dir * a == (dir * va) * f && dir * (f * vb) == (dir * vb) * f;
    CancelFactor(dir * va, dir * vb, f);
  }

  lemma {:induction false} CancelFactor(u: real, v: real, f: real)
    requires f > 0.0 && u * f <= v * f
    ensures u <= v
  {
  }

  /** When no level is better than the mid, neither is the average price paid. */
  lemma {:induction false} VwapNoBetterThanMid(levels: seq<BookLevel>, size: real, dir: real, mid: real)
    requires forall i :: 0 <= i < |levels| ==> dir * mid <= Outlay(levels, dir, i)
    requires Filled(levels, size) > 0.0
    ensures dir * mid <= dir * Vwap(levels, size)
  {
    hide Notional, Filled, Outlay, Price;
    NotionalFloor(levels, size, dir, mid);
    FloorAverage(dir * mid, dir, Notional(levels, size), Filled(levels, size));
  }

  lemma {:induction false} FloorAverage(b: real, dir: real, n: real, f: real)
    requires f > 0.0 && b * f <= dir * n
    ensures b <= dir * (n / f)
  {
    var v := n / f;
    assert v * f == n;
    assert dir * (v * f) == (dir * v) * f;
    CancelFactor(b, dir * v, f);
  }

  lemma {:induction false} NotionalFloor(levels: seq<BookLevel>, size: real, dir: real, mid: real)
    requires forall i :: 0 <= i < |levels| ==> dir * mid <= Outlay(levels, dir, i)
    ensures (dir * mid) * Filled(levels, size) <= dir * Notional(levels, size)
  {
    hide Taken, Sum, Offered, Price, Cost, Outlay;
    var t, c := Taken(levels, size), Cost(levels, Taken(levels, size));
    TakenIsAllocation(levels, size);
    var low, out := i => (dir * mid) * t(i), i => dir * c(i);
    forall i | 0 <= i < |levels| ensures low(i) <= out(i) {
      CostAt(levels, t, i);
      OutlayAt(levels, dir, i);
      PriceFloor(dir, mid, Price(levels, i), t(i));
    }
    SumMonotone(|levels|, low, out);
    SumFactor(|levels|, dir * mid, t, low);
    SumFactor(|levels|, dir, c, out);
  }

  lemma {:induction false} OutlayAt(levels: seq<BookLevel>, dir: real, i: int)
    ensures Outlay(levels, dir, i) == dir * Price(levels, i)
  {
  }

  lemma {:induction false} PriceFloor(dir: real, mid: real, price: real, t: real)
    requires dir * mid <= dir * price && t >= 0.0
    ensures (dir * mid) * t <= dir * (t * price)
  {
    assert dir * (t * price) == (dir * price) * t;
  }

  // ---------------------------------------------------------------- the program

  /** How the walk's four running totals change at level i. */
  lemma {:induction false} WalkStep(levels: seq<BookLevel>, size: real, i: nat, take: real)
    requires i < |levels| && take == Take(Remaining(levels, size, i), levels[i].size)
    ensures Remaining(levels, size, i + 1) == Remaining(levels, size, i) - take
    ensures Consumed(levels, size, i + 1) == Consumed(levels, size, i) + if take > 0.0 then 1 else 0
    ensures Sum(i + 1, Taken(levels, size)) == Sum(i, Taken(levels, size)) + take
    ensures Sum(i + 1, Cost(levels, Taken(levels, size)))
            == Sum(i, Cost(levels, Taken(levels, size))) + take * levels[i].price
  {
    var t := Taken(levels, size);
    assert t(i) == take;
    hide Taken, Remaining, Take;
    CostOf(levels, t, i, take);
    hide Cost;
  }

  lemma {:induction false} CostOf(levels: seq<BookLevel>, x: int -> real, i: int, take: real)
    requires x(i) == take && 0 <= i < |levels|
    ensures Cost(levels, x)(i) == take * levels[i].price
  {
  }

  lemma {:induction false} WalkSkip(levels: seq<BookLevel>, size: real, i: nat)
    requires i < |levels| && Take(Remaining(levels, size, i), levels[i].size) == 0.0
    ensures Remaining(levels, size, i + 1) == Remaining(levels, size, i)
    ensures Consumed(levels, size, i + 1) == Consumed(levels, size, i)
    ensures Sum(i + 1, Taken(levels, size)) == Sum(i, Taken(levels, size))
    ensures Sum(i + 1, Cost(levels, Taken(levels, size))) == Sum(i, Cost(levels, Taken(levels, size)))
  {
    hide Taken, Remaining, Consumed, Sum, Cost, Take;
    WalkStep(levels, size, i, 0.0);
    assert 0.0 * levels[i].price == 0.0;
  }

  lemma {:induction false} WalkStart(levels: seq<BookLevel>, size: real)
    ensures Remaining(levels, size, 0) == size && Consumed(levels, size, 0) == 0
    ensures Sum(0, Taken(levels, size)) == 0.0 && Sum(0, Cost(levels, Taken(levels, size))) == 0.0
  {
  }

  /** Once served, nothing changes to the end of the book. */
  lemma {:induction false} ServedStaysServed(levels: seq<BookLevel>, size: real, i: nat, n: nat)
    requires i <= n <= |levels| && Remaining(levels, size, i) <= 0.0
    ensures Remaining(levels, size, n) == Remaining(levels, size, i)
            && Consumed(levels, size, n) == Consumed(levels, size, i)
    ensures Sum(n, Taken(levels, size)) == Sum(i, Taken(levels, size))
    ensures Sum(n, Cost(levels, Taken(levels, size))) == Sum(i, Cost(levels, Taken(levels, size)))
  {
    hide Taken, Remaining, Consumed, Sum, Cost;
    if i < n {
      ServedStaysServed(levels, size, i, n - 1);
      WalkSkip(levels, size, n - 1);
    }
  }

  /** Walk the levels greedily until the order is served. */
  method WalkBook(levels: seq<BookLevel>, size: real) returns (filled: real, vwap: real, consumed: nat, remaining: real)
    ensures filled == Filled(levels, size) && vwap == Vwap(levels, size)
    ensures consumed == Consumed(levels, size, |levels|)
    ensures remaining == Remaining(levels, size, |levels|)
  {
    hide Taken, Remaining, Consumed, Sum, Cost;
    var notional := 0.0;
    WalkStart(levels, size);
    remaining, filled, consumed := size, 0.0, 0;
    var i := 0;
    while i < |levels|
      invariant 0 <= i <= |levels|
      invariant remaining == Remaining(levels, size, i) && consumed == Consumed(levels, size, i)
      invariant filled == Sum(i, Taken(levels, size)) && notional == Sum(i, Cost(levels, Taken(levels, size)))
    {
      if remaining <= 0.0 {
        ServedStaysServed(levels, size, i, |levels|);
        i := |levels|;
        break;
      }
      if levels[i].size > 0.0 {
        var take := Min(remaining, levels[i].size);
        WalkStep(levels, size, i, take);
        notional := notional + take * levels[i].price;
        filled := filled + take;
        remaining := remaining - take;
        consumed := consumed + 1;
      } else {
        WalkSkip(levels, size, i);
      }
      i := i + 1;
    }
    vwap := if filled > 0.0 then notional / filled else 0.0;
  }

  function Direction(side: Side): real { if side == Buy then 1.0 else -1.0 }

  function Levels(side: Side, book: Book): seq<BookLevel> { if side == Buy then book.asks else book.bids }

  predicate Rejected(order: Order, book: Book) {
    order.size <= 0.0 || order.requestedPx <= 0.0 || book.mid <= 0.0 || order.side == Other
  }

  function NoFill(order: Order, reason: Reason): Fill {
    Fill(false, 0.0, 0.0, 0.0, reason, 0, order.regime, order.session)
  }

  function SlippageBps(order: Order, vwap: real, mid: real): real
    requires mid != 0.0
  {
    var raw := (vwap - mid) / mid * 10_000.0;
    (if order.side == Buy then raw else -raw) + order.feeBps
  }

  /** The order can be filled at all: positive numbers, and a side that is BUY or SELL. */
  ghost predicate Fillable(order: Order, book: Book) {
    order.size > 0.0 && order.requestedPx > 0.0 && book.mid > 0.0 && (order.side == Buy || order.side == Sell)
  }

  /** What a fill must say: a buy takes from the asks and a sell from the bids, all there is up
      to the size of the order; it is ok exactly when that is the order, up to dust; it reports
      what was paid, and how much worse than the mid that was, on top of the fee. */
  ghost predicate Reports(order: Order, book: Book, fill: Fill) {
    var levels := if order.side == Buy then book.asks else book.bids;
    var liq := Liquidity(levels, |levels|);
    && fill.regime == order.regime && fill.session == order.session
    && if !Fillable(order, book) then
         !fill.ok && fill.reason == InvalidOrder && fill.filled == 0.0 && fill.consumed == 0
       else
         && fill.filled == Min(order.size, liq)
         && (fill.ok <==> liq > 0.0 && liq >= order.size - 1.0e-12)
         && fill.reason == (if fill.ok then Ok else BookExhausted)
         && (liq > 0.0 ==>
               && fill.avgPrice * fill.filled == Notional(levels, order.size)
               && (fill.slippageBps - order.feeBps) * book.mid
                  == 10_000.0 * (if order.side == Buy then fill.avgPrice - book.mid else book.mid - fill.avgPrice))
         && (liq <= 0.0 ==> fill.avgPrice == 0.0 && fill.slippageBps == 0.0 && fill.consumed == 0)
  }

  /** The record the program builds for an order that can be filled. */
  ghost function FillOf(order: Order, book: Book): Fill
    requires book.mid != 0.0
  {
    var levels := Levels(order.side, book);
    var served := Remaining(levels, order.size, |levels|) <= DUST;
    Fill(served, Filled(levels, order.size), Vwap(levels, order.size),
         SlippageBps(order, Vwap(levels, order.size), book.mid),
         if served then Ok else BookExhausted, Consumed(levels, order.size, |levels|), order.regime, order.session)
  }

  lemma {:induction false} NoFillReports(order: Order, book: Book)
    ensures Rejected(order, book) ==> Reports(order, book, NoFill(order, InvalidOrder))
    ensures !Rejected(order, book) && Filled(Levels(order.side, book), order.size) <= 0.0
            ==> Reports(order, book, NoFill(order, BookExhausted))
  {
    if !Rejected(order, book) {
      FilledIsMaximal(Levels(order.side, book), order.size);
      RemainingIsShortfall(Levels(order.side, book), order.size, |Levels(order.side, book)|);
    }
    hide Filled, Liquidity;
  }

  lemma {:induction false} FillReports(order: Order, book: Book)
    requires !Rejected(order, book) && Filled(Levels(order.side, book), order.size) > 0.0
    ensures Reports(order, book, FillOf(order, book))
  {
    hide Filled, Liquidity, Remaining, Vwap, SlippageBps, Notional, Consumed;
    var levels := Levels(order.side, book);
    FilledIsMaximal(levels, order.size);
    RemainingIsShortfall(levels, order.size, |levels|);
    VwapIs(levels, order.size);
    SlippageIs(order, Vwap(levels, order.size), book.mid);
  }

  lemma {:induction false} VwapIs(levels: seq<BookLevel>, size: real)
    requires Filled(levels, size) > 0.0
    ensures Vwap(levels, size) * Filled(levels, size) == Notional(levels, size)
  {
    hide Filled, Notional;
    var v, f := Vwap(levels, size), Filled(levels, size);
    assert Notional(levels, size) / f * f == Notional(levels, size);
  }

  lemma {:induction false} SlippageIs(order: Order, vwap: real, mid: real)
    requires mid > 0.0
    ensures (SlippageBps(order, vwap, mid) - order.feeBps) * mid
            == 10_000.0 * (if order.side == Buy then vwap - mid else mid - vwap)
  {
    var gap := (vwap - mid) / mid;
    assert gap * mid == vwap - mid;
    var above := SlippageBps(order, vwap, mid) - order.feeBps;
    assert above == if order.side == Buy then gap * 10_000.0 else -(gap * 10_000.0);
    hide SlippageBps;
    SignedGap(gap, mid, vwap - mid, above, order.side == Buy);
  }

  lemma {:induction false} SignedGap(gap: real, mid: real, diff: real, above: real, buys: bool)
    requires gap * mid == diff && above == if buys then gap * 10_000.0 else -(gap * 10_000.0)
    ensures above * mid == 10_000.0 * (if buys then diff else -diff)
  {
    if buys {
      assert (gap * 10_000.0) * mid == 10_000.0 * (gap * mid);
    } else {
      assert (-(gap * 10_000.0)) * mid == -(10_000.0 * (gap * mid));
    }
  }

  method SimulateFill(order: Order, book: Book) returns (fill: Fill)
    ensures Reports(order, book, fill)
    ensures Rejected(order, book) ==> fill == NoFill(order, InvalidOrder)
    ensures !Rejected(order, book) ==>
              fill == if Filled(Levels(order.side, book), order.size) <= 0.0 then NoFill(order, BookExhausted)
                      else FillOf(order, book)
  {
    hide Filled, Vwap, Remaining, Consumed, SlippageBps, Reports;
    NoFillReports(order, book);
    if order.size <= 0.0 || order.requestedPx <= 0.0 || book.mid <= 0.0 {
      return NoFill(order, InvalidOrder);
    }
    var levels: seq<BookLevel>;
    if order.side == Buy {
      levels := book.asks;
    } else if order.side == Sell {
      levels := book.bids;
    } else {
      return NoFill(order, InvalidOrder);
    }
    var filled, vwap, consumed, remaining := WalkBook(levels, order.size);
    if filled <= 0.0 {
      return NoFill(order, BookExhausted);
    }
    FillReports(order, book);
    var bps := SlippageBps(order, vwap, book.mid);
    if remaining > DUST {
      fill := Fill(false, filled, vwap, bps, BookExhausted, consumed, order.regime, order.session);
    } else {
      fill := Fill(true, filled, vwap, bps, Ok, consumed, order.regime, order.session);
    }
  }

  /** A paper fill is reported ok exactly when the taker side holds the order, up to dust;
      otherwise it reports all the liquidity there was. */
  lemma {:induction false} OkIffLiquid(order: Order, book: Book)
    requires !Rejected(order, book)
    ensures var levels, liq := Levels(order.side, book),
            Liquidity(Levels(order.side, book), |Levels(order.side, book)|);
            && (Remaining(levels, order.size, |levels|) <= DUST <==> liq >= order.size - DUST)
            && (Remaining(levels, order.size, |levels|) > DUST ==> Filled(levels, order.size) == liq)
  {
    FilledIsMaximal(Levels(order.side, book), order.size);
    RemainingIsShortfall(Levels(order.side, book), order.size, |Levels(order.side, book)|);
  }

  /** The taker never reports negative slippage before fees: with no level better than the
      mid, slippage is at least the fee. */
  lemma {:induction false} SlippageCoversFee(order: Order, book: Book)
    requires !Rejected(order, book) && Filled(Levels(order.side, book), order.size) > 0.0
    requires forall i :: 0 <= i < |Levels(order.side, book)| ==>
      Direction(order.side) * book.mid <= Outlay(Levels(order.side, book), Direction(order.side), i)
    ensures SlippageBps(order, Vwap(Levels(order.side, book), order.size), book.mid) >= order.feeBps
  {
    hide Vwap, Filled;
    var levels := Levels(order.side, book);
    VwapNoBetterThanMid(levels, order.size, Direction(order.side), book.mid);
    var gap := Vwap(levels, order.size) - book.mid;
    QuotientSign(gap, book.mid);
  }

  lemma {:induction false} QuotientSign(x: real, d: real)
    requires d > 0.0
    ensures (x >= 0.0 ==> x / d >= 0.0) && (x <= 0.0 ==> x / d <= 0.0)
  {
  }
}
