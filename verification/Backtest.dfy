/** The bar-replay engine: entries, scale-outs, exits and the equity curve, with bounds
    that hold over every run. */
module Backtest {
  import opened Options
  import opened Reals
  import opened Sums

  // ---------------------------------------------------------------- data

  datatype Bar = Bar(day: int, high: real, low: real, close: real) {
    ghost predicate Sound() { 0.0 < low <= close <= high }
  }

  /** The spelling of a side.  The exit logic knows exactly "BUY" and "SELL".  OtherRise is
      every other spelling that upper-cases to BUY or LONG ("buy", "Long"), OtherFall every
      other one that upper-cases to SELL or SHORT, and Unknown all the rest. */
  datatype Side = Buy | Sell | OtherRise | OtherFall | Unknown {
    predicate Rising() { Buy? || OtherRise? }

    predicate Falling() { Sell? || OtherFall? }

    predicate Managed() { Buy? || Sell? }
  }

  /** What a strategy asks for when it opens a position.  The score is the one a trade would
      record, already rounded. */
  datatype Spec = Spec(side: Side, qty: real, entry: real, stop: real, target: real, riskUsd: real, score: real,
                       leverage: real, partialTarget: Option<real>, partialFrac: real)

  datatype OpenError = BadSide | StopWrongSide | TargetWrongSide | BadQty | BadEntry | BadFraction | PartialOutOfRange

  /** The mutable part of an open position. */
  datatype Live = Live(qty: real, stop: real, partialPnl: real, partialTaken: bool)

  datatype ExitReason = StopHit | TargetHit | RunnerStopHit | RunnerTargetHit | SessionEnd

  /** A closed trade: what was opened, what was left of it, and what it earned, before and
      after rounding to cents. */
  datatype Trade = Trade(spec: Spec, live: Live, exitPrice: real, reason: ExitReason, rawPnl: real, pnlUsd: real)

  /** The configuration fields the engine reads, with their validated ranges. */
  datatype Config = Config(initialEquity: real, riskPct: real, maxTradesPerDay: nat, stopR: real, targetR: real,
                           atrMult: real) {
    ghost predicate Accepted() {
      && initialEquity > 0.0 && 0.0 < riskPct <= 0.10 && maxTradesPerDay >= 1
      && stopR > 0.0 && targetR > 0.0 && atrMult > 0.0
    }

    function RewardRatio(): real
      requires stopR > 0.0
    {
      targetR / stopR
    }
  }

  // ---------------------------------------------------------------- opening

  /** The checks made when a position is constructed, in order. */
  function PostInit(s: Spec): Option<OpenError> {
    if s.side.Rising() && s.stop >= s.entry then Some(StopWrongSide)
    else if s.side.Rising() && s.target <= s.entry then Some(TargetWrongSide)
    else if s.side.Falling() && s.stop <= s.entry then Some(StopWrongSide)
    else if s.side.Falling() && s.target >= s.entry then Some(TargetWrongSide)
    else if !s.side.Rising() && !s.side.Falling() then Some(BadSide)
    else if s.qty <= 0.0 then Some(BadQty)
    else if s.entry <= 0.0 then Some(BadEntry)
    else if s.partialTarget.None? then None
    else if !(0.0 < s.partialFrac < 1.0) then Some(BadFraction)
    else if s.side.Rising() then
      if s.entry < s.partialTarget.value < s.target then None else Some(PartialOutOfRange)
    else
      if s.target < s.partialTarget.value < s.entry then None else Some(PartialOutOfRange)
  }

  /** 1 for a buy, -1 for everything else: the sign the engine puts on price moves. */
  function Dir(side: Side): real { if side == Buy then 1.0 else -1.0 }

  /** How far price x lies beyond price y in the trade's favour. */
  function Gain(side: Side, x: real, y: real): real { if side == Buy then x - y else y - x }

  /** A position the exit logic can manage: stop behind the entry, target ahead of it, the
      partial level in between. */
  ghost predicate Tradable(s: Spec) {
    && s.side.Managed()
    && s.qty > 0.0 && s.entry > 0.0
    && Gain(s.side, s.entry, s.stop) > 0.0 && Gain(s.side, s.target, s.entry) > 0.0
    && (s.partialTarget.Some? ==>
          && 0.0 < s.partialFrac < 1.0
          && 0.0 < Gain(s.side, s.partialTarget.value, s.entry) < Gain(s.side, s.target, s.entry))
  }

  /** For buys and sells, construction succeeds exactly on tradable positions. */
  lemma {:induction false} PostInitAcceptsTradable(s: Spec)
    requires s.side.Managed()
    ensures PostInit(s) == None <==> Tradable(s)
  {
    if s.partialTarget.Some? {
      var p := s.partialTarget.value;
      assert s.side == Buy ==> (0.0 < Gain(s.side, p, s.entry) <==> s.entry < p);
    }
  }

  /** Whatever the spelling of its side, a position is accepted exactly when its sizes are
      positive and stop, entry, partial and target come in this order, or in the opposite one. */
  lemma {:induction false} PostInitIff(s: Spec)
    ensures PostInit(s) == None <==>
              && s.qty > 0.0 && s.entry > 0.0
              && (s.side == Buy || s.side == OtherRise || s.side == Sell || s.side == OtherFall)
              && (s.partialTarget.Some? ==> 0.0 < s.partialFrac < 1.0)
              && if s.side == Buy || s.side == OtherRise then
                   s.stop < s.entry < s.target && (s.partialTarget.Some? ==> s.entry < s.partialTarget.value < s.target)
                 else
                   s.target < s.entry < s.stop && (s.partialTarget.Some? ==> s.target < s.partialTarget.value < s.entry)
  {
  }

  function FreshLive(s: Spec): Live { Live(s.qty, s.stop, 0.0, false) }

  // ---------------------------------------------------------------- exits

  function PartialHit(s: Spec, l: Live, b: Bar): bool {
    && s.partialTarget.Some? && !l.partialTaken
    && ((s.side == Buy && b.high >= s.partialTarget.value) || (s.side == Sell && b.low <= s.partialTarget.value))
  }

  /** Close the fraction at the partial level and pull the stop to break-even. */
  function AfterPartial(s: Spec, l: Live, b: Bar): Live {
    if PartialHit(s, l, b) then
      var qty := l.qty * s.partialFrac;
      Live(l.qty - qty, if s.side == Buy then Max(l.stop, s.entry) else Min(l.stop, s.entry),
           l.partialPnl + Dir(s.side) * (s.partialTarget.value - s.entry) * qty, true)
    else l
  }

  function IsStopHit(s: Spec, l: Live, b: Bar): bool {
    (s.side == Buy && b.low <= l.stop) || (s.side == Sell && b.high >= l.stop)
  }

  function IsTargetHit(s: Spec, b: Bar): bool {
    (s.side == Buy && b.high >= s.target) || (s.side == Sell && b.low <= s.target)
  }

  function RawPnl(s: Spec, l: Live, exitPrice: real): real {
    Dir(s.side) * (exitPrice - s.entry) * l.qty + l.partialPnl
  }

  function Tagged(l: Live, reason: ExitReason): ExitReason {
    if l.partialTaken && reason == TargetHit then RunnerTargetHit
    else if l.partialTaken && reason == StopHit then RunnerStopHit
    else reason
  }

  function CloseTrade(s: Spec, l: Live, exitPrice: real, reason: ExitReason, round2: real -> real): Trade {
    Trade(s, l, exitPrice, Tagged(l, reason), RawPnl(s, l, exitPrice), round2(RawPnl(s, l, exitPrice)))
  }

  /** What a trade record insists on of the position alone: its side spelled BUY or SELL, its
      score between 0 and 10, no negative leverage. */
  predicate Recordable(s: Spec) { s.side.Managed() && 0.0 <= s.score <= 10.0 && s.leverage >= 0.0 }

  /** What it insists on at the close: positive quantity and prices as well. */
  predicate Accepts(s: Spec, l: Live, exitPrice: real) {
    Recordable(s) && l.qty > 0.0 && s.entry > 0.0 && exitPrice > 0.0
  }

  /** What a bar does to a position: nothing, a booked trade, or a record that is refused,
      which raises. */
  datatype Exit = Stays | Booked(trade: Trade) | Raises

  function Closing(s: Spec, l: Live, exitPrice: real, reason: ExitReason, round2: real -> real): Exit {
    if Accepts(s, l, exitPrice) then Booked(CloseTrade(s, l, exitPrice, reason, round2)) else Raises
  }

  /** One bar against an open position: the partial first, then the stop, then the target. */
  function ExitStep(s: Spec, l: Live, b: Bar, round2: real -> real): (Live, Exit) {
    var l' := AfterPartial(s, l, b);
    if IsStopHit(s, l', b) then (l', Closing(s, l', l'.stop, StopHit, round2))
    else if IsTargetHit(s, b) then (l', Closing(s, l', s.target, TargetHit, round2))
    else (l', Stays)
  }

  /** What a scaled-out position looks like: the fraction closed for a locked profit, the
      runner's stop at break-even. */
  function Scaled(s: Spec): Live
    requires s.partialTarget.Some?
  {
    Live(s.qty - s.qty * s.partialFrac, s.entry,
         Dir(s.side) * (s.partialTarget.value - s.entry) * (s.qty * s.partialFrac), true)
  }

  /** Every position the engine can reach is untouched or scaled out, nothing else; only a
      managed side scales out. */
  ghost predicate Reachable(s: Spec, l: Live) {
    l == FreshLive(s) || (s.side.Managed() && s.partialTarget.Some? && l == Scaled(s))
  }

  /** Whatever the bars do, a side the exit logic does not know stays open and untouched. */
  lemma {:induction false} UnmanagedNeverMoves(s: Spec, l: Live, b: Bar, round2: real -> real)
    requires !s.side.Managed()
    ensures ExitStep(s, l, b, round2) == (l, Stays) && Survived(s, l, b)
  {
  }

  lemma {:induction false} ExitStepReachable(s: Spec, l: Live, b: Bar, round2: real -> real)
    requires Tradable(s) && Reachable(s, l)
    ensures Reachable(s, ExitStep(s, l, b, round2).0)
    ensures l.partialTaken ==> ExitStep(s, l, b, round2).0 == l
  {
    hide RawPnl;
    if PartialHit(s, l, b) {
      var d, q := Dir(s.side) * (s.partialTarget.value - s.entry), s.qty * s.partialFrac;
      assert 0.0 + d * q == d * q;
    }
  }

  /** One bar only ever tightens the stop, fires the partial at most once, and conserves
      quantity: what was closed and what runs on make up what was opened. */
  lemma {:induction false} ExitStepKeeps(s: Spec, l: Live, b: Bar, round2: real -> real)
    requires Tradable(s) && Reachable(s, l)
    ensures var l' := ExitStep(s, l, b, round2).0;
            && Gain(s.side, l'.stop, l.stop) >= 0.0
            && (l.partialTaken ==> l'.partialTaken && l'.qty == l.qty && l'.partialPnl == l.partialPnl)
            && 0.0 < l'.qty <= l.qty
            && l'.qty + (if l'.partialTaken then s.qty * s.partialFrac else 0.0) == s.qty
  {
    hide Dir, Closing;
    ExitStepReachable(s, l, b, round2);
    FractionLeft(s);
  }

  lemma {:induction false} FractionLeft(s: Spec)
    requires Tradable(s)
    ensures s.partialTarget.Some? ==> 0.0 < Scaled(s).qty < s.qty && Scaled(s).partialPnl > 0.0
  {
    hide Scaled, Dir;
    if s.partialTarget.Some? {
      var d, q := ScaledParts(s);
      DirGain(s.side, s.partialTarget.value, s.entry);
      ScaledOut(s.qty, s.partialFrac, q, d);
    }
  }

  lemma {:induction false} ScaledParts(s: Spec) returns (d: real, q: real)
    requires s.partialTarget.Some?
    ensures d == Dir(s.side) * (s.partialTarget.value - s.entry) && q == s.qty * s.partialFrac
    ensures Scaled(s).qty == s.qty - q && Scaled(s).partialPnl == d * q
  {
    hide Dir;
    d, q := Dir(s.side) * (s.partialTarget.value - s.entry), s.qty * s.partialFrac;
  }

  lemma {:induction false} DirGain(side: Side, x: real, y: real)
    requires side.Managed()
    ensures Dir(side) * (x - y) == Gain(side, x, y)
  {
  }

  lemma {:induction false} ScaledOut(qty: real, f: real, q: real, d: real)
    requires qty > 0.0 && 0.0 < f < 1.0 && q == qty * f && d > 0.0
    ensures 0.0 < qty - q < qty && d * q > 0.0
  {
    var left := 1.0 - f;
    Product(qty, f);
    Product(qty, left);
    assert qty * left == qty - q;
    Product(d, q);
  }

  lemma {:induction false} PnlByGain(s: Spec, l: Live, exitPrice: real)
    requires s.side.Managed()
    ensures RawPnl(s, l, exitPrice) == Gain(s.side, exitPrice, s.entry) * l.qty + l.partialPnl
  {
    assert Dir(s.side) * (exitPrice - s.entry) == Gain(s.side, exitPrice, s.entry);
  }

  /** After the partial, closing at break-even or better keeps at least the locked profit. */
  lemma {:induction false} LockedProfitKept(s: Spec, l: Live, exitPrice: real)
    requires Tradable(s) && Reachable(s, l) && l.partialTaken && Gain(s.side, exitPrice, s.entry) >= 0.0
    ensures RawPnl(s, l, exitPrice) >= l.partialPnl > 0.0
  {
    FractionLeft(s);
    PnlByGain(s, l, exitPrice);
    hide RawPnl;
    Product(Gain(s.side, exitPrice, s.entry), l.qty);
  }

  /** A bar that closes a scaled-out position leaves it with the locked profit or more. */
  lemma {:induction false} ScaledOutExitCannotLose(s: Spec, l: Live, b: Bar, round2: real -> real)
    requires Tradable(s) && Reachable(s, l)
    ensures var (l', t) := ExitStep(s, l, b, round2);
            t.Booked? && l'.partialTaken ==> t.trade.rawPnl >= l'.partialPnl > 0.0
  {
    ExitStepReachable(s, l, b, round2);
    var (l', t) := ExitStep(s, l, b, round2);
    if t.Booked? && l'.partialTaken {
      LockedProfitKept(s, l', t.trade.exitPrice);
    }
  }

  /** The bar was survived: the position is still open after being checked against it. */
  ghost predicate Survived(s: Spec, l: Live, b: Bar) {
    !IsStopHit(s, l, b) && !IsTargetHit(s, b)
  }

  /** On a sound bar a tradable position closes at a positive price, so its record is refused
      exactly when it is not recordable at all. */
  lemma {:induction false} ExitRaisesIff(s: Spec, l: Live, b: Bar, round2: real -> real)
    requires Tradable(s) && Reachable(s, l) && b.Sound()
    ensures ExitStep(s, l, b, round2).1 == Raises <==> !Survived(s, AfterPartial(s, l, b), b) && !Recordable(s)
  {
    ExitStepReachable(s, l, b, round2);
    FractionLeft(s);
    hide RawPnl, PartialHit;
  }

  /** The close of a survived bar lies strictly between stop and target. */
  lemma {:induction false} SurvivedClose(s: Spec, l: Live, b: Bar)
    requires s.side.Managed() && Survived(s, l, b) && b.Sound()
    ensures Gain(s.side, b.close, l.stop) > 0.0 && Gain(s.side, s.target, b.close) > 0.0
  {
  }

  // ---------------------------------------------------------------- unhandled sides

  /** Some bar can close a position exactly when its side is spelled BUY or SELL: every other
      spelling that passes construction is never stopped out and never takes profit. */
  lemma {:induction false} ClosableIffBuyOrSell(s: Spec, l: Live, round2: real -> real)
    ensures (exists b :: ExitStep(s, l, b, round2).1 != Stays) <==> s.side.Managed()
  {
    hide RawPnl;
    if s.side == Buy {
      assert ExitStep(s, l, Bar(0, s.target, 0.0, 0.0), round2).1 != Stays;
    } else if s.side == Sell {
      assert ExitStep(s, l, Bar(0, 0.0, s.target, 0.0), round2).1 != Stays;
    }
  }

  // ---------------------------------------------------------------- confluence entries

  /** Mean bar range over the last 14 bars. */
  function Atr(hist: seq<Bar>): real {
    if |hist| == 0 then 0.0 else
    var s := if |hist| > 14 then hist[|hist| - 14..] else hist;
    Total(seq(|s|, i requires 0 <= i < |s| => s[i].high - s[i].low)) / |s| as real
  }

  /** What the scorer and the bias say of a bar; the scorer's own checks bound the score. */
  datatype Signal = Signal(rising: bool, score: real, leverage: nat)

  type Scored = s: Signal | 0.0 <= s.score <= 10.0 witness Signal(true, 7.0, 1)

  /** The confluence path of entry.  `signal` stands for the gates, the scorer and the bias:
      it says whether this bar may be traded, and which way. */
  function EnterOnConfluence(cfg: Config, signal: seq<Bar> -> Option<Scored>, hist: seq<Bar>,
                             equity: real): Option<Spec>
    requires |hist| > 0 && cfg.stopR > 0.0 && cfg.atrMult > 0.0
  {
    var bar := hist[|hist| - 1];
    match signal(hist)
    case None => None
    case Some(Signal(rising, score, leverage)) =>
      var atr := Atr(hist);
      if atr <= 0.0 then None else
      var risk := equity * cfg.riskPct;
      var dist := StopDistance(cfg, atr);
      var qty := risk / dist;
      if qty <= 0.0 then None else
      var rr := cfg.RewardRatio();
      Some(Spec(if rising then Buy else Sell, qty, bar.close,
                if rising then bar.close - dist else bar.close + dist,
                if rising then bar.close + rr * dist else bar.close - rr * dist,
                risk, score, leverage as real, None, 0.5))
  }

  function StopDistance(cfg: Config, atr: real): (d: real)
    requires cfg.atrMult > 0.0 && atr > 0.0
    ensures d > 0.0
  {
    cfg.atrMult * atr
  }

  /** The risk and reward of a position, in account currency. */
  ghost predicate RiskBracket(s: Spec, risk: real, reward: real) {
    && s.partialTarget == None && risk > 0.0 && reward > 0.0
    && Gain(s.side, s.entry, s.stop) * s.qty == risk
    && Gain(s.side, s.target, s.entry) * s.qty == reward
  }

  /** A confluence entry is tradable, has no partial, and brackets exactly the configured
      risk against the configured multiple of it. */
  lemma {:induction false} ConfluenceBracket(cfg: Config, signal: seq<Bar> -> Option<Scored>, hist: seq<Bar>,
                                             equity: real)
    requires cfg.Accepted() && |hist| > 0 && hist[|hist| - 1].Sound()
    ensures var e := EnterOnConfluence(cfg, signal, hist, equity);
            e.Some? ==> Tradable(e.value) && Recordable(e.value) && e.value.entry == hist[|hist| - 1].close
                        && RiskBracket(e.value, equity * cfg.riskPct, cfg.RewardRatio() * (equity * cfg.riskPct))
  {
    var e := EnterOnConfluence(cfg, signal, hist, equity);
    if e.Some? {
      var risk, dist, rr := equity * cfg.riskPct, StopDistance(cfg, Atr(hist)), cfg.RewardRatio();
      hide Atr, StopDistance;
      assert rr > 0.0 by { DivisionPositive(cfg.targetR, cfg.stopR); }
      BracketSizes(risk, dist, rr);
      assert e.value.qty == risk / dist;
      assert Gain(e.value.side, e.value.entry, e.value.stop) == dist;
      assert Gain(e.value.side, e.value.target, e.value.entry) == rr * dist;
    }
  }

  /** How far each bar from bar `from` on ranged. */
  ghost function RangesOf(hist: seq<Bar>, from: int): int -> real {
    i => if 0 <= from + i < |hist| then hist[from + i].high - hist[from + i].low else 0.0
  }

  /** Its stop lies the configured multiple of the mean range of the last 14 bars away, or of
      all of them if there are fewer. */
  lemma {:induction false} ConfluenceStop(cfg: Config, signal: seq<Bar> -> Option<Scored>, hist: seq<Bar>, equity: real)
    requires cfg.Accepted() && |hist| > 0
    ensures var e, k := EnterOnConfluence(cfg, signal, hist, equity), if |hist| < 14 then |hist| else 14;
            e.Some? ==> Gain(e.value.side, e.value.entry, e.value.stop) * k as real
                        == cfg.atrMult * Sum(k, RangesOf(hist, |hist| - k))
  {
    var e, k := EnterOnConfluence(cfg, signal, hist, equity), if |hist| < 14 then |hist| else 14;
    if e.Some? {
      AtrTells(hist, k);
      var atr, n := Atr(hist), k as real;
      hide Atr, Sum;
      StopTimes(Gain(e.value.side, e.value.entry, e.value.stop), cfg.atrMult, atr, n);
    }
  }

  lemma {:induction false} StopTimes(gap: real, mult: real, atr: real, n: real)
    requires gap == mult * atr
    ensures gap * n == mult * (atr * n)
  {
    assert mult * atr * n == mult * (atr * n);
  }

  lemma {:induction false} AtrTells(hist: seq<Bar>, k: nat)
    requires |hist| > 0 && k == if |hist| < 14 then |hist| else 14
    ensures Atr(hist) * k as real == Sum(k, RangesOf(hist, |hist| - k))
  {
    var s := hist[|hist| - k..];
    var ranges := seq(|s|, i requires 0 <= i < |s| => s[i].high - s[i].low);
    assert s == if |hist| > 14 then hist[|hist| - 14..] else hist;
    TotalIsSum(ranges);
    SumCong(k, Reading(ranges), RangesOf(hist, |hist| - k));
    hide Sum, Total;
    var n := k as real;
    assert Total(ranges) / n * n == Total(ranges);
  }

  lemma {:induction false} DivisionPositive(a: real, b: real)
    requires a > 0.0 && b > 0.0
    ensures a / b > 0.0
  {
  }

  lemma {:induction false} BracketSizes(risk: real, dist: real, rr: real)
    requires dist > 0.0 && rr > 0.0
    ensures dist * (risk / dist) == risk && rr * dist * (risk / dist) == rr * risk
    ensures risk / dist > 0.0 ==> risk > 0.0 && rr * risk > 0.0
    ensures rr * dist > 0.0
  {
    var q := risk / dist;
    assert dist * q == risk;
    assert rr * dist * q == rr * (dist * q);
    if q > 0.0 {
      Product(dist, q);
      Product(rr, risk);
    }
  }

  /** Between its stop and its target a bracketed position earns between minus the risk and
      the reward. */
  lemma {:induction false} BracketedPnl(s: Spec, risk: real, reward: real, exitPrice: real)
    requires Tradable(s) && RiskBracket(s, risk, reward)
    requires Gain(s.side, exitPrice, s.stop) >= 0.0 && Gain(s.side, s.target, exitPrice) >= 0.0
    ensures -risk <= RawPnl(s, FreshLive(s), exitPrice) <= reward
  {
    PnlByGain(s, FreshLive(s), exitPrice);
    hide RawPnl;
    var g, up, down := Gain(s.side, exitPrice, s.entry), Gain(s.side, s.target, s.entry), Gain(s.side, s.entry, s.stop);
    Product(g + down, s.qty);
    Product(up - g, s.qty);
    assert (g + down) * s.qty == g * s.qty + down * s.qty;
    assert (up - g) * s.qty == up * s.qty - g * s.qty;
  }
}
