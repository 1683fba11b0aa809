/** Whole runs of the backtest engine: the loop over bars, and what holds of every run. */
module BacktestRun {
  import opened Backtest
  import opened Options
  import opened Reals

  /** What opens positions, given the bars so far and the current equity. */
  type Strategy = (seq<Bar>, real) -> Option<Spec>

  datatype Opened = Opened(spec: Spec, live: Live)

  /** The engine between two bars.  entryDays records the day of every entry so far; once a
      record was refused the run has raised, and the engine stays as it was left. */
  datatype Engine = Engine(equity: real, curve: seq<real>, trades: seq<Trade>, hist: seq<Bar>, open: Option<Opened>,
                           lastDay: Option<int>, nToday: nat, entryDays: seq<int>, raised: bool)

  function Start(cfg: Config): Engine {
    Engine(cfg.initialEquity, [cfg.initialEquity], [], [], None, None, 0, [], false)
  }

  function Book(st: Engine, t: Trade): Engine {
    st.(equity := st.equity + t.pnlUsd, curve := st.curve + [st.equity + t.pnlUsd], trades := st.trades + [t],
        open := None)
  }

  /** Record the bar and restart the day's entry budget when the date changes. */
  function SeeBar(st: Engine, b: Bar): Engine {
    st.(hist := st.hist + [b], nToday := if st.lastDay == Some(b.day) then st.nToday else 0, lastDay := Some(b.day))
  }

  function Settle(st: Engine, o: Opened, e: Exit): Engine {
    match e
    case Stays => st.(open := Some(o))
    case Booked(t) => Book(st, t)
    case Raises => st.(open := Some(o), raised := true)
  }

  function ExitBar(st: Engine, b: Bar, round2: real -> real): Engine {
    match st.open
    case None => st
    case Some(o) =>
      var (live, e) := ExitStep(o.spec, o.live, b, round2);
      Settle(st, Opened(o.spec, live), e)
  }

  function EnterBar(cfg: Config, strategy: Strategy, st: Engine, b: Bar): Engine {
    if st.open.Some? || st.nToday >= cfg.maxTradesPerDay then st else
    match strategy(st.hist, st.equity)
    case None => st
    case Some(s) => st.(open := Some(Opened(s, FreshLive(s))), nToday := st.nToday + 1,
                        entryDays := st.entryDays + [b.day])
  }

  function StepBar(cfg: Config, strategy: Strategy, round2: real -> real, st: Engine, b: Bar): Engine {
    if st.raised then st else EnterBar(cfg, strategy, ExitBar(SeeBar(st, b), b, round2), b)
  }

  function AfterBars(cfg: Config, strategy: Strategy, round2: real -> real, bars: seq<Bar>): Engine {
    if |bars| == 0 then Start(cfg)
    else StepBar(cfg, strategy, round2, AfterBars(cfg, strategy, round2, bars[..|bars| - 1]), bars[|bars| - 1])
  }

  /** Close whatever is open at the last bar's close. */
  function Finish(st: Engine, round2: real -> real): Engine {
    if !st.raised && st.open.Some? && |st.hist| > 0 then
      var o := st.open.value;
      Settle(st, o, Closing(o.spec, o.live, st.hist[|st.hist| - 1].close, SessionEnd, round2))
    else st
  }

  function FinalState(cfg: Config, strategy: Strategy, round2: real -> real, bars: seq<Bar>): Engine {
    Finish(AfterBars(cfg, strategy, round2, bars), round2)
  }

  /** Construction checks every position a strategy returns, so only accepted ones exist. */
  ghost predicate OpensConstructed(strategy: Strategy) {
    forall hist, equity :: |hist| > 0 && SoundBars(hist) && strategy(hist, equity).Some?
      ==> PostInit(strategy(hist, equity).value) == None
  }

  /** What every open position satisfies, whatever its side. */
  ghost predicate Alive(s: Spec, l: Live) {
    PostInit(s) == None && Reachable(s, l)
  }

  ghost predicate SoundBars(bars: seq<Bar>) {
    forall i :: 0 <= i < |bars| ==> bars[i].Sound()
  }

  // ---------------------------------------------------------------- the ledger

  /** The curve is the initial equity followed by its sums with each trade in turn. */
  ghost predicate Ledger(cfg: Config, st: Engine) {
    && |st.curve| == |st.trades| + 1 && st.curve[0] == cfg.initialEquity
    && st.equity == st.curve[|st.trades|]
    && forall i :: 0 <= i < |st.trades| ==> st.curve[i + 1] == st.curve[i] + st.trades[i].pnlUsd
  }

  lemma {:induction false} BookKeepsLedger(cfg: Config, st: Engine, t: Trade)
    requires Ledger(cfg, st)
    ensures Ledger(cfg, Book(st, t))
  {
  }

  lemma {:induction false} SettleKeepsLedger(cfg: Config, st: Engine, o: Opened, e: Exit)
    requires Ledger(cfg, st)
    ensures Ledger(cfg, Settle(st, o, e)) && Settle(st, o, e).hist == st.hist
  {
    hide Ledger;
    if e.Booked? {
      BookKeepsLedger(cfg, st, e.trade);
    } else {
      LedgerFields(cfg, st, Settle(st, o, e));
    }
  }

  lemma {:induction false} ExitKeepsLedger(cfg: Config, st: Engine, b: Bar, round2: real -> real)
    requires Ledger(cfg, st)
    ensures Ledger(cfg, ExitBar(st, b, round2)) && ExitBar(st, b, round2).hist == st.hist
  {
    hide Ledger, ExitStep, Settle;
    if st.open.Some? {
      var (live, e) := ExitStep(st.open.value.spec, st.open.value.live, b, round2);
      SettleKeepsLedger(cfg, st, Opened(st.open.value.spec, live), e);
    }
  }

  lemma {:induction false} SeeAndEnterKeepLedger(cfg: Config, strategy: Strategy, st: Engine, b: Bar)
    requires Ledger(cfg, st)
    ensures Ledger(cfg, SeeBar(st, b)) && SeeBar(st, b).hist == st.hist + [b]
    ensures Ledger(cfg, EnterBar(cfg, strategy, st, b)) && EnterBar(cfg, strategy, st, b).hist == st.hist
  {
    hide Ledger;
    LedgerFields(cfg, st, SeeBar(st, b));
    LedgerFields(cfg, st, EnterBar(cfg, strategy, st, b));
  }

  lemma {:induction false} RunKeepsLedger(cfg: Config, strategy: Strategy, round2: real -> real, bars: seq<Bar>)
    ensures var st := AfterBars(cfg, strategy, round2, bars); Ledger(cfg, st) && (!st.raised ==> st.hist == bars)
  {
    hide SeeBar, ExitBar, EnterBar;
    if |bars| > 0 {
      var front, b := bars[..|bars| - 1], bars[|bars| - 1];
      RunKeepsLedger(cfg, strategy, round2, front);
      AfterBarsStep(cfg, strategy, round2, bars);
      var st := AfterBars(cfg, strategy, round2, front);
      hide AfterBars, Ledger;
      if !st.raised {
        SeeAndEnterKeepLedger(cfg, strategy, st, b);
        ExitKeepsLedger(cfg, SeeBar(st, b), b, round2);
        SeeAndEnterKeepLedger(cfg, strategy, ExitBar(SeeBar(st, b), b, round2), b);
        assert front + [b] == bars;
      }
    }
  }

  lemma {:induction false} LedgerFields(cfg: Config, a: Engine, b: Engine)
    requires Ledger(cfg, a) && a.equity == b.equity && a.curve == b.curve && a.trades == b.trades
    ensures Ledger(cfg, b)
  {
  }

  ghost function PnlSum(trades: seq<Trade>): real {
    if |trades| == 0 then 0.0 else PnlSum(trades[..|trades| - 1]) + trades[|trades| - 1].pnlUsd
  }

  lemma {:induction false} LedgerPrefixSums(cfg: Config, st: Engine, n: nat)
    requires Ledger(cfg, st) && n <= |st.trades|
    ensures st.curve[n] == cfg.initialEquity + PnlSum(st.trades[..n])
  {
    if n > 0 {
      LedgerPrefixSums(cfg, st, n - 1);
      assert st.trades[..n][..n - 1] == st.trades[..n - 1];
    }
  }

  /** On every run, whether it returns or raises, equity after n trades is the initial equity
      plus the first n results. */
  lemma {:induction false} CurveIsPrefixSums(cfg: Config, strategy: Strategy, round2: real -> real, bars: seq<Bar>,
                                             n: nat)
    requires n <= |FinalState(cfg, strategy, round2, bars).trades|
    ensures var st := FinalState(cfg, strategy, round2, bars);
            && |st.curve| == |st.trades| + 1
            && st.curve[n] == cfg.initialEquity + PnlSum(st.trades[..n])
  {
    FinalLedger(cfg, strategy, round2, bars);
    LedgerPrefixSums(cfg, FinalState(cfg, strategy, round2, bars), n);
  }

  lemma {:induction false} FinalLedger(cfg: Config, strategy: Strategy, round2: real -> real, bars: seq<Bar>)
    ensures Ledger(cfg, FinalState(cfg, strategy, round2, bars))
  {
    RunKeepsLedger(cfg, strategy, round2, bars);
    var st := AfterBars(cfg, strategy, round2, bars);
    hide Ledger, AfterBars, Settle, Closing;
    if !st.raised && st.open.Some? && |st.hist| > 0 {
      var o := st.open.value;
      SettleKeepsLedger(cfg, st, o, Closing(o.spec, o.live, st.hist[|st.hist| - 1].close, SessionEnd, round2));
    }
  }

  // ---------------------------------------------------------------- positions over a run

  /** Whatever is open was either just opened, or survived the last bar. */
  ghost predicate OpenSound(st: Engine) {
    st.open.Some? ==>
      var o := st.open.value;
      && Alive(o.spec, o.live) && |st.hist| > 0
      && (o.live == FreshLive(o.spec) || Survived(o.spec, o.live, st.hist[|st.hist| - 1]))
  }

  /** A closed trade that had scaled out kept at least the profit it locked in. */
  ghost predicate TradeSound(t: Trade, round2: real -> real) {
    && Alive(t.spec, t.live) && Accepts(t.spec, t.live, t.exitPrice)
    && t.rawPnl == RawPnl(t.spec, t.live, t.exitPrice) && t.pnlUsd == round2(t.rawPnl)
    && (t.live.partialTaken ==> t.rawPnl >= t.live.partialPnl > 0.0)
  }

  ghost predicate TradesSound(st: Engine, round2: real -> real) {
    forall i :: 0 <= i < |st.trades| ==> TradeSound(st.trades[i], round2)
  }

  lemma {:induction false} AliveIsTradable(s: Spec, l: Live)
    requires Alive(s, l) && s.side.Managed()
    ensures Tradable(s) && Reachable(s, l)
  {
    PostInitAcceptsTradable(s);
  }

  /** One bar keeps an open position sound, or closes it into a sound trade. */
  lemma {:induction false} ExitStepSound(s: Spec, l: Live, b: Bar, round2: real -> real)
    requires Alive(s, l)
    ensures var (l', t) := ExitStep(s, l, b, round2);
            && (t.Stays? ==> Alive(s, l') && Survived(s, l', b))
            && (t.Booked? ==> TradeSound(t.trade, round2))
  {
    if s.side.Managed() {
      AliveIsTradable(s, l);
      ExitStepReachable(s, l, b, round2);
      ScaledOutExitCannotLose(s, l, b, round2);
      hide RawPnl, AfterPartial, PostInit, Tradable, Reachable;
    } else {
      UnmanagedNeverMoves(s, l, b, round2);
    }
  }

  lemma {:induction false} ExitBarSound(st: Engine, b: Bar, round2: real -> real)
    requires st.open.Some? ==> Alive(st.open.value.spec, st.open.value.live)
    requires TradesSound(st, round2) && |st.hist| > 0 && st.hist[|st.hist| - 1] == b && !st.raised
    ensures !ExitBar(st, b, round2).raised ==> OpenSound(ExitBar(st, b, round2))
    ensures TradesSound(ExitBar(st, b, round2), round2)
  {
    hide ExitStep, PostInit, Reachable, Survived, TradeSound, FreshLive;
    if st.open.Some? {
      ExitStepSound(st.open.value.spec, st.open.value.live, b, round2);
      var e := ExitStep(st.open.value.spec, st.open.value.live, b, round2).1;
      if e.Booked? {
        assert ExitBar(st, b, round2).trades == st.trades + [e.trade];
      }
    }
  }

  lemma {:induction false} RunStaysSound(cfg: Config, strategy: Strategy, round2: real -> real, bars: seq<Bar>)
    requires OpensConstructed(strategy) && SoundBars(bars)
    ensures var st := AfterBars(cfg, strategy, round2, bars);
            (!st.raised ==> OpenSound(st)) && TradesSound(st, round2)
  {
    hide SeeBar, ExitBar, EnterBar, Alive, TradeSound, Survived, OpensConstructed;
    if |bars| > 0 {
      var front, b := bars[..|bars| - 1], bars[|bars| - 1];
      RunStaysSound(cfg, strategy, round2, front);
      RunKeepsLedger(cfg, strategy, round2, front);
      AfterBarsStep(cfg, strategy, round2, bars);
      var st := AfterBars(cfg, strategy, round2, front);
      if !st.raised {
        StepStaysSound(cfg, strategy, round2, st, front, b);
      }
    }
  }

  lemma {:induction false} StepStaysSound(cfg: Config, strategy: Strategy, round2: real -> real, st: Engine,
                                          front: seq<Bar>, b: Bar)
    requires OpensConstructed(strategy) && SoundBars(front) && b.Sound() && st.hist == front
    requires OpenSound(st) && TradesSound(st, round2) && !st.raised
    ensures var st' := EnterBar(cfg, strategy, ExitBar(SeeBar(st, b), b, round2), b);
            (!st'.raised ==> OpenSound(st')) && TradesSound(st', round2)
  {
    hide Alive, TradeSound, Survived, Bar.Sound;
    var seen := SeeBar(st, b);
    ExitBarSound(seen, b, round2);
    ExitBarHist(seen, b, round2);
    var exited := ExitBar(seen, b, round2);
    hide ExitBar;
    if !exited.raised {
      FreshIsSound(cfg, strategy, exited, b);
    }
  }

  lemma {:induction false} AfterBarsStep(cfg: Config, strategy: Strategy, round2: real -> real, bars: seq<Bar>)
    requires |bars| > 0
    ensures var st, b := AfterBars(cfg, strategy, round2, bars[..|bars| - 1]), bars[|bars| - 1];
            AfterBars(cfg, strategy, round2, bars)
            == if st.raised then st else EnterBar(cfg, strategy, ExitBar(SeeBar(st, b), b, round2), b)
  {
    hide SeeBar, ExitBar, EnterBar;
  }

  lemma {:induction false} ExitBarHist(st: Engine, b: Bar, round2: real -> real)
    ensures ExitBar(st, b, round2).hist == st.hist && ExitBar(st, b, round2).lastDay == st.lastDay
    ensures ExitBar(st, b, round2).nToday == st.nToday && ExitBar(st, b, round2).entryDays == st.entryDays
  {
  }

  lemma {:induction false} FreshIsSound(cfg: Config, strategy: Strategy, st: Engine, b: Bar)
    requires OpensConstructed(strategy) && OpenSound(st) && |st.hist| > 0 && SoundBars(st.hist)
    ensures OpenSound(EnterBar(cfg, strategy, st, b))
  {
    hide PostInit;
  }

  /** On every run of every strategy whose positions pass construction, whether it returns or
      raises, no booked trade that took its partial loses: its result before rounding is at
      least the profit the partial locked in, session ends included. */
  lemma {:induction false} ScaledOutTradesNeverLose(cfg: Config, strategy: Strategy, round2: real -> real,
                                                    bars: seq<Bar>)
    requires OpensConstructed(strategy) && SoundBars(bars)
    ensures TradesSound(FinalState(cfg, strategy, round2, bars), round2)
  {
    RunStaysSound(cfg, strategy, round2, bars);
    RunKeepsLedger(cfg, strategy, round2, bars);
    var st := AfterBars(cfg, strategy, round2, bars);
    hide AfterBars, TradeSound;
    if !st.raised && st.open.Some? && |st.hist| > 0 {
      var o := st.open.value;
      SessionEndSound(o.spec, o.live, st.hist[|st.hist| - 1], round2);
    }
  }

  lemma {:induction false} SessionEndSound(s: Spec, l: Live, b: Bar, round2: real -> real)
    requires Alive(s, l) && b.Sound() && (l == FreshLive(s) || Survived(s, l, b))
    ensures Accepts(s, l, b.close) ==> TradeSound(CloseTrade(s, l, b.close, SessionEnd, round2), round2)
  {
    hide RawPnl, PostInit;
    if l.partialTaken {
      AliveIsTradable(s, l);
      SurvivedClose(s, l, b);
      LockedProfitKept(s, l, b.close);
    }
  }

  // ---------------------------------------------------------------- refused records

  /** The open position is one whose record will be refused. */
  ghost predicate HoldsUnrecordable(st: Engine) {
    st.open.Some? && !Recordable(st.open.value.spec)
  }

  /** Some prefix of the bars leaves such a position open. */
  ghost predicate EverHeld(cfg: Config, strategy: Strategy, round2: real -> real, bars: seq<Bar>) {
    exists i: nat :: i <= |bars| && HoldsUnrecordable(AfterBars(cfg, strategy, round2, bars[..i]))
  }

  lemma {:induction false} EverHeldStep(cfg: Config, strategy: Strategy, round2: real -> real, bars: seq<Bar>)
    requires |bars| > 0
    ensures EverHeld(cfg, strategy, round2, bars)
            <==> EverHeld(cfg, strategy, round2, bars[..|bars| - 1])
                 || HoldsUnrecordable(AfterBars(cfg, strategy, round2, bars))
  {
    hide AfterBars, HoldsUnrecordable;
    var front := bars[..|bars| - 1];
    assert forall i: nat :: i <= |front| ==> front[..i] == bars[..i];
    assert bars[..|bars|] == bars;
    if HoldsUnrecordable(AfterBars(cfg, strategy, round2, bars)) {
      assert HoldsUnrecordable(AfterBars(cfg, strategy, round2, bars[..|bars|]));
    }
    if EverHeld(cfg, strategy, round2, front) {
      var i: nat :| i <= |front| && HoldsUnrecordable(AfterBars(cfg, strategy, round2, front[..i]));
      assert HoldsUnrecordable(AfterBars(cfg, strategy, round2, bars[..i]));
    }
  }

  /** A sound bar lets go of an open position only into a booked trade; it raises only on an
      unrecordable one, which it otherwise leaves open. */
  lemma {:induction false} ExitBarHolds(st: Engine, b: Bar, round2: real -> real)
    requires b.Sound() && !st.raised && (st.open.Some? ==> Alive(st.open.value.spec, st.open.value.live))
    ensures HoldsUnrecordable(ExitBar(st, b, round2)) <==> HoldsUnrecordable(st)
    ensures ExitBar(st, b, round2).raised ==> HoldsUnrecordable(st)
  {
    hide CloseTrade, PartialHit;
    if st.open.Some? {
      var o := st.open.value;
      if o.spec.side.Managed() {
        AliveIsTradable(o.spec, o.live);
        hide Alive, Tradable, Reachable, PostInit, FreshLive;
        ExitRaisesIff(o.spec, o.live, b, round2);
      } else {
        UnmanagedNeverMoves(o.spec, o.live, b, round2);
      }
    }
  }

  lemma {:induction false} RaisedMeansHeld(cfg: Config, strategy: Strategy, round2: real -> real, bars: seq<Bar>)
    requires OpensConstructed(strategy) && SoundBars(bars)
    ensures var st := AfterBars(cfg, strategy, round2, bars);
            && (st.raised ==> HoldsUnrecordable(st))
            && (HoldsUnrecordable(st) <==> EverHeld(cfg, strategy, round2, bars))
  {
    hide SeeBar, ExitBar, EnterBar, Alive, TradesSound, Survived, OpensConstructed, HoldsUnrecordable;
    if |bars| > 0 {
      var front, b := bars[..|bars| - 1], bars[|bars| - 1];
      RaisedMeansHeld(cfg, strategy, round2, front);
      RunStaysSound(cfg, strategy, round2, front);
      AfterBarsStep(cfg, strategy, round2, bars);
      EverHeldStep(cfg, strategy, round2, bars);
      var st := AfterBars(cfg, strategy, round2, front);
      hide AfterBars, EverHeld;
      if !st.raised {
        BarHolds(cfg, strategy, round2, st, b);
      }
    } else {
      NothingHeld(cfg, strategy, round2);
      assert bars == [];
    }
  }

  lemma {:induction false} NothingHeld(cfg: Config, strategy: Strategy, round2: real -> real)
    ensures !AfterBars(cfg, strategy, round2, []).raised && !HoldsUnrecordable(AfterBars(cfg, strategy, round2, []))
    ensures !EverHeld(cfg, strategy, round2, [])
  {
    var none: seq<Bar> := [];
    assert forall i: nat :: i <= 0 ==> none[..i] == none;
  }

  lemma {:induction false} BarHolds(cfg: Config, strategy: Strategy, round2: real -> real, st: Engine, b: Bar)
    requires b.Sound() && !st.raised && OpenSound(st)
    ensures var st' := EnterBar(cfg, strategy, ExitBar(SeeBar(st, b), b, round2), b);
            && (HoldsUnrecordable(st) ==> HoldsUnrecordable(st'))
            && (st'.raised ==> HoldsUnrecordable(st'))
  {
    hide Alive, Survived;
    ExitBarHolds(SeeBar(st, b), b, round2);
    hide ExitBar;
  }

  /** A run of a strategy whose positions pass construction raises if and only if it ever holds
      a position whose record will be refused, a LONG or a "buy" for one: such a position is
      never booked and never let go. */
  lemma {:induction false} RaisesIff(cfg: Config, strategy: Strategy, round2: real -> real, bars: seq<Bar>)
    requires OpensConstructed(strategy) && SoundBars(bars)
    ensures FinalState(cfg, strategy, round2, bars).raised <==> EverHeld(cfg, strategy, round2, bars)
  {
    RaisedMeansHeld(cfg, strategy, round2, bars);
    RunStaysSound(cfg, strategy, round2, bars);
    RunKeepsLedger(cfg, strategy, round2, bars);
    var st := AfterBars(cfg, strategy, round2, bars);
    hide AfterBars, EverHeld, TradesSound, Ledger, CloseTrade, Survived;
    if !st.raised && st.open.Some? {
      QuantityLeft(st.open.value.spec, st.open.value.live);
    }
  }

  lemma {:induction false} QuantityLeft(s: Spec, l: Live)
    requires Alive(s, l)
    ensures l.qty > 0.0 && s.entry > 0.0
  {
    if s.side.Managed() {
      AliveIsTradable(s, l);
      FractionLeft(s);
    }
  }

  ghost predicate AllAccepted(st: Engine) {
    forall i :: 0 <= i < |st.trades| ==> Accepts(st.trades[i].spec, st.trades[i].live, st.trades[i].exitPrice)
  }

  /** On any run whatever, sound or not, everything booked was a BUY or a SELL that the record
      accepts. */
  lemma {:induction false} OnlyAcceptedIsBooked(cfg: Config, strategy: Strategy, round2: real -> real, bars: seq<Bar>)
    ensures AllAccepted(AfterBars(cfg, strategy, round2, bars)) && AllAccepted(FinalState(cfg, strategy, round2, bars))
  {
    var st := AfterBars(cfg, strategy, round2, bars);
    if |bars| > 0 {
      var front, b := bars[..|bars| - 1], bars[|bars| - 1];
      OnlyAcceptedIsBooked(cfg, strategy, round2, front);
      AfterBarsStep(cfg, strategy, round2, bars);
      ExitBooksAccepted(SeeBar(AfterBars(cfg, strategy, round2, front), b), b, round2);
    }
    hide AfterBars, Accepts, CloseTrade, ExitBar;
    if !st.raised && st.open.Some? && |st.hist| > 0 {
      var o := st.open.value;
      var price := st.hist[|st.hist| - 1].close;
      ClosingBooksAccepted(o.spec, o.live, price, SessionEnd, round2);
      SettleKeepsAccepted(st, o, Closing(o.spec, o.live, price, SessionEnd, round2));
    }
  }

  lemma {:induction false} ClosingBooksAccepted(s: Spec, l: Live, exitPrice: real, reason: ExitReason,
                                                round2: real -> real)
    ensures var e := Closing(s, l, exitPrice, reason, round2);
            e.Booked? ==> Accepts(e.trade.spec, e.trade.live, e.trade.exitPrice)
  {
    hide RawPnl, Accepts;
  }

  lemma {:induction false} SettleKeepsAccepted(st: Engine, o: Opened, e: Exit)
    requires AllAccepted(st) && (e.Booked? ==> Accepts(e.trade.spec, e.trade.live, e.trade.exitPrice))
    ensures AllAccepted(Settle(st, o, e))
  {
    hide Accepts;
  }

  lemma {:induction false} ExitBooksAccepted(st: Engine, b: Bar, round2: real -> real)
    requires AllAccepted(st)
    ensures AllAccepted(ExitBar(st, b, round2))
  {
    hide AllAccepted, AfterPartial, Settle, Closing, Accepts;
    if st.open.Some? {
      var o := st.open.value;
      var (live, e) := ExitStep(o.spec, o.live, b, round2);
      ClosingBooksAccepted(o.spec, live, live.stop, StopHit, round2);
      ClosingBooksAccepted(o.spec, live, o.spec.target, TargetHit, round2);
      SettleKeepsAccepted(st, Opened(o.spec, live), e);
    }
  }

  // ---------------------------------------------------------------- confluence runs

  function Confluence(cfg: Config, signal: seq<Bar> -> Option<Scored>): Strategy
    requires cfg.stopR > 0.0 && cfg.atrMult > 0.0
  {
    (hist, equity) => if |hist| > 0 then EnterOnConfluence(cfg, signal, hist, equity) else None
  }

  /** A trade's unrounded result lies between minus the risk taken and the reward aimed at. */
  ghost predicate WithinBracket(cfg: Config, equity: real, rawPnl: real)
    requires cfg.stopR > 0.0
  {
    -(equity * cfg.riskPct) <= rawPnl <= cfg.RewardRatio() * (equity * cfg.riskPct)
  }

  /** An untouched position that brackets the configured share of an equity. */
  ghost predicate Bracketed(cfg: Config, o: Opened, equity: real)
    requires cfg.stopR > 0.0
  {
    && Tradable(o.spec) && Recordable(o.spec) && o.live == FreshLive(o.spec)
    && RiskBracket(o.spec, equity * cfg.riskPct, cfg.RewardRatio() * (equity * cfg.riskPct))
  }

  /** Whatever is open was entered at the last bar's close, or survived that bar. */
  ghost predicate OpenBracketed(cfg: Config, st: Engine)
    requires cfg.stopR > 0.0
  {
    st.open.Some? ==>
      && Bracketed(cfg, st.open.value, st.equity) && |st.hist| > 0
      && InsideLastBar(st.open.value, st.hist[|st.hist| - 1])
  }

  ghost predicate InsideLastBar(o: Opened, b: Bar) {
    o.spec.entry == b.close || Survived(o.spec, o.live, b)
  }

  ghost predicate TradesBracketed(cfg: Config, st: Engine)
    requires cfg.stopR > 0.0 && |st.curve| == |st.trades| + 1
  {
    forall i :: 0 <= i < |st.trades| ==> WithinBracket(cfg, st.curve[i], st.trades[i].rawPnl)
  }

  /** A bracketed position with no partial exits exactly at its stop or its target. */
  lemma {:induction false} BracketedExit(cfg: Config, s: Spec, b: Bar, round2: real -> real, equity: real)
    requires cfg.stopR > 0.0 && Tradable(s)
    requires RiskBracket(s, equity * cfg.riskPct, cfg.RewardRatio() * (equity * cfg.riskPct))
    ensures var (l', t) := ExitStep(s, FreshLive(s), b, round2);
            && l' == FreshLive(s)
            && (t.Booked? ==> WithinBracket(cfg, equity, t.trade.rawPnl) && t.trade.pnlUsd == round2(t.trade.rawPnl))
  {
    var t := ExitStep(s, FreshLive(s), b, round2).1;
    if t.Booked? {
      BracketedPnl(s, equity * cfg.riskPct, cfg.RewardRatio() * (equity * cfg.riskPct), t.trade.exitPrice);
    }
  }

  ghost predicate RoundsToCents(round2: real -> real) {
    forall x :: -0.005 <= round2(x) - x <= 0.005
  }

  lemma {:induction false} BookKeepsBrackets(cfg: Config, st: Engine, t: Trade)
    requires cfg.stopR > 0.0 && Ledger(cfg, st) && TradesBracketed(cfg, st) && WithinBracket(cfg, st.equity, t.rawPnl)
    ensures Ledger(cfg, Book(st, t)) && TradesBracketed(cfg, Book(st, t))
  {
    BookKeepsLedger(cfg, st, t);
    hide WithinBracket;
    var n := |st.trades|;
    forall i | 0 <= i <= n ensures WithinBracket(cfg, Book(st, t).curve[i], Book(st, t).trades[i].rawPnl) {
      if i == n {
        assert Book(st, t).curve[n] == st.equity;
      }
    }
  }

  lemma {:induction false} ConfluenceExit(cfg: Config, st: Engine, b: Bar, round2: real -> real)
    requires cfg.stopR > 0.0 && Ledger(cfg, st) && TradesBracketed(cfg, st) && b.Sound() && !st.raised
    requires st.open.Some? ==> Bracketed(cfg, st.open.value, st.equity)
    requires |st.hist| > 0 && st.hist[|st.hist| - 1] == b
    ensures var st' := ExitBar(st, b, round2);
            Ledger(cfg, st') && TradesBracketed(cfg, st') && OpenBracketed(cfg, st') && !st'.raised
  {
    if st.open.Some? {
      var o := st.open.value;
      BracketedExit(cfg, o.spec, b, round2, st.equity);
      StillOpen(o.spec, b, round2);
      ExitRaisesIff(o.spec, FreshLive(o.spec), b, round2);
      var (l, e) := ExitStep(o.spec, FreshLive(o.spec), b, round2);
      hide Ledger, WithinBracket, Bracketed, Survived, ExitStep, FreshLive, AfterPartial;
      if e.Booked? {
        BookKeepsBrackets(cfg, st, e.trade);
      } else {
        LedgerFields(cfg, st, ExitBar(st, b, round2));
      }
    }
  }

  lemma {:induction false} ConfluenceEnter(cfg: Config, signal: seq<Bar> -> Option<Scored>, st: Engine, b: Bar)
    requires cfg.Accepted() && b.Sound() && |st.hist| > 0 && st.hist[|st.hist| - 1] == b
    requires Ledger(cfg, st) && TradesBracketed(cfg, st) && OpenBracketed(cfg, st)
    ensures var st' := EnterBar(cfg, Confluence(cfg, signal), st, b);
            Ledger(cfg, st') && TradesBracketed(cfg, st') && OpenBracketed(cfg, st') && st'.raised == st.raised
  {
    hide Ledger, WithinBracket, Bracketed, Survived, Bar.Sound, Confluence;
    LedgerFields(cfg, st, EnterBar(cfg, Confluence(cfg, signal), st, b));
    ConfluenceOpens(cfg, signal, st.hist, st.equity);
  }

  lemma {:induction false} ConfluenceOpens(cfg: Config, signal: seq<Bar> -> Option<Scored>, hist: seq<Bar>,
                                           equity: real)
    requires cfg.Accepted() && |hist| > 0 && hist[|hist| - 1].Sound()
    ensures var e := Confluence(cfg, signal)(hist, equity);
            e.Some? ==> Bracketed(cfg, Opened(e.value, FreshLive(e.value)), equity)
                        && e.value.entry == hist[|hist| - 1].close
  {
    ConfluenceBracket(cfg, signal, hist, equity);
    hide EnterOnConfluence, Tradable, Recordable, RiskBracket;
  }

  lemma {:induction false} ConfluenceStep(cfg: Config, signal: seq<Bar> -> Option<Scored>, round2: real -> real,
                                          st: Engine, b: Bar)
    requires cfg.Accepted() && b.Sound() && !st.raised
    requires Ledger(cfg, st) && TradesBracketed(cfg, st)
    requires st.open.Some? ==> Bracketed(cfg, st.open.value, st.equity)
    ensures var st' := StepBar(cfg, Confluence(cfg, signal), round2, st, b);
            Ledger(cfg, st') && TradesBracketed(cfg, st') && OpenBracketed(cfg, st') && !st'.raised
  {
    var seen := SeeBar(st, b);
    LedgerFields(cfg, st, seen);
    hide Ledger, Bracketed, WithinBracket, Bar.Sound;
    LedgerLength(cfg, seen);
    ConfluenceExit(cfg, seen, b, round2);
    hide ExitBar, TradesBracketed;
    ExitBarHist(seen, b, round2);
    ConfluenceEnter(cfg, signal, ExitBar(seen, b, round2), b);
  }

  lemma {:induction false} StillOpen(s: Spec, b: Bar, round2: real -> real)
    ensures ExitStep(s, FreshLive(s), b, round2).1.Stays? && ExitStep(s, FreshLive(s), b, round2).0 == FreshLive(s)
            ==> Survived(s, FreshLive(s), b)
  {
  }

  lemma {:induction false} LedgerLength(cfg: Config, st: Engine)
    requires Ledger(cfg, st)
    ensures |st.curve| == |st.trades| + 1
  {
  }

  lemma {:induction false} RunStaysBracketed(cfg: Config, signal: seq<Bar> -> Option<Scored>, round2: real -> real,
                                             bars: seq<Bar>)
    requires cfg.Accepted() && SoundBars(bars)
    ensures var st := AfterBars(cfg, Confluence(cfg, signal), round2, bars);
            Ledger(cfg, st) && TradesBracketed(cfg, st) && OpenBracketed(cfg, st) && !st.raised
  {
    if |bars| > 0 {
      var front, b := bars[..|bars| - 1], bars[|bars| - 1];
      RunStaysBracketed(cfg, signal, round2, front);
      AfterBarsStep(cfg, Confluence(cfg, signal), round2, bars);
      var st := AfterBars(cfg, Confluence(cfg, signal), round2, front);
      hide AfterBars, Ledger, TradesBracketed, Bracketed, InsideLastBar;
      LedgerLength(cfg, st);
      ConfluenceStep(cfg, signal, round2, st, b);
    }
  }

  /** No confluence run raises, and every trade's unrounded result lies between minus the risk
      taken at its entry and the configured multiple of it, session ends included. */
  lemma {:induction false} ConfluenceTradesBracketed(cfg: Config, signal: seq<Bar> -> Option<Scored>,
                                                     round2: real -> real, bars: seq<Bar>)
    requires cfg.Accepted() && SoundBars(bars)
    ensures var st := FinalState(cfg, Confluence(cfg, signal), round2, bars);
            !st.raised && Ledger(cfg, st) && TradesBracketed(cfg, st)
  {
    RunStaysBracketed(cfg, signal, round2, bars);
    RunKeepsLedger(cfg, Confluence(cfg, signal), round2, bars);
    var st := AfterBars(cfg, Confluence(cfg, signal), round2, bars);
    hide AfterBars, Ledger, TradesBracketed, Bracketed, InsideLastBar, WithinBracket, RawPnl, Bar.Sound;
    LedgerLength(cfg, st);
    if st.open.Some? && |st.hist| > 0 {
      var o, last := st.open.value, st.hist[|st.hist| - 1];
      OpenClosesBracketed(cfg, o, st.equity, last);
      BracketedIsAccepted(cfg, o, st.equity, last.close);
      BookKeepsBrackets(cfg, st, CloseTrade(o.spec, o.live, last.close, SessionEnd, round2));
    }
  }

  lemma {:induction false} BracketedIsAccepted(cfg: Config, o: Opened, equity: real, exitPrice: real)
    requires cfg.stopR > 0.0 && Bracketed(cfg, o, equity) && exitPrice > 0.0
    ensures Accepts(o.spec, o.live, exitPrice)
  {
    hide RiskBracket;
  }

  lemma {:induction false} OpenClosesBracketed(cfg: Config, o: Opened, equity: real, b: Bar)
    requires cfg.stopR > 0.0 && Bracketed(cfg, o, equity) && InsideLastBar(o, b) && b.Sound()
    ensures WithinBracket(cfg, equity, RawPnl(o.spec, o.live, b.close))
  {
    InsideBracket(o, b);
    BracketedPnl(o.spec, equity * cfg.riskPct, cfg.RewardRatio() * (equity * cfg.riskPct), b.close);
  }

  lemma {:induction false} InsideBracket(o: Opened, b: Bar)
    requires Tradable(o.spec) && o.live == FreshLive(o.spec) && InsideLastBar(o, b) && b.Sound()
    ensures Gain(o.spec.side, b.close, o.spec.stop) >= 0.0 && Gain(o.spec.side, o.spec.target, b.close) >= 0.0
  {
    if Survived(o.spec, o.live, b) {
      SurvivedClose(o.spec, o.live, b);
    }
  }

  // ---------------------------------------------------------------- equity floor

  lemma {:induction false} FloorStep(e: real, p: real, floor: real, n: nat, pnl: real, rounded: real, keep: real)
    requires 0.0 < p <= 0.10 && keep == 1.0 - p
    requires e >= floor - 0.005 * n as real && pnl >= -(e * p) && rounded - pnl >= -0.005
    ensures e + rounded >= floor * keep - 0.005 * (n + 1) as real
  {
    var slack := 0.005 * n as real;
    var over := e - (floor - slack);
    Product(over, keep);
    Product(slack, p);
    assert over * keep == e * keep - floor * keep + slack * keep;
    assert e * keep == e - e * p && slack * keep == slack - slack * p;
    assert 0.005 * (n + 1) as real == slack + 0.005;
  }

  ghost predicate TradesRounded(st: Engine, round2: real -> real) {
    forall i :: 0 <= i < |st.trades| ==> st.trades[i].pnlUsd == round2(st.trades[i].rawPnl)
  }

  lemma {:induction false} TradeFacts(cfg: Config, round2: real -> real, st: Engine, i: nat)
      returns (pnl: real, rounded: real)
    requires cfg.Accepted() && RoundsToCents(round2) && Ledger(cfg, st) && TradesBracketed(cfg, st)
             && TradesRounded(st, round2)
    requires i < |st.trades|
    ensures i + 1 < |st.curve| && st.curve[i + 1] == st.curve[i] + rounded
    ensures pnl >= -(st.curve[i] * cfg.riskPct) && rounded - pnl >= -0.005
  {
    hide WithinBracket;
    pnl, rounded := st.trades[i].rawPnl, st.trades[i].pnlUsd;
    assert rounded == round2(pnl);
    assert WithinBracket(cfg, st.curve[i], pnl);
    BracketFloor(cfg, st.curve[i], pnl);
  }

  lemma {:induction false} BracketFloor(cfg: Config, equity: real, pnl: real)
    requires cfg.stopR > 0.0 && WithinBracket(cfg, equity, pnl)
    ensures pnl >= -(equity * cfg.riskPct)
  {
    hide Config.RewardRatio;
  }

  ghost function Floor(cfg: Config, n: nat): real {
    cfg.initialEquity * Pow(1.0 - cfg.riskPct, n)
  }

  lemma {:induction false} LedgerFloor(cfg: Config, round2: real -> real, st: Engine, n: nat)
    requires cfg.Accepted() && RoundsToCents(round2) && Ledger(cfg, st) && TradesBracketed(cfg, st)
             && TradesRounded(st, round2)
    requires n <= |st.trades|
    ensures n < |st.curve| && st.curve[n] >= Floor(cfg, n) - 0.005 * n as real
  {
    hide Floor, TradesBracketed, TradesRounded, RoundsToCents;
    if n == 0 {
      FloorStart(cfg);
    } else {
      hide Ledger;
      LedgerFloor(cfg, round2, st, n - 1);
      var pnl, rounded := TradeFacts(cfg, round2, st, n - 1);
      FloorStep(st.curve[n - 1], cfg.riskPct, Floor(cfg, n - 1), n - 1, pnl, rounded, 1.0 - cfg.riskPct);
      PowStep(cfg, n);
    }
  }

  lemma {:induction false} FloorStart(cfg: Config)
    ensures Floor(cfg, 0) == cfg.initialEquity
  {
  }

  lemma {:induction false} PowStep(cfg: Config, n: nat)
    requires n > 0
    ensures Floor(cfg, n - 1) * (1.0 - cfg.riskPct) == Floor(cfg, n)
  {
    var e0, keep := cfg.initialEquity, 1.0 - cfg.riskPct;
    assert e0 * (Pow(keep, n - 1) * keep) == e0 * Pow(keep, n - 1) * keep;
  }

  /** On every confluence run, after n trades at least (1-p)^n of the initial equity is
      left, give or take half a cent a trade. */
  lemma {:induction false} EquityFloor(cfg: Config, signal: seq<Bar> -> Option<Scored>, round2: real -> real,
                                       bars: seq<Bar>, n: nat)
    requires cfg.Accepted() && SoundBars(bars) && RoundsToCents(round2)
    requires n <= |FinalState(cfg, Confluence(cfg, signal), round2, bars).trades|
    ensures var st := FinalState(cfg, Confluence(cfg, signal), round2, bars);
            n < |st.curve| && st.curve[n] >= cfg.initialEquity * Pow(1.0 - cfg.riskPct, n) - 0.005 * n as real
  {
    hide FinalState, Ledger, TradesBracketed, TradesSound, RoundsToCents, SoundBars, OpensConstructed, Pow;
    var st := FinalState(cfg, Confluence(cfg, signal), round2, bars);
    ConfluenceTradesBracketed(cfg, signal, round2, bars);
    ConfluenceOpensTradable(cfg, signal);
    ScaledOutTradesNeverLose(cfg, Confluence(cfg, signal), round2, bars);
    LedgerLength(cfg, st);
    SoundIsRounded(st, round2);
    LedgerFloor(cfg, round2, st, n);
  }

  lemma {:induction false} SoundIsRounded(st: Engine, round2: real -> real)
    requires TradesSound(st, round2)
    ensures TradesRounded(st, round2)
  {
    hide RawPnl, Alive;
  }

  /** Everything the confluence path opens is a buy or a sell in good order. */
  lemma {:induction false} ConfluenceOpensTradable(cfg: Config, signal: seq<Bar> -> Option<Scored>)
    requires cfg.Accepted()
    ensures forall hist, equity :: |hist| > 0 && SoundBars(hist) && Confluence(cfg, signal)(hist, equity).Some?
              ==> Tradable(Confluence(cfg, signal)(hist, equity).value)
    ensures OpensConstructed(Confluence(cfg, signal))
  {
    forall hist, equity | |hist| > 0 && SoundBars(hist) && Confluence(cfg, signal)(hist, equity).Some?
      ensures Tradable(Confluence(cfg, signal)(hist, equity).value)
      ensures PostInit(Confluence(cfg, signal)(hist, equity).value) == None
    {
      ConfluenceBracket(cfg, signal, hist, equity);
      hide EnterOnConfluence;
      PostInitAcceptsTradable(Confluence(cfg, signal)(hist, equity).value);
    }
  }

  // ---------------------------------------------------------------- daily budget

  ghost function CountDay(days: seq<int>, d: int): nat {
    if |days| == 0 then 0 else CountDay(days[..|days| - 1], d) + if days[|days| - 1] == d then 1 else 0
  }

  lemma {:induction false} CountAppend(days: seq<int>, x: int, d: int)
    ensures CountDay(days + [x], d) == CountDay(days, d) + if x == d then 1 else 0
  {
    assert (days + [x])[..|days|] == days;
  }

  lemma {:induction false} CountAbsent(days: seq<int>, d: int)
    requires forall i :: 0 <= i < |days| ==> days[i] < d
    ensures CountDay(days, d) == 0
  {
    if |days| > 0 {
      CountAbsent(days[..|days| - 1], d);
    }
  }

  /** No day has used more than its budget, and the running count is today's. */
  ghost predicate WithinBudget(cfg: Config, st: Engine) {
    && (forall d :: CountDay(st.entryDays, d) <= cfg.maxTradesPerDay)
    && (st.lastDay.None? ==> st.entryDays == [])
    && (st.lastDay.Some? ==> st.nToday == CountDay(st.entryDays, st.lastDay.value))
    && (forall i :: 0 <= i < |st.entryDays| ==> st.lastDay.Some? && st.entryDays[i] <= st.lastDay.value)
  }

  lemma {:induction false} BudgetStep(cfg: Config, strategy: Strategy, round2: real -> real, st: Engine, b: Bar)
    requires WithinBudget(cfg, st) && (st.lastDay.Some? ==> st.lastDay.value <= b.day) && !st.raised
    ensures var st' := StepBar(cfg, strategy, round2, st, b);
            WithinBudget(cfg, st') && st'.lastDay == Some(b.day)
  {
    var seen := SeeBar(st, b);
    SeeKeepsBudget(cfg, st, b);
    hide ExitBar, EnterBar, SeeBar, WithinBudget;
    ExitBarHist(seen, b, round2);
    var exited := ExitBar(seen, b, round2);
    SameBudget(cfg, seen, exited);
    EnterKeepsBudget(cfg, strategy, exited, b);
  }

  lemma {:induction false} RaisedIsFrozen(cfg: Config, strategy: Strategy, round2: real -> real, st: Engine, b: Bar)
    ensures st.raised ==> StepBar(cfg, strategy, round2, st, b) == st
  {
  }

  lemma {:induction false} SeeKeepsBudget(cfg: Config, st: Engine, b: Bar)
    requires WithinBudget(cfg, st) && (st.lastDay.Some? ==> st.lastDay.value <= b.day)
    ensures WithinBudget(cfg, SeeBar(st, b)) && SeeBar(st, b).lastDay == Some(b.day)
  {
    hide CountDay;
    if st.lastDay != Some(b.day) {
      CountAbsent(st.entryDays, b.day);
    }
  }

  lemma {:induction false} SameBudget(cfg: Config, a: Engine, b: Engine)
    requires WithinBudget(cfg, a) && a.lastDay == b.lastDay && a.nToday == b.nToday && a.entryDays == b.entryDays
    ensures WithinBudget(cfg, b)
  {
    hide CountDay;
  }

  lemma {:induction false} EnterKeepsBudget(cfg: Config, strategy: Strategy, st: Engine, b: Bar)
    requires WithinBudget(cfg, st) && st.lastDay == Some(b.day)
    ensures WithinBudget(cfg, EnterBar(cfg, strategy, st, b)) && EnterBar(cfg, strategy, st, b).lastDay == Some(b.day)
  {
    hide CountDay;
    forall d ensures CountDay(st.entryDays + [b.day], d) == CountDay(st.entryDays, d) + if b.day == d then 1 else 0 {
      CountAppend(st.entryDays, b.day, d);
    }
  }

  /** When the bars come in day order, no day of any run sees more entries than allowed. */
  lemma {:induction false} DailyCapHolds(cfg: Config, strategy: Strategy, round2: real -> real, bars: seq<Bar>)
    requires forall i, j :: 0 <= i < j < |bars| ==> bars[i].day <= bars[j].day
    ensures WithinBudget(cfg, AfterBars(cfg, strategy, round2, bars))
    ensures var st := AfterBars(cfg, strategy, round2, bars);
            !st.raised ==> st.lastDay == if |bars| > 0 then Some(bars[|bars| - 1].day) else None
  {
    if |bars| > 0 {
      var front, b := bars[..|bars| - 1], bars[|bars| - 1];
      DailyCapHolds(cfg, strategy, round2, front);
      var st := AfterBars(cfg, strategy, round2, front);
      assert AfterBars(cfg, strategy, round2, bars) == StepBar(cfg, strategy, round2, st, b);
      RaisedIsFrozen(cfg, strategy, round2, st, b);
      hide AfterBars, WithinBudget, StepBar;
      if !st.raised {
        BudgetStep(cfg, strategy, round2, st, b);
      }
    }
  }

  /** Every entry is a booked trade or the position still open, and the engine stays flat only
      when the day's entries are used up or the strategy asks for nothing. */
  lemma {:induction false} FlatOnlyIfRefused(cfg: Config, strategy: Strategy, round2: real -> real, bars: seq<Bar>)
    requires forall i, j :: 0 <= i < j < |bars| ==> bars[i].day <= bars[j].day
    ensures var st := AfterBars(cfg, strategy, round2, bars);
            && |st.entryDays| == |st.trades| + (if st.open.Some? then 1 else 0)
            && (|bars| > 0 && !st.raised && st.open.None? ==>
                  || CountDay(st.entryDays, bars[|bars| - 1].day) >= cfg.maxTradesPerDay
                  || strategy(bars, st.equity) == None)
  {
    EntriesCount(cfg, strategy, round2, bars);
    DailyCapHolds(cfg, strategy, round2, bars);
    if |bars| > 0 {
      var front, b := bars[..|bars| - 1], bars[|bars| - 1];
      var st := AfterBars(cfg, strategy, round2, front);
      AfterBarsStep(cfg, strategy, round2, bars);
      RunKeepsLedger(cfg, strategy, round2, bars);
      hide AfterBars, ExitBar, CountDay, Ledger;
      if !st.raised {
        FlatAfterEntry(cfg, strategy, ExitBar(SeeBar(st, b), b, round2), b);
      }
    }
  }

  lemma {:induction false} FlatAfterEntry(cfg: Config, strategy: Strategy, st: Engine, b: Bar)
    ensures var st' := EnterBar(cfg, strategy, st, b);
            && st'.hist == st.hist
            && (st'.open.None? ==>
                  && st'.equity == st.equity && st'.nToday == st.nToday
                  && (st.nToday >= cfg.maxTradesPerDay || strategy(st.hist, st.equity) == None))
  {
  }

  ghost predicate Counted(st: Engine) {
    |st.entryDays| == |st.trades| + if st.open.Some? then 1 else 0
  }

  lemma {:induction false} EntriesCount(cfg: Config, strategy: Strategy, round2: real -> real, bars: seq<Bar>)
    ensures Counted(AfterBars(cfg, strategy, round2, bars))
  {
    if |bars| > 0 {
      var front, b := bars[..|bars| - 1], bars[|bars| - 1];
      EntriesCount(cfg, strategy, round2, front);
      AfterBarsStep(cfg, strategy, round2, bars);
      var st := AfterBars(cfg, strategy, round2, front);
      hide AfterBars;
      if !st.raised {
        ExitCounts(SeeBar(st, b), b, round2);
        hide ExitBar;
      }
    }
  }

  lemma {:induction false} ExitCounts(st: Engine, b: Bar, round2: real -> real)
    requires Counted(st)
    ensures Counted(ExitBar(st, b, round2))
  {
    hide ExitStep;
  }

  // ---------------------------------------------------------------- the program

  lemma {:induction false} PnlIs(s: Spec, l: Live, exitPrice: real, direction: real, pnl: real)
    requires direction == Dir(s.side) && pnl == direction * (exitPrice - s.entry) * l.qty + l.partialPnl
    ensures RawPnl(s, l, exitPrice) == pnl
  {
  }

  lemma {:induction false} PartialIs(s: Spec, l: Live, b: Bar, direction: real, partialQty: real, locked: real)
    requires PartialHit(s, l, b) && direction == Dir(s.side) && partialQty == l.qty * s.partialFrac
    requires locked == l.partialPnl + direction * (s.partialTarget.value - s.entry) * partialQty
    ensures AfterPartial(s, l, b)
            == Live(l.qty - partialQty, if s.side == Buy then Max(l.stop, s.entry) else Min(l.stop, s.entry),
                    locked, true)
  {
  }

  /** An open position, updated in place as bars go by. */
  class Position {
    const spec: Spec
    var qty: real
    var stop: real
    var partialPnl: real
    var partialTaken: bool

    ghost function Snapshot(): Live
      reads this
    {
      Live(qty, stop, partialPnl, partialTaken)
    }

    constructor (s: Spec)
      ensures spec == s && Snapshot() == FreshLive(s)
    {
      spec := s;
      qty, stop, partialPnl, partialTaken := s.qty, s.stop, 0.0, false;
    }

    /** Build the trade record; a refused record raises. */
    method Close(exitPrice: real, reason: ExitReason, round2: real -> real) returns (e: Exit)
      ensures e == Closing(spec, Snapshot(), exitPrice, reason, round2)
      ensures e == Raises <==> !Recordable(spec) || qty <= 0.0 || spec.entry <= 0.0 || exitPrice <= 0.0
    {
      var direction := if spec.side == Buy then 1.0 else -1.0;
      var runner := direction * (exitPrice - spec.entry) * qty;
      var pnl := runner + partialPnl;
      PnlIs(spec, Snapshot(), exitPrice, direction, pnl);
      hide RawPnl;
      var tag := reason;
      if partialTaken && reason == TargetHit {
        tag := RunnerTargetHit;
      } else if partialTaken && reason == StopHit {
        tag := RunnerStopHit;
      }
      var left := Live(qty, stop, partialPnl, partialTaken);
      if !Accepts(spec, left, exitPrice) {
        return Raises;
      }
      e := Booked(Trade(spec, left, exitPrice, tag, pnl, round2(pnl)));
    }

    method TakePartial(b: Bar)
      modifies this
      ensures Snapshot() == AfterPartial(spec, old(Snapshot()), b)
    {
      if PartialHit(spec, Live(qty, stop, partialPnl, partialTaken), b) {
        var partialQty := qty * spec.partialFrac;
        var direction := if spec.side == Buy then 1.0 else -1.0;
        var locked := partialPnl + direction * (spec.partialTarget.value - spec.entry) * partialQty;
        PartialIs(spec, Snapshot(), b, direction, partialQty, locked);
        hide AfterPartial;
        partialPnl := locked;
        qty := qty - partialQty;
        if spec.side == Buy {
          stop := Max(stop, spec.entry);
        } else {
          stop := Min(stop, spec.entry);
        }
        partialTaken := true;
      }
    }

    method Exit(b: Bar, round2: real -> real) returns (e: Exit)
      modifies this
      ensures Snapshot() == ExitStep(spec, old(Snapshot()), b, round2).0
      ensures e == ExitStep(spec, old(Snapshot()), b, round2).1
    {
      TakePartial(b);
      hide Closing, AfterPartial;
      var stopHit := (spec.side == Buy && b.low <= stop) || (spec.side == Sell && b.high >= stop);
      var targetHit := (spec.side == Buy && b.high >= spec.target) || (spec.side == Sell && b.low <= spec.target);
      if stopHit {
        e := Close(stop, StopHit, round2);
      } else if targetHit {
        e := Close(spec.target, TargetHit, round2);
      } else {
        e := Stays;
      }
    }
  }

  ghost predicate Mirrors(open: Position?, o: Option<Opened>)
    reads if open != null then {open} else {}
  {
    && (open == null <==> o.None?)
    && (open != null ==> o == Some(Opened(open.spec, open.Snapshot())))
  }

  /** The running totals agree with the engine state they stand for. */
  ghost predicate Totals(st: Engine, equity: real, curve: seq<real>, trades: seq<Trade>) {
    equity == st.equity && curve == st.curve && trades == st.trades
  }

  /** Check an open position against the bar; book the trade if it closes. */
  method ExitPhase(ghost st: Engine, open: Position?, bar: Bar, round2: real -> real, equity0: real, curve0: seq<real>,
                   trades0: seq<Trade>)
    returns (raised: bool, still: Position?, equity: real, curve: seq<real>, trades: seq<Trade>)
    requires Mirrors(open, st.open) && Totals(st, equity0, curve0, trades0) && !st.raised
    modifies if open != null then {open} else {}
    ensures raised == ExitBar(st, bar, round2).raised
    ensures Mirrors(still, ExitBar(st, bar, round2).open) && (still == null || still == open)
    ensures Totals(ExitBar(st, bar, round2), equity, curve, trades)
  {
    hide ExitStep;
    raised, still, equity, curve, trades := false, open, equity0, curve0, trades0;
    if open != null {
      var e := open.Exit(bar, round2);
      match e
      case Stays =>
      case Booked(closed) =>
        equity := equity + closed.pnlUsd;
        curve := curve + [equity];
        trades := trades + [closed];
        still := null;
      case Raises =>
        raised := true;
    }
  }

  /** Ask the strategy for a position when flat and within the day's budget. */
  method EnterPhase(cfg: Config, strategy: Strategy, ghost st: Engine, open: Position?, bar: Bar, hist: seq<Bar>,
                    equity: real, nToday0: nat)
    returns (now: Position?, nToday: nat)
    requires Mirrors(open, st.open) && hist == st.hist && equity == st.equity && nToday0 == st.nToday
    ensures Mirrors(now, EnterBar(cfg, strategy, st, bar).open) && nToday == EnterBar(cfg, strategy, st, bar).nToday
    ensures now == open || fresh(now)
  {
    now, nToday := open, nToday0;
    if open == null && nToday < cfg.maxTradesPerDay {
      var entry := strategy(hist, equity);
      if entry.Some? {
        now := new Position(entry.value);
        nToday := nToday + 1;
      }
    }
  }

  lemma {:induction false} EnterBarKeeps(cfg: Config, strategy: Strategy, st: Engine, b: Bar)
    ensures var st' := EnterBar(cfg, strategy, st, b);
            && st'.equity == st.equity && st'.curve == st.curve && st'.trades == st.trades
            && st'.hist == st.hist && st'.lastDay == st.lastDay && st'.raised == st.raised
  {
  }

  lemma {:induction false} StartsSo(cfg: Config, strategy: Strategy, round2: real -> real)
    ensures AfterBars(cfg, strategy, round2, []) == Start(cfg)
  {
  }

  /** Once a prefix has raised, nothing after it matters. */
  lemma {:induction false} RaisedForGood(cfg: Config, strategy: Strategy, round2: real -> real, bars: seq<Bar>, i: nat)
    requires i <= |bars| && AfterBars(cfg, strategy, round2, bars[..i]).raised
    ensures AfterBars(cfg, strategy, round2, bars) == AfterBars(cfg, strategy, round2, bars[..i])
  {
    hide AfterBars;
    if i < |bars| {
      var front := bars[..|bars| - 1];
      assert front[..i] == bars[..i];
      RaisedForGood(cfg, strategy, round2, front, i);
      AfterBarsStep(cfg, strategy, round2, bars);
    } else {
      assert bars[..i] == bars;
    }
  }

  /** What a run that returns reports. */
  datatype Report = Report(equity: real, curve: seq<real>, trades: seq<Trade>)

  /** None stands for a run that raises. */
  function ReportOf(st: Engine): Option<Report> {
    if st.raised then None else Some(Report(st.equity, st.curve, st.trades))
  }

  lemma {:induction false} FinishRaised(st: Engine, round2: real -> real)
    requires st.raised
    ensures ReportOf(Finish(st, round2)) == None
  {
  }

  /** Close what is still open at the last close, and report. */
  method FinishPhase(ghost st: Engine, open: Position?, hist: seq<Bar>, round2: real -> real, equity0: real,
                     curve0: seq<real>, trades0: seq<Trade>)
    returns (r: Option<Report>)
    requires Mirrors(open, st.open) && Totals(st, equity0, curve0, trades0) && hist == st.hist && !st.raised
    ensures r == ReportOf(Finish(st, round2))
  {
    hide CloseTrade, Accepts;
    var equity, curve, trades := equity0, curve0, trades0;
    if open != null && |hist| > 0 {
      var e := open.Close(hist[|hist| - 1].close, SessionEnd, round2);
      if e.Raises? {
        return None;
      }
      equity := equity + e.trade.pnlUsd;
      curve := curve + [equity];
      trades := trades + [e.trade];
    }
    r := Some(Report(equity, curve, trades));
  }

  /** The engine's loop: exits first, then at most one entry a bar, then a forced close. */
  method Run(cfg: Config, strategy: Strategy, round2: real -> real, bars: seq<Bar>) returns (r: Option<Report>)
    ensures r == ReportOf(FinalState(cfg, strategy, round2, bars))
  {
    hide AfterBars, ExitBar, EnterBar, Finish;
    StartsSo(cfg, strategy, round2);
    var equity, curve, trades: seq<Trade> := cfg.initialEquity, [cfg.initialEquity], [];
    var hist: seq<Bar> := [];
    var open: Position? := null;
    var lastDay: Option<int>, nToday := None, 0;
    ghost var st := Start(cfg);
    assert bars[..0] == [];
    for i := 0 to |bars|
      invariant st == AfterBars(cfg, strategy, round2, bars[..i])
      invariant Totals(st, equity, curve, trades) && hist == st.hist
      invariant lastDay == st.lastDay && nToday == st.nToday && !st.raised
      invariant Mirrors(open, st.open)
      invariant open != null ==> fresh(open)
    {
      var bar := bars[i];
      AfterBarsStep(cfg, strategy, round2, bars[..i + 1]);
      assert bars[..i + 1][..i] == bars[..i];
      hist := hist + [bar];
      if lastDay != Some(bar.day) {
        nToday, lastDay := 0, Some(bar.day);
      }
      st := SeeBar(st, bar);
      ghost var exited := ExitBar(st, bar, round2);
      var raised;
      raised, open, equity, curve, trades := ExitPhase(st, open, bar, round2, equity, curve, trades);
      ExitBarHist(st, bar, round2);
      st := exited;
      if raised {
        EnterBarKeeps(cfg, strategy, st, bar);
        RaisedForGood(cfg, strategy, round2, bars, i + 1);
        FinishRaised(AfterBars(cfg, strategy, round2, bars), round2);
        return None;
      }
      open, nToday := EnterPhase(cfg, strategy, st, open, bar, hist, equity, nToday);
      EnterBarKeeps(cfg, strategy, st, bar);
      st := EnterBar(cfg, strategy, st, bar);
    }
    assert bars[..|bars|] == bars;
    r := FinishPhase(st, open, hist, round2, equity, curve, trades);
  }
}
