/** What a booked trade says of the bars it lived through, told from the bars alone. */
module BacktestStory {
  import opened Backtest
  import opened BacktestRun
  import opened Options
  import opened Reals

  // ---------------------------------------------------------------- the bars alone

  /** The bar trades at the level at which part of the position is closed. */
  ghost predicate PartialReached(s: Spec, b: Bar) {
    && s.partialTarget.Some?
    && ((s.side == Buy && b.high >= s.partialTarget.value) || (s.side == Sell && b.low <= s.partialTarget.value))
  }

  ghost predicate StopReached(s: Spec, stop: real, b: Bar) {
    (s.side == Buy && b.low <= stop) || (s.side == Sell && b.high >= stop)
  }

  ghost predicate TargetReached(s: Spec, b: Bar) {
    (s.side == Buy && b.high >= s.target) || (s.side == Sell && b.low <= s.target)
  }

  /** Some bar after the entry bar e, up to bar k, traded at the partial level. */
  ghost predicate PartialBy(bars: seq<Bar>, s: Spec, e: int, k: int) {
    exists j :: 0 <= e < j <= k < |bars| && PartialReached(s, bars[j])
  }

  /** The stop in force on bar k: at the entry price from the partial on. */
  ghost function StopIn(bars: seq<Bar>, s: Spec, e: int, k: int): real {
    if PartialBy(bars, s, e, k) then s.entry else s.stop
  }

  ghost predicate Untouched(bars: seq<Bar>, s: Spec, e: int, k: int)
    requires 0 <= k < |bars|
  {
    !StopReached(s, StopIn(bars, s, e, k), bars[k]) && !TargetReached(s, bars[k])
  }

  /** What the trade earned: the part closed at the partial level, if it was, and the rest. */
  ghost predicate Earned(t: Trade) {
    var s := t.spec;
    var sign := if s.side == Buy then 1.0 else -1.0;
    var part := s.qty * s.partialFrac;
    t.rawPnl == if t.live.partialTaken && s.partialTarget.Some? then
                  sign * (t.exitPrice - s.entry) * (s.qty - part) + sign * (s.partialTarget.value - s.entry) * part
                else sign * (t.exitPrice - s.entry) * s.qty
  }

  /** The trade was opened at the close of bar e and closed on bar x, and nothing before bar x
      would have closed it.  On bar x the stop comes first, then the target; a trade that meets
      neither ends with the last bar, at its close. */
  ghost predicate Told(strategy: Strategy, bars: seq<Bar>, equity: real, t: Trade, e: int, x: int) {
    && 0 <= e <= x < |bars| && strategy(bars[..e + 1], equity) == Some(t.spec)
    && (forall j :: e < j < x ==> Untouched(bars, t.spec, e, j))
    && (t.live.partialTaken <==> PartialBy(bars, t.spec, e, x))
    && Earned(t)
    && match t.reason
       case StopHit =>
         && e < x && !t.live.partialTaken && t.exitPrice == t.spec.stop
         && StopReached(t.spec, t.spec.stop, bars[x])
       case RunnerStopHit =>
         && e < x && t.live.partialTaken && t.exitPrice == t.spec.entry
         && StopReached(t.spec, t.spec.entry, bars[x])
       case TargetHit =>
         && e < x && !t.live.partialTaken && t.exitPrice == t.spec.target
         && TargetReached(t.spec, bars[x]) && !StopReached(t.spec, t.spec.stop, bars[x])
       case RunnerTargetHit =>
         && e < x && t.live.partialTaken && t.exitPrice == t.spec.target
         && TargetReached(t.spec, bars[x]) && !StopReached(t.spec, t.spec.entry, bars[x])
       case SessionEnd => x == |bars| - 1 && t.exitPrice == bars[x].close && (e < x ==> Untouched(bars, t.spec, e, x))
  }

  ghost predicate TradeTold(strategy: Strategy, bars: seq<Bar>, equity: real, t: Trade) {
    exists e, x :: Told(strategy, bars, equity, t, e, x)
  }

  /** The same of a position that is still open. */
  ghost predicate OpenTold(strategy: Strategy, bars: seq<Bar>, equity: real, s: Spec, l: Live, e: int) {
    && 0 <= e < |bars| && strategy(bars[..e + 1], equity) == Some(s)
    && (forall j :: e < j < |bars| ==> Untouched(bars, s, e, j))
    && (l.partialTaken <==> PartialBy(bars, s, e, |bars| - 1))
  }

  // ---------------------------------------------------------------- more bars

  lemma {:induction false} PartialByFront(bars: seq<Bar>, more: seq<Bar>, s: Spec, e: int, k: int)
    requires |bars| <= |more| && bars == more[..|bars|] && k < |bars|
    ensures PartialBy(more, s, e, k) <==> PartialBy(bars, s, e, k)
    ensures 0 <= k ==> (Untouched(more, s, e, k) <==> Untouched(bars, s, e, k))
  {
    assert forall j :: 0 <= j < |bars| ==> bars[j] == more[j];
  }

  lemma {:induction false} ToldFront(strategy: Strategy, bars: seq<Bar>, more: seq<Bar>, equity: real, t: Trade)
    requires |bars| <= |more| && bars == more[..|bars|] && t.reason != SessionEnd
    ensures TradeTold(strategy, bars, equity, t) ==> TradeTold(strategy, more, equity, t)
  {
    hide PartialBy, Untouched, Earned;
    if TradeTold(strategy, bars, equity, t) {
      var e, x :| Told(strategy, bars, equity, t, e, x);
      assert bars[..e + 1] == more[..e + 1] && bars[x] == more[x];
      forall j | e < j <= x ensures Untouched(more, t.spec, e, j) <==> Untouched(bars, t.spec, e, j) {
        PartialByFront(bars, more, t.spec, e, j);
      }
      PartialByFront(bars, more, t.spec, e, x);
      assert Told(strategy, more, equity, t, e, x);
    }
  }

  lemma {:induction false} PartialByStep(bars: seq<Bar>, s: Spec, e: int, k: int)
    requires 0 <= e < k < |bars|
    ensures PartialBy(bars, s, e, k) <==> PartialBy(bars, s, e, k - 1) || PartialReached(s, bars[k])
  {
    hide PartialReached;
  }

  // ---------------------------------------------------------------- one bar

  /** The bar's effect on a position in good order, in terms of the bar alone. */
  lemma {:induction false} ExitStepSays(s: Spec, l: Live, b: Bar, round2: real -> real)
    requires Tradable(s) && Reachable(s, l)
    ensures var (l', x) := ExitStep(s, l, b, round2);
            var taken := l.partialTaken || PartialReached(s, b);
            var stop := if taken then s.entry else s.stop;
            && (l'.partialTaken <==> taken)
            && (x == Stays <==> !StopReached(s, stop, b) && !TargetReached(s, b))
            && (x.Booked? ==>
                  && x.trade.spec == s && x.trade.live == l' && Earned(x.trade)
                  && if StopReached(s, stop, b) then
                       x.trade.exitPrice == stop && x.trade.reason == if taken then RunnerStopHit else StopHit
                     else
                       x.trade.exitPrice == s.target && x.trade.reason == if taken then RunnerTargetHit else TargetHit)
  {
    ExitStepReachable(s, l, b, round2);
    var l' := ExitStep(s, l, b, round2).0;
    assert l'.partialTaken <==> l.partialTaken || PartialReached(s, b);
    LiveIs(s, l');
    RawPnlIs(s, l', l'.stop, StopHit, round2);
    RawPnlIs(s, l', s.target, TargetHit, round2);
    hide RawPnl, AfterPartial, Tradable, Reachable, Accepts;
  }

  lemma {:induction false} LiveIs(s: Spec, l: Live)
    requires Reachable(s, l)
    ensures l.partialTaken ==> s.partialTarget.Some? && l == Scaled(s)
    ensures !l.partialTaken ==> l == FreshLive(s)
  {
  }

  lemma {:induction false} RawPnlIs(s: Spec, l: Live, exitPrice: real, reason: ExitReason, round2: real -> real)
    requires Reachable(s, l)
    ensures Earned(CloseTrade(s, l, exitPrice, reason, round2))
  {
    LiveIs(s, l);
  }

  /** One more bar goes on with an open position's story, or ends it. */
  lemma {:induction false} BarTells(strategy: Strategy, bars: seq<Bar>, equity: real, s: Spec, l: Live, e: int,
                                    round2: real -> real)
    requires |bars| > 0 && Tradable(s) && Reachable(s, l)
    requires OpenTold(strategy, bars[..|bars| - 1], equity, s, l, e)
    ensures var (l', x) := ExitStep(s, l, bars[|bars| - 1], round2);
            && (x == Stays ==> OpenTold(strategy, bars, equity, s, l', e))
            && (x.Booked? ==> x.trade.reason != SessionEnd && Told(strategy, bars, equity, x.trade, e, |bars| - 1))
  {
    var k := |bars| - 1;
    var front, b := bars[..k], bars[k];
    ExitStepSays(s, l, b, round2);
    PartialByStep(bars, s, e, k);
    PartialByFront(front, bars, s, e, k - 1);
    assert front[..e + 1] == bars[..e + 1];
    hide ExitStep, Tradable, Reachable, PartialBy, PartialReached, StopReached, TargetReached, Earned;
    forall j | e < j < k ensures Untouched(bars, s, e, j) {
      PartialByFront(front, bars, s, e, j);
    }
  }

  /** The close of the last bar ends what is still open. */
  lemma {:induction false} EndTells(strategy: Strategy, bars: seq<Bar>, equity: real, s: Spec, l: Live, e: int,
                                    round2: real -> real)
    requires OpenTold(strategy, bars, equity, s, l, e) && Reachable(s, l)
    ensures Told(strategy, bars, equity, CloseTrade(s, l, bars[|bars| - 1].close, SessionEnd, round2), e, |bars| - 1)
  {
    RawPnlIs(s, l, bars[|bars| - 1].close, SessionEnd, round2);
    hide PartialBy, Untouched, Earned, RawPnl, Reachable;
  }

  // ---------------------------------------------------------------- whole runs

  ghost predicate Chronicle(strategy: Strategy, bars: seq<Bar>, st: Engine) {
    && |st.curve| == |st.trades| + 1
    && forall i :: 0 <= i < |st.trades| ==> TradeTold(strategy, bars, st.curve[i], st.trades[i])
  }

  /** So far nothing was closed for want of bars. */
  ghost predicate Midway(st: Engine) {
    forall i :: 0 <= i < |st.trades| ==> st.trades[i].reason != SessionEnd
  }

  ghost predicate Ongoing(strategy: Strategy, bars: seq<Bar>, st: Engine) {
    st.open.Some? && st.open.value.spec.side.Managed() ==>
      exists e :: OpenTold(strategy, bars, st.equity, st.open.value.spec, st.open.value.live, e)
  }

  lemma {:induction false} ChronicleGrows(strategy: Strategy, bars: seq<Bar>, more: seq<Bar>, st: Engine)
    requires |bars| <= |more| && bars == more[..|bars|] && Chronicle(strategy, bars, st) && Midway(st)
    ensures Chronicle(strategy, more, st)
  {
    hide TradeTold;
    forall i | 0 <= i < |st.trades| ensures TradeTold(strategy, more, st.curve[i], st.trades[i]) {
      ToldFront(strategy, bars, more, st.curve[i], st.trades[i]);
    }
  }

  lemma {:induction false} BookTells(strategy: Strategy, bars: seq<Bar>, st: Engine, t: Trade)
    requires Chronicle(strategy, bars, st) && TradeTold(strategy, bars, st.equity, t)
    requires st.curve[|st.trades|] == st.equity
    ensures Chronicle(strategy, bars, Book(st, t))
    ensures Midway(st) && t.reason != SessionEnd ==> Midway(Book(st, t))
  {
    hide TradeTold;
    var now := Book(st, t);
    forall i | 0 <= i < |now.trades| ensures TradeTold(strategy, bars, now.curve[i], now.trades[i]) {
      if i == |st.trades| {
        assert now.curve[i] == st.equity && now.trades[i] == t;
      }
    }
  }

  /** What a bar does to an open position keeps the chronicle. */
  lemma {:induction false} ExitBarTells(strategy: Strategy, bars: seq<Bar>, st: Engine, round2: real -> real)
    requires |bars| > 0 && st.hist == bars && !st.raised && Midway(st) && Chronicle(strategy, bars, st)
    requires st.open.Some? ==> Alive(st.open.value.spec, st.open.value.live)
    requires Ongoing(strategy, bars[..|bars| - 1], st) && st.curve[|st.trades|] == st.equity
    ensures var st' := ExitBar(st, bars[|bars| - 1], round2);
            Chronicle(strategy, bars, st') && Midway(st') && (!st'.raised ==> Ongoing(strategy, bars, st'))
  {
    if st.open.Some? {
      var o, b := st.open.value, bars[|bars| - 1];
      var (live, x) := ExitStep(o.spec, o.live, b, round2);
      if o.spec.side.Managed() {
        AliveIsTradable(o.spec, o.live);
        var e :| OpenTold(strategy, bars[..|bars| - 1], st.equity, o.spec, o.live, e);
        BarTells(strategy, bars, st.equity, o.spec, o.live, e, round2);
        hide ExitStep, Alive, Tradable, Reachable, OpenTold, Told;
        if x.Booked? {
          assert TradeTold(strategy, bars, st.equity, x.trade);
          BookTells(strategy, bars, st, x.trade);
        }
      } else {
        UnmanagedNeverMoves(o.spec, o.live, b, round2);
        hide ExitStep, Alive, OpenTold, TradeTold;
      }
    }
  }

  lemma {:induction false} EnterBarTells(cfg: Config, strategy: Strategy, bars: seq<Bar>, st: Engine, b: Bar)
    requires |bars| > 0 && st.hist == bars && !st.raised
    requires Chronicle(strategy, bars, st) && Midway(st) && Ongoing(strategy, bars, st)
    ensures var st' := EnterBar(cfg, strategy, st, b);
            Chronicle(strategy, bars, st') && Midway(st') && Ongoing(strategy, bars, st')
  {
    hide TradeTold;
    var st' := EnterBar(cfg, strategy, st, b);
    if st.open.None? && st'.open.Some? {
      var o := st'.open.value;
      assert bars[..|bars| - 1 + 1] == bars;
      assert OpenTold(strategy, bars, st'.equity, o.spec, o.live, |bars| - 1);
    } else {
      hide OpenTold;
    }
  }

  lemma {:induction false} RunTells(cfg: Config, strategy: Strategy, round2: real -> real, bars: seq<Bar>)
    requires OpensConstructed(strategy) && SoundBars(bars)
    ensures var st := AfterBars(cfg, strategy, round2, bars);
            Chronicle(strategy, bars, st) && Midway(st) && (!st.raised ==> Ongoing(strategy, bars, st))
  {
    hide SeeBar, ExitBar, EnterBar, OpensConstructed, Alive, TradesSound, Survived, Ongoing, Chronicle, Midway, Ledger;
    if |bars| > 0 {
      var front, b := bars[..|bars| - 1], bars[|bars| - 1];
      RunTells(cfg, strategy, round2, front);
      RunKeepsLedger(cfg, strategy, round2, front);
      RunStaysSound(cfg, strategy, round2, front);
      AfterBarsStep(cfg, strategy, round2, bars);
      var st := AfterBars(cfg, strategy, round2, front);
      ChronicleGrows(strategy, front, bars, st);
      hide AfterBars;
      if !st.raised {
        StepTells(cfg, strategy, round2, bars, st);
      }
    } else {
      StartTells(cfg, strategy, round2, bars);
    }
  }

  lemma {:induction false} StartTells(cfg: Config, strategy: Strategy, round2: real -> real, bars: seq<Bar>)
    requires bars == []
    ensures var st := AfterBars(cfg, strategy, round2, bars);
            Chronicle(strategy, bars, st) && Midway(st) && Ongoing(strategy, bars, st)
  {
  }

  lemma {:induction false} StepTells(cfg: Config, strategy: Strategy, round2: real -> real, bars: seq<Bar>, st: Engine)
    requires |bars| > 0 && !st.raised && st.hist == bars[..|bars| - 1]
    requires Ledger(cfg, st) && OpenSound(st) && Chronicle(strategy, bars, st) && Midway(st)
    requires Ongoing(strategy, bars[..|bars| - 1], st)
    ensures var b := bars[|bars| - 1];
            var st' := EnterBar(cfg, strategy, ExitBar(SeeBar(st, b), b, round2), b);
            Chronicle(strategy, bars, st') && Midway(st') && (!st'.raised ==> Ongoing(strategy, bars, st'))
  {
    var b := bars[|bars| - 1];
    assert bars[..|bars| - 1] + [b] == bars;
    var seen := SeeBar(st, b);
    SeenTells(strategy, bars, bars[..|bars| - 1], st, seen);
    hide Alive, Survived, Chronicle, Midway, Ongoing;
    LedgerLength(cfg, st);
    EquityIsLast(cfg, st);
    ExitBarTells(strategy, bars, seen, round2);
    ExitBarHist(seen, b, round2);
    var exited := ExitBar(seen, b, round2);
    hide ExitBar;
    if !exited.raised {
      EnterBarTells(cfg, strategy, bars, exited, b);
    } else {
      RaisedIsOpen(seen, b, round2);
    }
  }

  lemma {:induction false} SeenTells(strategy: Strategy, bars: seq<Bar>, front: seq<Bar>, st: Engine, seen: Engine)
    requires seen.curve == st.curve && seen.trades == st.trades && seen.open == st.open && seen.equity == st.equity
    ensures Chronicle(strategy, bars, st) ==> Chronicle(strategy, bars, seen)
    ensures Midway(st) ==> Midway(seen)
    ensures Ongoing(strategy, front, st) ==> Ongoing(strategy, front, seen)
  {
    hide TradeTold, OpenTold;
  }

  lemma {:induction false} EquityIsLast(cfg: Config, st: Engine)
    requires Ledger(cfg, st)
    ensures |st.curve| == |st.trades| + 1 && st.curve[|st.trades|] == st.equity
  {
  }

  lemma {:induction false} RaisedIsOpen(st: Engine, b: Bar, round2: real -> real)
    requires !st.raised && ExitBar(st, b, round2).raised
    ensures ExitBar(st, b, round2).open.Some?
  {
    hide ExitStep;
  }

  /** On every run of every strategy whose positions pass construction, every booked trade is
      told by the bars: the strategy asked for it at the close of some bar, with the equity of
      that time; no bar before the last one it saw would have closed it; and it closed there at
      its stop if the bar reached the stop, else at its target if it reached that, else at the
      close of the last bar of all. */
  lemma {:induction false} EveryTradeIsTold(cfg: Config, strategy: Strategy, round2: real -> real, bars: seq<Bar>)
    requires OpensConstructed(strategy) && SoundBars(bars)
    ensures Chronicle(strategy, bars, FinalState(cfg, strategy, round2, bars))
  {
    hide OpensConstructed, Survived, TradesSound, Ledger, SoundBars, Chronicle, Midway, Ongoing, CloseTrade, Accepts;
    RunTells(cfg, strategy, round2, bars);
    RunKeepsLedger(cfg, strategy, round2, bars);
    RunStaysSound(cfg, strategy, round2, bars);
    var st := AfterBars(cfg, strategy, round2, bars);
    EquityIsLast(cfg, st);
    hide AfterBars;
    if !st.raised && st.open.Some? && |st.hist| > 0 {
      FinishTells(strategy, bars, st, round2);
    }
  }

  lemma {:induction false} FinishTells(strategy: Strategy, bars: seq<Bar>, st: Engine, round2: real -> real)
    requires !st.raised && st.open.Some? && |bars| > 0 && st.hist == bars
    requires Chronicle(strategy, bars, st) && Ongoing(strategy, bars, st) && st.curve[|st.trades|] == st.equity
    requires Alive(st.open.value.spec, st.open.value.live)
    ensures Chronicle(strategy, bars, Finish(st, round2))
  {
    var o := st.open.value;
    if o.spec.side.Managed() {
      var e :| OpenTold(strategy, bars, st.equity, o.spec, o.live, e);
      EndTells(strategy, bars, st.equity, o.spec, o.live, e, round2);
      var t := CloseTrade(o.spec, o.live, bars[|bars| - 1].close, SessionEnd, round2);
      hide OpenTold, Told, Alive, Accepts, CloseTrade;
      assert TradeTold(strategy, bars, st.equity, t);
      BookTells(strategy, bars, st, t);
    } else {
      hide TradeTold;
    }
  }
}
