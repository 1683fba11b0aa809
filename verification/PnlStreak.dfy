/** When a losing streak trips the drift detector: a test on the state before the streak
    that says exactly whether one of its trades will. */
module PnlStreak {
  import opened PnlDrift
  import opened Reals
  import opened Sums

  // ---------------------------------------------------------------- a streak

  /** How far the running mean still lies above c after the i-th c in a row. */
  function Lag(st: State, c: real, i: nat): real {
    if st.n + i == 0 then 0.0 else (st.mean - c) * st.n as real / (st.n + i) as real
  }

  /** What i trades of c add to the downward statistic, each at its lag less the slack. */
  function Dip(delta: real, st: State, c: real, i: nat): real {
    if i == 0 then -st.gDn else Dip(delta, st, c, i - 1) + Lag(st, c, i) - delta
  }

  /** The state after i trades of c, alarms and resets included. */
  function Streak(p: Settings, st: State, c: real, i: nat): State {
    if i == 0 then st else Updated(p, Streak(p, st, c, i - 1), c)
  }

  /** The i-th trade of the streak raises an alarm of this direction. */
  ghost predicate Raises(p: Settings, st: State, c: real, i: int, d: Direction) {
    i >= 1 && var a := AlarmOf(p, Accumulated(p.delta, Streak(p, st, c, i - 1), c)); a.Some? && a.value.direction == d
  }

  ghost predicate Deep(p: Settings, st: State, c: real, i: int) {
    i >= 1 && Dip(p.delta, st, c, i) > p.threshold
  }

  /** No alarm is pending. */
  ghost predicate Quiet(p: Settings, st: State) {
    0.0 <= st.gUp <= p.threshold && 0.0 <= -st.gDn <= p.threshold && st.gMinUp == 0.0 && st.gMaxDn == 0.0
  }

  lemma {:induction false} UpdatedQuiet(p: Settings, st: State, x: real)
    requires p.Accepted() && Quiet(p, st)
    ensures Quiet(p, Updated(p, st, x))
  {
  }

  lemma {:induction false} StreakQuiet(p: Settings, st: State, c: real, i: nat)
    requires p.Accepted() && Quiet(p, st)
    ensures Quiet(p, Streak(p, st, c, i))
  {
    if i > 0 {
      StreakQuiet(p, st, c, i - 1);
      UpdatedQuiet(p, Streak(p, st, c, i - 1), c);
      hide Quiet, Updated;
    }
  }

  // ---------------------------------------------------------------- a streak above the mean

  ghost predicate NotAbove(st: State, c: real) { st.n == 0 || st.mean <= c }

  lemma {:induction false} MeanRises(mean: real, c: real, n: nat)
    requires n == 0 || mean <= c
    ensures mean + (c - mean) / (n + 1) as real <= c
  {
    var k := (n + 1) as real;
    var q := (c - mean) / k;
    assert q * k == c - mean;
    if n > 0 {
      assert (mean + q - c) * k == (mean - c) * n as real;
      Product(c - mean, n as real);
      SignOf(mean + q - c, k);
    }
  }

  lemma {:induction false} RisingStep(p: Settings, st: State, c: real)
    requires p.Accepted() && Quiet(p, st) && NotAbove(st, c)
    ensures !DownAlarm(p, Accumulated(p.delta, st, c)) && NotAbove(Updated(p, st, c), c)
  {
    MeanRises(st.mean, c, st.n);
  }

  /** Trades at or above the mean never raise the downward alarm. */
  lemma {:induction false} RisingNeverDown(p: Settings, st: State, c: real, i: nat)
    requires p.Accepted() && Quiet(p, st) && NotAbove(st, c)
    ensures NotAbove(Streak(p, st, c, i), c) && !Raises(p, st, c, i, Down)
  {
    if i > 0 {
      RisingNeverDown(p, st, c, i - 1);
      StreakQuiet(p, st, c, i - 1);
      RisingStep(p, Streak(p, st, c, i - 1), c);
      hide Accumulated, Updated, NotAbove, Quiet, DownAlarm;
    }
  }

  lemma {:induction false} LagSign(st: State, c: real, i: nat)
    ensures NotAbove(st, c) ==> Lag(st, c, i) <= 0.0
    ensures st.mean >= c ==> Lag(st, c, i) >= 0.0
  {
    if st.n + i > 0 {
      var a, k := (st.mean - c) * st.n as real, (st.n + i) as real;
      var q := Lag(st, c, i);
      assert q * k == a;
      if st.n > 0 { SignOf(st.mean - c, st.n as real); SignOf(c - st.mean, st.n as real); }
      assert (-q) * k == (c - st.mean) * st.n as real;
      SignOf(q, k);
      SignOf(-q, k);
    }
  }

  lemma {:induction false} RisingNeverDeep(p: Settings, st: State, c: real, i: nat)
    requires p.Accepted() && Quiet(p, st) && NotAbove(st, c)
    ensures Dip(p.delta, st, c, i) <= -st.gDn && !Deep(p, st, c, i)
  {
    if i > 0 {
      RisingNeverDeep(p, st, c, i - 1);
      LagSign(st, c, i);
      hide Lag;
    }
  }

  // ---------------------------------------------------------------- a streak below the mean

  ghost predicate NoneRaised(p: Settings, st: State, c: real, i: nat) {
    forall j :: 1 <= j <= i ==> !Raises(p, st, c, j, Up) && !Raises(p, st, c, j, Down)
  }

  lemma {:induction false} LagStep(st: State, c: real, i: nat)
    requires st.n > 0
    ensures Lag(st, c, 0) == st.mean - c
    ensures var m := c + Lag(st, c, i); m + (c - m) / (st.n + i + 1) as real == c + Lag(st, c, i + 1)
    ensures st.mean >= c ==> Lag(st, c, i + 1) <= Lag(st, c, i)
  {
    var a, k := (st.mean - c) * st.n as real, (st.n + i) as real;
    Quotient(st.mean - c, st.n as real, a);
    LagSign(st, c, i);
    LagTimes(st, c, i);
    LagTimes(st, c, i + 1);
    hide Lag;
    MeanLag(Lag(st, c, i), Lag(st, c, i + 1), k, a, c + Lag(st, c, i), c);
  }

  lemma {:induction false} LagTimes(st: State, c: real, i: nat)
    requires st.n > 0
    ensures Lag(st, c, i) * (st.n + i) as real == (st.mean - c) * st.n as real
  {
  }

  lemma {:induction false} MeanLag(lag: real, next: real, k: real, a: real, m: real, c: real)
    requires k > 0.0 && lag * k == a && next * (k + 1.0) == a && m == c + lag
    ensures m + (c - m) / (k + 1.0) == c + next
    ensures lag >= 0.0 ==> next <= lag
  {
    var w := k + 1.0;
    var q := (c - m) / w;
    assert q * w == -lag;
    assert (lag + q) * w == a;
    Quotient(lag + q, w, a);
    Quotient(next, w, a);
    assert (next - lag) * w == -lag;
    SignOf(next - lag, w);
  }

  /** Before the first alarm the mean lags as computed, and the downward statistic is the dip
      while trades still add to it; afterwards it stays under the threshold. */
  ghost predicate Tracks(p: Settings, st: State, c: real, i: nat, s: State) {
    && Quiet(p, s) && s.n == st.n + i && s.mean == c + Lag(st, c, i)
    && Dip(p.delta, st, c, i) <= -s.gDn
    && (i == 0 || Lag(st, c, i) >= p.delta ==> Dip(p.delta, st, c, i) == -s.gDn)
  }

  lemma {:induction false} TrackStep(p: Settings, st: State, c: real, i: nat, s: State)
    requires p.Accepted() && st.n > 0 && st.mean >= c && Tracks(p, st, c, i, s)
    ensures !UpAlarm(p, Accumulated(p.delta, s, c))
    ensures DownAlarm(p, Accumulated(p.delta, s, c)) <==> Deep(p, st, c, i + 1)
    ensures !DownAlarm(p, Accumulated(p.delta, s, c)) ==> Tracks(p, st, c, i + 1, Accumulated(p.delta, s, c))
  {
    LagStep(st, c, i);
    LagSign(st, c, i + 1);
    assert Dip(p.delta, st, c, i + 1) == Dip(p.delta, st, c, i) + Lag(st, c, i + 1) - p.delta;
    var next := Accumulated(p.delta, s, c);
    assert next.mean == c + Lag(st, c, i + 1) && next.n == st.n + i + 1;
    hide Lag, Dip;
  }

  lemma {:induction false} StreakTracks(p: Settings, st: State, c: real, i: nat)
    requires p.Accepted() && Quiet(p, st) && st.n > 0 && st.mean >= c && NoneRaised(p, st, c, i)
    ensures Tracks(p, st, c, i, Streak(p, st, c, i))
  {
    if i == 0 {
      LagStep(st, c, 0);
    } else {
      StreakTracks(p, st, c, i - 1);
      TrackStep(p, st, c, i - 1, Streak(p, st, c, i - 1));
      assert !Raises(p, st, c, i, Up) && !Raises(p, st, c, i, Down);
      hide Tracks, Accumulated;
    }
  }

  /** As long as nothing was raised, the next trade raises the downward alarm exactly if the
      dip is deep, and never the upward one. */
  lemma {:induction false} NextRaise(p: Settings, st: State, c: real, i: nat)
    requires p.Accepted() && Quiet(p, st) && st.n > 0 && st.mean >= c && NoneRaised(p, st, c, i)
    ensures Raises(p, st, c, i + 1, Down) <==> Deep(p, st, c, i + 1)
    ensures !Raises(p, st, c, i + 1, Up)
  {
    StreakTracks(p, st, c, i);
    TrackStep(p, st, c, i, Streak(p, st, c, i));
    hide Tracks, Accumulated, Deep, Streak;
  }

  ghost predicate RaisedWithin(p: Settings, st: State, c: real, k: nat, d: Direction) {
    exists i :: 1 <= i <= k && Raises(p, st, c, i, d)
  }

  ghost predicate DeepWithin(p: Settings, st: State, c: real, k: nat) {
    exists i :: 1 <= i <= k && Deep(p, st, c, i)
  }

  lemma {:induction false} FallingStreak(p: Settings, st: State, c: real, k: nat)
    requires p.Accepted() && Quiet(p, st) && st.n > 0 && st.mean >= c
    ensures RaisedWithin(p, st, c, k, Down) <==> DeepWithin(p, st, c, k)
    ensures !RaisedWithin(p, st, c, k, Down) ==> NoneRaised(p, st, c, k)
  {
    if k > 0 {
      FallingStreak(p, st, c, k - 1);
      hide Raises, Deep, Quiet;
      if NoneRaised(p, st, c, k - 1) {
        NextRaise(p, st, c, k - 1);
      }
    }
  }

  /** For any state between alarms and any value c: one of the next k trades of c raises the
      downward alarm if and only if, for some i up to k, the statistic before the streak and
      the first i lags less the slack add up to more than the threshold.  All of that is
      known before the streak begins. */
  lemma {:induction false} StreakTripsIff(p: Settings, st: State, c: real, k: nat)
    requires p.Accepted() && Quiet(p, st)
    ensures RaisedWithin(p, st, c, k, Down) <==> DeepWithin(p, st, c, k)
  {
    if NotAbove(st, c) {
      forall i: nat ensures !Raises(p, st, c, i, Down) && !Deep(p, st, c, i) {
        RisingNeverDown(p, st, c, i);
        RisingNeverDeep(p, st, c, i);
      }
      hide Raises, Deep;
    } else {
      FallingStreak(p, st, c, k);
    }
  }

  // ---------------------------------------------------------------- on a stream

  function Copies(c: real, k: nat): (r: seq<real>)
    ensures |r| == k && forall i :: 0 <= i < k ==> r[i] == c
  {
    seq(k, i => c)
  }

  lemma {:induction false} StreamStreak(p: Settings, xs: seq<real>, c: real, k: nat)
    ensures StateAfter(p, xs + Copies(c, k)) == Streak(p, StateAfter(p, xs), c, k)
    ensures k > 0 ==> (forall d :: Raises(p, StateAfter(p, xs), c, k, d) <==> AlarmedAt(p, xs, c, k, d))
  {
    hide Accumulated, Updated, AlarmOf;
    var all := xs + Copies(c, k);
    if k == 0 {
      assert all == xs;
    } else {
      StreamStreak(p, xs, c, k - 1);
      assert all[..|all| - 1] == xs + Copies(c, k - 1) && all[|all| - 1] == c;
      assert StateAfter(p, all) == Updated(p, StateAfter(p, all[..|all| - 1]), c);
      hide Copies, StateAfter, Streak;
    }
  }

  /** After the history xs, the k-th c in a row raises an alarm of this direction. */
  ghost predicate AlarmedAt(p: Settings, xs: seq<real>, c: real, k: int, d: Direction) {
    k >= 1 && var a := LastAlarm(p, xs + Copies(c, k)); a.Some? && a.value.direction == d
  }

  ghost predicate AlarmedWithin(p: Settings, xs: seq<real>, c: real, k: nat, d: Direction) {
    exists i :: 1 <= i <= k && AlarmedAt(p, xs, c, i, d)
  }

  lemma {:induction false} HistoryQuiet(p: Settings, xs: seq<real>)
    requires p.Accepted()
    ensures Quiet(p, StateAfter(p, xs))
  {
    if |xs| > 0 {
      HistoryQuiet(p, xs[..|xs| - 1]);
      UpdatedQuiet(p, StateAfter(p, xs[..|xs| - 1]), xs[|xs| - 1]);
      hide Quiet, Updated;
    }
  }

  /** After any history, k trades of c in a row bring a downward alarm exactly when the dip
      computed from the state before them is deep within k. */
  lemma {:induction false} LosingStreakTripsIff(p: Settings, xs: seq<real>, c: real, k: nat)
    requires p.Accepted()
    ensures AlarmedWithin(p, xs, c, k, Down) <==> DeepWithin(p, StateAfter(p, xs), c, k)
  {
    hide Quiet, Deep, Raises, AlarmedAt;
    HistoryQuiet(p, xs);
    StreakTripsIff(p, StateAfter(p, xs), c, k);
    forall i: nat | i > 0 ensures Raises(p, StateAfter(p, xs), c, i, Down) <==> AlarmedAt(p, xs, c, i, Down) {
      StreamStreak(p, xs, c, i);
    }
  }

  /** And an upward alarm exactly when that is so of the mirrored state and value. */
  lemma {:induction false} WinningStreakTripsIff(p: Settings, xs: seq<real>, c: real, k: nat)
    requires p.Accepted()
    ensures AlarmedWithin(p, xs, c, k, Up) <==> DeepWithin(p, Mirrored(StateAfter(p, xs)), -c, k)
  {
    hide AlarmedAt, Deep, Mirrored;
    LosingStreakTripsIff(p, Negated(xs), -c, k);
    NegationMirrors(p, xs);
    if AlarmedWithin(p, xs, c, k, Up) {
      var i :| 1 <= i <= k && AlarmedAt(p, xs, c, i, Up);
      AlarmMirrored(p, xs, c, i);
      assert AlarmedAt(p, Negated(xs), -c, i, Down);
    }
    if AlarmedWithin(p, Negated(xs), -c, k, Down) {
      var i :| 1 <= i <= k && AlarmedAt(p, Negated(xs), -c, i, Down);
      AlarmMirrored(p, xs, c, i);
      assert AlarmedAt(p, xs, c, i, Up);
    }
  }

  lemma {:induction false} AlarmMirrored(p: Settings, xs: seq<real>, c: real, i: nat)
    requires p.Accepted() && i > 0
    ensures AlarmedAt(p, xs, c, i, Up) <==> AlarmedAt(p, Negated(xs), -c, i, Down)
  {
    hide LastAlarm;
    assert Negated(xs + Copies(c, i)) == Negated(xs) + Copies(-c, i);
    NegationMirrors(p, xs + Copies(c, i));
  }

  // ---------------------------------------------------------------- the documented streak

  const DEFAULTS := Settings(0.005, 1.0)

  /** Twenty losses of -0.5 trip the default detector after a single break-even trade, at the
      twelfth of them, though they never do when it is fresh. */
  lemma {:induction false} DocumentedStreak()
    ensures AlarmedWithin(DEFAULTS, [0.0], -0.5, 20, Down)
    ensures AlarmedWithin(DEFAULTS, [0.0], -0.5, 12, Down) && !AlarmedWithin(DEFAULTS, [0.0], -0.5, 11, Down)
    ensures !AlarmedWithin(DEFAULTS, [], -0.5, 20, Down)
  {
    var st := State(1, 0.0, 0.0, 0.0, 0.0, 0.0);
    AfterBreakEven();
    LosingStreakTripsIff(DEFAULTS, [0.0], -0.5, 20);
    LosingStreakTripsIff(DEFAULTS, [0.0], -0.5, 12);
    LosingStreakTripsIff(DEFAULTS, [0.0], -0.5, 11);
    LosingStreakTripsIff(DEFAULTS, [], -0.5, 20);
    forall i: nat ensures !Deep(DEFAULTS, FRESH, -0.5, i) {
      RisingNeverDeep(DEFAULTS, FRESH, -0.5, i);
    }
    EarlierDips(st, 11);
    TwelveDips(st);
    hide Dip, AlarmedWithin, StateAfter;
    assert Deep(DEFAULTS, st, -0.5, 12);
  }

  lemma {:induction false} AfterBreakEven()
    ensures StateAfter(DEFAULTS, [0.0]) == State(1, 0.0, 0.0, 0.0, 0.0, 0.0) && StateAfter(DEFAULTS, []) == FRESH
  {
    SteadyStreamNeverAlarms(DEFAULTS, [0.0], 0.0);
    SteadyStreamNeverAlarms(DEFAULTS, [], 0.0);
  }

  lemma {:induction false} DipStep(st: State, i: nat, q: real)
    requires st == State(1, 0.0, 0.0, 0.0, 0.0, 0.0) && q * (i + 2) as real == 0.5
    ensures Dip(0.005, st, -0.5, i + 1) == Dip(0.005, st, -0.5, i) + q - 0.005
  {
    Quotient(q, (i + 2) as real, 0.5);
  }

  lemma {:induction false} EarlierDips(st: State, k: nat)
    requires st == State(1, 0.0, 0.0, 0.0, 0.0, 0.0) && k <= 40
    ensures forall i :: 0 <= i <= k ==> Dip(0.005, st, -0.5, i) <= Dip(0.005, st, -0.5, k)
  {
    hide Dip;
    if k > 0 {
      EarlierDips(st, k - 1);
      var q := 0.5 / (k + 1) as real;
      StillAdds(q, (k + 1) as real);
      DipStep(st, k - 1, q);
    }
  }

  lemma {:induction false} StillAdds(q: real, m: real)
    requires 0.0 < m <= 41.0 && q == 0.5 / m
    ensures q >= 0.005 && q * m == 0.5
  {
    assert q * m == 0.5;
    assert (0.01 - q) * m == 0.01 * m - 0.5;
    SignOf(0.01 - q, m);
  }

  lemma {:induction false} TwelveDips(st: State)
    requires st == State(1, 0.0, 0.0, 0.0, 0.0, 0.0)
    ensures Dip(0.005, st, -0.5, 11) <= 1.0 < Dip(0.005, st, -0.5, 12)
  {
    NoDip(st);
    hide Dip;
    DipStep(st, 0, 0.25);
    DipStep(st, 1, 1.0 / 6.0);
    DipStep(st, 2, 0.125);
    DipStep(st, 3, 0.1);
    DipStep(st, 4, 1.0 / 12.0);
    DipStep(st, 5, 1.0 / 14.0);
    DipStep(st, 6, 0.0625);
    DipStep(st, 7, 1.0 / 18.0);
    DipStep(st, 8, 0.05);
    DipStep(st, 9, 1.0 / 22.0);
    DipStep(st, 10, 1.0 / 24.0);
    DipStep(st, 11, 1.0 / 26.0);
  }

  lemma {:induction false} NoDip(st: State)
    ensures Dip(0.005, st, -0.5, 0) == -st.gDn
  {
  }
}
