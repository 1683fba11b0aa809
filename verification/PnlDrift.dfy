/** The two-sided Page-Hinkley detector on a stream of trade results. */
module PnlDrift {
  import opened Options
  import opened Reals
  import opened Sums

  datatype Settings = Settings(delta: real, threshold: real) {
    predicate Accepted() { delta >= 0.0 && threshold > 0.0 }
  }

  datatype State = State(n: nat, mean: real, gUp: real, gMinUp: real, gDn: real, gMaxDn: real)

  const FRESH := State(0, 0.0, 0.0, 0.0, 0.0, 0.0)

  datatype Direction = Up | Down

  datatype Alarm = Alarm(direction: Direction, cumulative: real, threshold: real, observations: nat, mean: real)

  // ---------------------------------------------------------------- one observation

  /** The statistics after x, before the alarms are looked at. */
  function Accumulated(delta: real, st: State, x: real): State {
    var n := st.n + 1;
    var mean := st.mean + (x - st.mean) / n as real;
    var gUp := Max(0.0, st.gUp + (x - mean) - delta);
    var gDn := Min(0.0, st.gDn + (x - mean) + delta);
    State(n, mean, gUp, Min(st.gMinUp, gUp), gDn, Max(st.gMaxDn, gDn))
  }

  predicate UpAlarm(p: Settings, st: State) { st.gUp - st.gMinUp > p.threshold }

  predicate DownAlarm(p: Settings, st: State) { st.gMaxDn - st.gDn > p.threshold }

  function AlarmOf(p: Settings, st: State): Option<Alarm> {
    if UpAlarm(p, st) then Some(Alarm(Up, st.gUp - st.gMinUp, p.threshold, st.n, st.mean))
    else if DownAlarm(p, st) then Some(Alarm(Down, st.gMaxDn - st.gDn, p.threshold, st.n, st.mean))
    else None
  }

  /** An alarm resets the statistics. */
  function Updated(p: Settings, st: State, x: real): State {
    if AlarmOf(p, Accumulated(p.delta, st, x)).Some? then FRESH else Accumulated(p.delta, st, x)
  }

  // ---------------------------------------------------------------- a stream

  function StateAfter(p: Settings, xs: seq<real>): State {
    if |xs| == 0 then FRESH else Updated(p, StateAfter(p, xs[..|xs| - 1]), xs[|xs| - 1])
  }

  /** The alarm raised by the stream's last observation. */
  function LastAlarm(p: Settings, xs: seq<real>): Option<Alarm>
    requires |xs| > 0
  {
    AlarmOf(p, Accumulated(p.delta, StateAfter(p, xs[..|xs| - 1]), xs[|xs| - 1]))
  }

  /** The observations since the last alarm. */
  function Since(p: Settings, xs: seq<real>): seq<real> {
    if |xs| == 0 || LastAlarm(p, xs).Some? then [] else Since(p, xs[..|xs| - 1]) + [xs[|xs| - 1]]
  }

  // ---------------------------------------------------------------- closed form

  function Mean(xs: seq<real>): real {
    if |xs| == 0 then 0.0 else Total(xs) / |xs| as real
  }

  /** How far observation i lies above the mean of the first i + 1, less the slack. */
  function Excess(delta: real, xs: seq<real>, i: nat): real
    requires i < |xs|
  {
    xs[i] - Mean(xs[..i + 1]) - delta
  }

  /** The excess summed over the observations from j on. */
  function SuffixSum(delta: real, xs: seq<real>, j: nat): real
    requires j <= |xs|
  {
    if j == |xs| then 0.0 else SuffixSum(delta, xs[..|xs| - 1], j) + Excess(delta, xs, |xs| - 1)
  }

  /** g is the largest suffix sum, the empty suffix included. */
  ghost predicate IsLargestSuffix(delta: real, xs: seq<real>, g: real) {
    && (forall j :: 0 <= j <= |xs| ==> SuffixSum(delta, xs, j) <= g)
    && (exists j :: 0 <= j <= |xs| && SuffixSum(delta, xs, j) == g)
  }

  /** The state that the observations xs alone determine. */
  ghost predicate Describes(delta: real, xs: seq<real>, st: State) {
    && st.n == |xs| && st.mean == Mean(xs) && st.gMinUp == 0.0 && st.gMaxDn == 0.0
    && IsLargestSuffix(delta, xs, st.gUp) && IsLargestSuffix(delta, Negated(xs), -st.gDn)
  }

  lemma {:induction false} MeanStep(xs: seq<real>, was: real)
    requires |xs| > 0 && was == Mean(xs[..|xs| - 1])
    ensures was + (xs[|xs| - 1] - was) / |xs| as real == Mean(xs)
  {
    var k, x := |xs| as real, xs[|xs| - 1];
    var t := Total(xs[..|xs| - 1]);
    assert was * (k - 1.0) == t;
    var d := (x - was) / k;
    assert d * k == x - was;
    assert (was + d) * k == t + x;
    Quotient(was + d, k, t + x);
  }

  /** Page's recursion keeps the largest suffix sum. */
  lemma {:induction false} LargestSuffixStep(delta: real, xs: seq<real>, was: real)
    requires |xs| > 0 && IsLargestSuffix(delta, xs[..|xs| - 1], was)
    ensures IsLargestSuffix(delta, xs, Max(0.0, was + Excess(delta, xs, |xs| - 1)))
  {
    var before, e := xs[..|xs| - 1], Excess(delta, xs, |xs| - 1);
    forall j | 0 <= j < |xs| ensures SuffixSum(delta, xs, j) == SuffixSum(delta, before, j) + e {
    }
    assert SuffixSum(delta, xs, |xs|) == 0.0;
    hide SuffixSum, Excess;
    if was + e >= 0.0 {
      var j :| 0 <= j <= |before| && SuffixSum(delta, before, j) == was;
      assert SuffixSum(delta, xs, j) == was + e;
    }
  }

  lemma {:induction false} NegatedMean(xs: seq<real>)
    ensures Mean(Negated(xs)) == -Mean(xs)
  {
    NegatedTotal(xs);
    if |xs| > 0 {
      var k, m := |xs| as real, Mean(xs);
      assert m * k == Total(xs);
      assert (-m) * k == -Total(xs);
      Quotient(-m, k, -Total(xs));
    }
  }

  lemma {:induction false} AccumulatedDescribes(delta: real, xs: seq<real>, st: State)
    requires |xs| > 0 && Describes(delta, xs[..|xs| - 1], st)
    ensures Describes(delta, xs, Accumulated(delta, st, xs[|xs| - 1]))
  {
    var before, x, last := xs[..|xs| - 1], xs[|xs| - 1], |xs| - 1;
    MeanStep(xs, st.mean);
    assert xs[..last + 1] == xs && Negated(xs)[..last + 1] == Negated(xs);
    assert Negated(xs)[..last] == Negated(before);
    NegatedMean(xs);
    LargestSuffixStep(delta, xs, st.gUp);
    LargestSuffixStep(delta, Negated(xs), -st.gDn);
    assert Excess(delta, xs, last) == x - Mean(xs) - delta;
    assert Excess(delta, Negated(xs), last) == -x + Mean(xs) - delta;
    hide Mean, IsLargestSuffix, Excess;
  }

  lemma {:induction false} FreshDescribes(delta: real)
    ensures Describes(delta, [], FRESH)
  {
    assert SuffixSum(delta, [], 0) == 0.0;
    assert Negated([]) == [];
  }

  /** At every point of every stream the state is the closed form of the observations since
      the last alarm: their mean, and their largest suffix sums in both directions. */
  lemma {:induction false} StateIsClosedForm(p: Settings, xs: seq<real>)
    ensures Describes(p.delta, Since(p, xs), StateAfter(p, xs))
  {
    FreshDescribes(p.delta);
    if |xs| > 0 {
      var before, x := xs[..|xs| - 1], xs[|xs| - 1];
      StateIsClosedForm(p, before);
      var ys := Since(p, before) + [x];
      assert ys[..|ys| - 1] == Since(p, before);
      AccumulatedDescribes(p.delta, ys, StateAfter(p, before));
      hide Describes, Accumulated, AlarmOf;
    }
  }

  // ---------------------------------------------------------------- alarms

  ghost predicate SomeSuffixOver(delta: real, xs: seq<real>, limit: real) {
    exists j :: 0 <= j <= |xs| && SuffixSum(delta, xs, j) > limit
  }

  /** The observations that the last one is judged with. */
  function Window(p: Settings, xs: seq<real>): seq<real>
    requires |xs| > 0
  {
    Since(p, xs[..|xs| - 1]) + [xs[|xs| - 1]]
  }

  lemma {:induction false} WindowDescribed(p: Settings, xs: seq<real>)
    requires |xs| > 0
    ensures Describes(p.delta, Window(p, xs), Accumulated(p.delta, StateAfter(p, xs[..|xs| - 1]), xs[|xs| - 1]))
  {
    var ys := Window(p, xs);
    StateIsClosedForm(p, xs[..|xs| - 1]);
    assert ys[..|ys| - 1] == Since(p, xs[..|xs| - 1]);
    AccumulatedDescribes(p.delta, ys, StateAfter(p, xs[..|xs| - 1]));
  }

  /** Without an alarm neither statistic is over the threshold. */
  lemma {:induction false} QuietBetweenAlarms(p: Settings, xs: seq<real>)
    requires p.Accepted()
    ensures var st := StateAfter(p, xs);
            st.gUp <= p.threshold && -st.gDn <= p.threshold && st.gMinUp == 0.0 && st.gMaxDn == 0.0
  {
    StateIsClosedForm(p, xs);
  }

  /** Both alarms can never hold at once: an observation moves the two statistics the same
      way, and before it neither was over the threshold. */
  lemma {:induction false} NeverBothAlarms(p: Settings, xs: seq<real>)
    requires p.Accepted() && |xs| > 0
    ensures var st := Accumulated(p.delta, StateAfter(p, xs[..|xs| - 1]), xs[|xs| - 1]);
            !(UpAlarm(p, st) && DownAlarm(p, st))
  {
    QuietBetweenAlarms(p, xs[..|xs| - 1]);
    WindowDescribed(p, xs);
    hide StateAfter, Window, IsLargestSuffix, Mean;
  }

  /** An observation raises the upward alarm exactly when the excess over the running mean,
      summed from some point since the last alarm, is over the threshold, and the downward
      one exactly when that is so of the negated observations. */
  lemma {:induction false} AlarmIff(p: Settings, xs: seq<real>)
    requires p.Accepted() && |xs| > 0
    ensures var a, w := LastAlarm(p, xs), Window(p, xs);
            && (a.Some? && a.value.direction == Up <==> SomeSuffixOver(p.delta, w, p.threshold))
            && (a.Some? && a.value.direction == Down <==> SomeSuffixOver(p.delta, Negated(w), p.threshold))
            && (a.Some? ==> a.value.observations == |w| && a.value.mean == Mean(w) && a.value.cumulative > p.threshold)
            && (a.Some? ==> IsLargestSuffix(p.delta, if a.value.direction == Up then w else Negated(w),
                                            a.value.cumulative))
  {
    var w, st := Window(p, xs), Accumulated(p.delta, StateAfter(p, xs[..|xs| - 1]), xs[|xs| - 1]);
    NeverBothAlarms(p, xs);
    WindowDescribed(p, xs);
    OverIff(p.delta, w, st.gUp, p.threshold);
    OverIff(p.delta, Negated(w), -st.gDn, p.threshold);
    hide Accumulated, StateAfter, Window, IsLargestSuffix, SomeSuffixOver, Mean;
  }

  lemma {:induction false} OverIff(delta: real, xs: seq<real>, g: real, limit: real)
    requires IsLargestSuffix(delta, xs, g)
    ensures g > limit <==> SomeSuffixOver(delta, xs, limit)
  {
    hide SuffixSum;
    var j :| 0 <= j <= |xs| && SuffixSum(delta, xs, j) == g;
  }

  // ---------------------------------------------------------------- mirroring

  function Mirrored(st: State): State {
    State(st.n, -st.mean, -st.gDn, -st.gMaxDn, -st.gUp, -st.gMinUp)
  }

  function Opposite(d: Direction): Direction { if d == Up then Down else Up }

  lemma {:induction false} AccumulatedMirrors(delta: real, st: State, x: real)
    ensures Accumulated(delta, Mirrored(st), -x) == Mirrored(Accumulated(delta, st, x))
  {
    QuotientNegated(x - st.mean, (st.n + 1) as real);
    assert -x - -st.mean == -(x - st.mean);
  }

  function MirroredAlarm(a: Option<Alarm>): Option<Alarm> {
    if a.None? then None
    else Some(Alarm(Opposite(a.value.direction), a.value.cumulative, a.value.threshold, a.value.observations,
                    -a.value.mean))
  }

  lemma {:induction false} AlarmMirrors(p: Settings, st: State)
    requires !(UpAlarm(p, st) && DownAlarm(p, st))
    ensures AlarmOf(p, Mirrored(st)) == MirroredAlarm(AlarmOf(p, st))
  {
  }

  /** Negating the stream mirrors the state after every observation, and turns every alarm
      round at the same place, with the same size. */
  lemma {:induction false} NegationMirrors(p: Settings, xs: seq<real>)
    requires p.Accepted()
    ensures StateAfter(p, Negated(xs)) == Mirrored(StateAfter(p, xs))
    ensures |xs| > 0 ==> LastAlarm(p, Negated(xs)) == MirroredAlarm(LastAlarm(p, xs))
  {
    hide Accumulated, AlarmOf, UpAlarm, DownAlarm, Mirrored, MirroredAlarm;
    FreshMirrors();
    if |xs| > 0 {
      var before, x := xs[..|xs| - 1], xs[|xs| - 1];
      NegationMirrors(p, before);
      assert Negated(xs)[..|xs| - 1] == Negated(before);
      AccumulatedMirrors(p.delta, StateAfter(p, before), x);
      NeverBothAlarms(p, xs);
      AlarmMirrors(p, Accumulated(p.delta, StateAfter(p, before), x));
      MirroredPresence(LastAlarm(p, xs));
    }
  }

  lemma {:induction false} FreshMirrors()
    ensures Mirrored(FRESH) == FRESH
  {
  }

  lemma {:induction false} MirroredPresence(a: Option<Alarm>)
    ensures MirroredAlarm(a).Some? <==> a.Some?
  {
  }

  // ---------------------------------------------------------------- a steady stream

  ghost predicate Steady(xs: seq<real>, c: real) {
    forall i :: 0 <= i < |xs| ==> xs[i] == c
  }

  /** A fresh detector never alarms on a constant stream, however bad the constant: the mean
      follows the first observation.  Twenty losses of -0.5 in a row are no drift to it. */
  lemma {:induction false} SteadyStreamNeverAlarms(p: Settings, xs: seq<real>, c: real)
    requires p.Accepted() && Steady(xs, c)
    ensures StateAfter(p, xs) == State(|xs|, if |xs| == 0 then 0.0 else c, 0.0, 0.0, 0.0, 0.0)
    ensures |xs| > 0 ==> LastAlarm(p, xs) == None
  {
    if |xs| > 0 {
      var before := xs[..|xs| - 1];
      SteadyStreamNeverAlarms(p, before, c);
      var st := StateAfter(p, before);
      SteadyMean(st.mean, c, |xs| as real, |before| == 0);
      assert Accumulated(p.delta, st, c) == State(|xs|, c, 0.0, 0.0, 0.0, 0.0);
    }
  }

  lemma {:induction false} SteadyMean(was: real, c: real, k: real, first: bool)
    requires k > 0.0 && was == (if first then 0.0 else c) && (first ==> k == 1.0)
    ensures was + (c - was) / k == c
  {
  }

  // ---------------------------------------------------------------- the detector

  class PageHinkleyDetector {
    const settings: Settings
    var n: nat
    var runningMean: real
    var gUp: real
    var gMinUp: real
    var gDn: real
    var gMaxDn: real

    constructor (settings: Settings)
      requires settings.Accepted()
      ensures this.settings == settings && View() == FRESH
    {
      this.settings := settings;
      n, runningMean, gUp, gMinUp, gDn, gMaxDn := 0, 0.0, 0.0, 0.0, 0.0, 0.0;
    }

    ghost function View(): State
      reads this
    {
      State(n, runningMean, gUp, gMinUp, gDn, gMaxDn)
    }

    method Reset()
      modifies this
      ensures View() == FRESH
    {
      n, runningMean := 0, 0.0;
      gUp, gMinUp := 0.0, 0.0;
      gDn, gMaxDn := 0.0, 0.0;
    }

    method Update(x: real) returns (alarm: Option<Alarm>)
      modifies this
      ensures View() == Updated(settings, old(View()), x)
      ensures alarm == AlarmOf(settings, Accumulated(settings.delta, old(View()), x))
    {
      n := n + 1;
      runningMean := runningMean + (x - runningMean) / n as real;
      var centered := x - runningMean;
      gUp := Max(0.0, gUp + centered - settings.delta);
      gMinUp := Min(gMinUp, gUp);
      gDn := Min(0.0, gDn + centered + settings.delta);
      gMaxDn := Max(gMaxDn, gDn);
      var up, down := gUp - gMinUp > settings.threshold, gMaxDn - gDn > settings.threshold;
      if up {
        alarm := Some(Alarm(Up, gUp - gMinUp, settings.threshold, n, runningMean));
        Reset();
        return;
      }
      if down {
        alarm := Some(Alarm(Down, gMaxDn - gDn, settings.threshold, n, runningMean));
        Reset();
        return;
      }
      alarm := None;
    }

    /** Feed a whole stream to a fresh detector. */
    method Feed(xs: seq<real>) returns (alarms: seq<Option<Alarm>>)
      requires View() == FRESH
      modifies this
      ensures View() == StateAfter(settings, xs) && |alarms| == |xs|
      ensures forall i :: 0 <= i < |xs| ==> alarms[i] == LastAlarm(settings, xs[..i + 1])
    {
      hide Updated, Accumulated, AlarmOf;
      alarms := [];
      for i := 0 to |xs|
        invariant View() == StateAfter(settings, xs[..i]) && |alarms| == i
        invariant forall k :: 0 <= k < i ==> alarms[k] == LastAlarm(settings, xs[..k + 1])
      {
        assert xs[..i + 1][..i] == xs[..i];
        var alarm := Update(xs[i]);
        alarms := alarms + [alarm];
      }
      assert xs[..|xs|] == xs;
    }
  }
}
