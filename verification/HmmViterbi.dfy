/** Viterbi decoding in log space, proved optimal over every state sequence. */
module HmmViterbi {
  import opened Reals
  import opened Sums
  import opened HmmPaths

  type Negative = r: real | r < 0.0 witness -1.0

  /** Log score of a zero probability.  The program's is -1e300; all results here hold for any
      negative number. */
  const LOG_ZERO: Negative

  /** A fitted model read in log space: `log` and `logDensity` stand for the library's. */
  datatype Decoder = Decoder(m: Hmm, log: real -> real, logDensity: Density)
  {
    function SafeLog(p: real): real { if p <= 0.0 then LOG_ZERO else log(p) }

    function LogInit(i: int): real { SafeLog(m.Init(i)) }

    function LogTrans(i: int, j: int): real { SafeLog(m.Trans(i, j)) }

    function LogEmit(obs: seq<real>, t: int, j: int): real {
      logDensity(At(obs, t), At(m.means, j), At(m.variances, j))
    }

    /** The joint log score of a state sequence and the first |p| observations. */
    ghost function Score(obs: seq<real>, p: seq<int>): real
      requires |p| > 0
    {
      if |p| == 1 then LogInit(p[0]) + LogEmit(obs, 0, p[0])
      else Score(obs, p[..|p| - 1]) + LogTrans(p[|p| - 2], p[|p| - 1]) + LogEmit(obs, |p| - 1, p[|p| - 1])
    }
  }

  // ---------------------------------------------------------------- specification

  /** row[j] bounds the score of every path of bars 0..t that ends in j. */
  ghost predicate Bounds(d: Decoder, obs: seq<real>, t: nat, row: seq<real>) {
    |row| == d.m.K() && forall p :: IsPath(p, t + 1, |row|) ==> d.Score(obs, p) <= row[p[t]]
  }

  /** What entering state j at bar t from state i would score. */
  ghost function Via(d: Decoder, obs: seq<real>, t: int, prev: seq<real>, i: int, j: int): real {
    At(prev, i) + d.LogTrans(i, j) + d.LogEmit(obs, t, j)
  }

  /** Row t and its back pointers: the best entry into each state, ties to the lowest. */
  ghost predicate Advances(d: Decoder, obs: seq<real>, t: int, prev: seq<real>, row: seq<real>, back: seq<int>) {
    && |prev| == |row| == |back| == d.m.K()
    && forall j :: 0 <= j < |row| ==>
         && 0 <= back[j] < |row|
         && row[j] == Via(d, obs, t, prev, back[j], j)
         && forall i :: 0 <= i < |row| ==>
              Via(d, obs, t, prev, i, j) <= row[j] && (Via(d, obs, t, prev, i, j) == row[j] ==> back[j] <= i)
  }

  ghost predicate Tables(d: Decoder, obs: seq<real>, delta: seq<seq<real>>, psi: seq<seq<int>>, n: nat) {
    && n <= |delta| == |psi|
    && forall t :: 0 < t < n ==> Advances(d, obs, t, delta[t - 1], delta[t], psi[t])
  }

  ghost predicate FirstRow(d: Decoder, obs: seq<real>, row: seq<real>) {
    |row| == d.m.K() && forall i :: 0 <= i < |row| ==> row[i] == d.LogInit(i) + d.LogEmit(obs, 0, i)
  }

  /** The sequence that follows the back pointers. */
  ghost predicate Follows(d: Decoder, psi: seq<seq<int>>, states: seq<int>, from: nat) {
    && |states| == |psi|
    && forall t :: from < t < |psi| ==>
         |psi[t]| == d.m.K() && 0 <= states[t] < d.m.K() && states[t - 1] == psi[t][states[t]]
  }

  /** No path outscores `best`; and among equal paths, reading from the last bar back,
      the first difference is a lower state in `best`. */
  ghost predicate Optimal(d: Decoder, obs: seq<real>, best: seq<int>) {
    && |obs| > 0 && IsPath(best, |obs|, d.m.K())
    && (forall p :: IsPath(p, |obs|, d.m.K()) ==> d.Score(obs, p) <= d.Score(obs, best))
    && (forall p :: IsPath(p, |obs|, d.m.K()) && d.Score(obs, p) == d.Score(obs, best) ==> NeverLower(best, p))
  }

  ghost predicate AgreeFrom(p: seq<int>, q: seq<int>, u: nat) {
    |p| == |q| && forall t :: u <= t < |p| ==> p[t] == q[t]
  }

  /** Reading from the last bar back, the first difference is in favour of `best`. */
  ghost predicate NeverLower(best: seq<int>, p: seq<int>)
    requires |best| == |p|
  {
    forall t: nat :: t < |p| && AgreeFrom(p, best, t + 1) ==> best[t] <= p[t]
  }

  // ---------------------------------------------------------------- proofs

  lemma {:induction false} AdvanceBounds(d: Decoder, obs: seq<real>, t: nat, prev: seq<real>, row: seq<real>,
                                         back: seq<int>)
    requires t > 0 && Bounds(d, obs, t - 1, prev) && Advances(d, obs, t, prev, row, back)
    ensures Bounds(d, obs, t, row)
  {
    forall p | IsPath(p, t + 1, |row|) ensures d.Score(obs, p) <= row[p[t]] {
      assert IsPath(p[..t], t, |row|);
      assert d.Score(obs, p) <= Via(d, obs, t, prev, p[t - 1], p[t]);
    }
  }

  lemma {:induction false} TableBounds(d: Decoder, obs: seq<real>, delta: seq<seq<real>>, psi: seq<seq<int>>, t: nat)
    requires t < |delta| && Tables(d, obs, delta, psi, |delta|) && FirstRow(d, obs, delta[0])
    ensures Bounds(d, obs, t, delta[t])
  {
    if t > 0 {
      TableBounds(d, obs, delta, psi, t - 1);
      AdvanceBounds(d, obs, t, delta[t - 1], delta[t], psi[t]);
    }
  }

  /** Every prefix of the sequence that follows the pointers scores its table entry. */
  lemma {:induction false} FollowedScores(d: Decoder, obs: seq<real>, delta: seq<seq<real>>, psi: seq<seq<int>>,
                                          states: seq<int>, t: nat)
    requires t < |delta| && Tables(d, obs, delta, psi, |delta|) && FirstRow(d, obs, delta[0])
    requires Follows(d, psi, states, 0) && IsPath(states, |delta|, d.m.K())
    ensures |delta[t]| == d.m.K() && d.Score(obs, states[..t + 1]) == delta[t][states[t]]
  {
    if t > 0 {
      FollowedScores(d, obs, delta, psi, states, t - 1);
      assert states[..t + 1][..t] == states[..t];
      assert states[t - 1] == psi[t][states[t]];
    }
  }

  /** Paths that agree from bar u on gain the same score after bar u. */
  lemma {:induction false} SameTail(d: Decoder, obs: seq<real>, p: seq<int>, q: seq<int>, u: nat)
    requires u < |p| && AgreeFrom(p, q, u)
    ensures d.Score(obs, p) - d.Score(obs, p[..u + 1]) == d.Score(obs, q) - d.Score(obs, q[..u + 1])
  {
    hide Decoder.Score;
    var t := |p| - 1;
    if u == t {
      assert p[..u + 1] == p && q[..u + 1] == q;
    } else {
      assert p[..t][..u + 1] == p[..u + 1] && q[..t][..u + 1] == q[..u + 1];
      SameTail(d, obs, p[..t], q[..t], u);
      SameStep(d, obs, p, q, t);
    }
  }

  lemma {:induction false} SameStep(d: Decoder, obs: seq<real>, p: seq<int>, q: seq<int>, t: nat)
    requires 0 < t == |p| - 1 && AgreeFrom(p, q, t - 1)
    ensures d.Score(obs, p) - d.Score(obs, p[..t]) == d.Score(obs, q) - d.Score(obs, q[..t])
  {
    hide Decoder.LogTrans, Decoder.LogEmit, Decoder.LogInit;
  }

  lemma {:induction false} ScoreStep(d: Decoder, obs: seq<real>, p: seq<int>, t: nat)
    requires t + 1 < |p|
    ensures d.Score(obs, p[..t + 2])
            == d.Score(obs, p[..t + 1]) + d.LogTrans(p[t], p[t + 1]) + d.LogEmit(obs, t + 1, p[t + 1])
  {
    assert p[..t + 2][..t + 1] == p[..t + 1];
  }

  lemma {:induction false} TiesToTheLowest(d: Decoder, obs: seq<real>, delta: seq<seq<real>>, psi: seq<seq<int>>,
                                           best: seq<int>, p: seq<int>, t: nat)
    requires |delta| == |obs| && t + 1 < |obs| && Tables(d, obs, delta, psi, |delta|) && FirstRow(d, obs, delta[0])
    requires Follows(d, psi, best, 0) && IsPath(best, |obs|, d.m.K()) && IsPath(p, |obs|, d.m.K())
    requires d.Score(obs, p) == d.Score(obs, best) && AgreeFrom(p, best, t + 1)
    ensures best[t] <= p[t]
  {
    hide Decoder.Score;
    SameTail(d, obs, p, best, t + 1);
    FollowedScores(d, obs, delta, psi, best, t + 1);
    TableBounds(d, obs, delta, psi, t);
    ScoreStep(d, obs, p, t);
    assert IsPath(p[..t + 1], t + 1, d.m.K());
    assert Advances(d, obs, t + 1, delta[t], delta[t + 1], psi[t + 1]);
    assert d.Score(obs, p[..t + 2]) <= Via(d, obs, t + 1, delta[t], p[t], best[t + 1]);
  }

  /** Following the pointers back from the best last state gives an optimal path. */
  lemma {:induction false} TracedIsOptimal(d: Decoder, obs: seq<real>, delta: seq<seq<real>>, psi: seq<seq<int>>,
                                           best: seq<int>)
    requires |delta| == |obs| > 0 && Tables(d, obs, delta, psi, |delta|) && FirstRow(d, obs, delta[0])
    requires Follows(d, psi, best, 0) && IsPath(best, |obs|, d.m.K())
    requires |delta[|obs| - 1]| == d.m.K()
    requires IsFirstArgmax(delta[|obs| - 1], best[|obs| - 1])
    ensures Optimal(d, obs, best)
  {
    hide Decoder.Score, Tables, Follows, FirstRow, Advances;
    var n := |obs|;
    FollowedScores(d, obs, delta, psi, best, n - 1);
    TableBounds(d, obs, delta, psi, n - 1);
    assert best[..n] == best;
    forall p | IsPath(p, n, d.m.K()) && d.Score(obs, p) == d.Score(obs, best) ensures NeverLower(best, p) {
      forall t: nat | t < n && AgreeFrom(p, best, t + 1) ensures best[t] <= p[t] {
        if t + 1 < n {
          TiesToTheLowest(d, obs, delta, psi, best, p, t);
        }
      }
    }
  }

  /** i is the first position of the largest entry. */
  ghost predicate IsFirstArgmax(row: seq<real>, i: int) {
    0 <= i < |row| && forall l :: 0 <= l < |row| ==> row[l] <= row[i] && (row[l] == row[i] ==> i <= l)
  }

  // ---------------------------------------------------------------- scores and weights

  /** The decoder reads the model faithfully: its log is one, and its log density is the log of
      a positive density. */
  ghost predicate Faithful(d: Decoder) {
    && Logarithm(d.log)
    && forall x, mu, v :: d.m.gauss(x, mu, v) > 0.0 && d.logDensity(x, mu, v) == d.log(d.m.gauss(x, mu, v))
  }

  /** Every factor of the path's weight is positive. */
  ghost predicate Possible(m: Hmm, p: seq<int>) {
    |p| > 0 && m.Init(p[0]) > 0.0 && forall t :: 0 < t < |p| ==> m.Trans(p[t - 1], p[t]) > 0.0
  }

  lemma {:induction false} EmitIsPositive(d: Decoder, obs: seq<real>, t: int, j: int)
    requires Faithful(d)
    ensures d.m.Emit(obs, t, j) > 0.0 && d.LogEmit(obs, t, j) == d.log(d.m.Emit(obs, t, j))
  {
    hide Logarithm;
  }

  /** The score of a possible path is the log of its weight. */
  lemma {:induction false} ScoreIsLogWeight(d: Decoder, obs: seq<real>, p: seq<int>)
    requires Faithful(d) && Possible(d.m, p)
    ensures Weight(d.m, obs, p) > 0.0 && d.Score(obs, p) == d.log(Weight(d.m, obs, p))
  {
    hide Logarithm, Hmm.Emit, Decoder.LogEmit, Hmm.Trans, Hmm.Init, Weight, Decoder.Score;
    var t := |p| - 1;
    EmitIsPositive(d, obs, t, p[t]);
    var e := d.m.Emit(obs, t, p[t]);
    if t == 0 {
      OneStateScore(d, obs, p);
      var x := d.m.Init(p[0]);
      LogProduct(d.log, x, e);
      assert Weight(d.m, obs, p) == x * e;
      assert d.Score(obs, p) == d.log(x) + d.log(e);
    } else {
      ScoreIsLogWeight(d, obs, p[..t]);
      var w, a := Weight(d.m, obs, p[..t]), d.m.Trans(p[t - 1], p[t]);
      LogProduct(d.log, w, a);
      var wa := w * a;
      LogProduct(d.log, wa, e);
      WeightStep(d.m, obs, p);
      ScoreOfLonger(d, obs, p);
      assert Weight(d.m, obs, p) == wa * e;
      assert d.Score(obs, p) == d.log(w) + d.log(a) + d.log(e);
    }
  }

  lemma {:induction false} OneStateScore(d: Decoder, obs: seq<real>, p: seq<int>)
    requires |p| == 1
    ensures Weight(d.m, obs, p) == d.m.Init(p[0]) * d.m.Emit(obs, 0, p[0])
    ensures d.Score(obs, p) == d.SafeLog(d.m.Init(p[0])) + d.LogEmit(obs, 0, p[0])
  {
    hide Hmm.Emit, Decoder.LogEmit, Hmm.Init, Decoder.SafeLog;
  }

  lemma {:induction false} WeightStep(m: Hmm, obs: seq<real>, p: seq<int>)
    requires |p| > 1
    ensures var t := |p| - 1;
            Weight(m, obs, p) == Weight(m, obs, p[..t]) * m.Trans(p[t - 1], p[t]) * m.Emit(obs, t, p[t])
  {
    hide Hmm.Emit, Hmm.Trans, Hmm.Init;
  }

  lemma {:induction false} ScoreOfLonger(d: Decoder, obs: seq<real>, p: seq<int>)
    requires |p| > 1
    ensures var t := |p| - 1;
            d.Score(obs, p) == d.Score(obs, p[..t]) + d.SafeLog(d.m.Trans(p[t - 1], p[t])) + d.LogEmit(obs, t, p[t])
  {
    hide Decoder.LogEmit, Decoder.SafeLog, Decoder.LogInit;
  }

  /** A path that is not possible weighs nothing. */
  lemma {:induction false} ImpossibleWeighsNothing(m: Hmm, obs: seq<real>, p: seq<int>)
    requires m.Nonnegative() && |p| > 0 && !Possible(m, p)
    ensures Weight(m, obs, p) == 0.0
  {
    hide Hmm.Emit, Hmm.Trans, Hmm.Init;
    var t := |p| - 1;
    var e := m.Emit(obs, t, p[t]);
    if t > 0 {
      WeightStep(m, obs, p);
      var w, a := Weight(m, obs, p[..t]), m.Trans(p[t - 1], p[t]);
      if !Possible(m, p[..t]) {
        ImpossibleWeighsNothing(m, obs, p[..t]);
      }
      hide Weight;
      NothingTimes(w, a, e);
    } else {
      assert m.Init(p[0]) == 0.0;
      NothingTimes(1.0, 0.0, e);
    }
  }

  lemma {:induction false} NothingTimes(w: real, a: real, e: real)
    ensures w == 0.0 || a == 0.0 ==> w * a * e == 0.0
    ensures a == 0.0 ==> a * e == 0.0
  {
  }

  /** No sequence of states is more likely, together with the observations, than this one. */
  ghost predicate MostProbable(m: Hmm, obs: seq<real>, best: seq<int>) {
    IsPath(best, |obs|, m.K()) && forall p :: IsPath(p, |obs|, m.K()) ==> Weight(m, obs, p) <= Weight(m, obs, best)
  }

  /** The decoded sequence is the most probable one if and only if it is possible, or no
      sequence is. */
  lemma {:induction false} MostProbableIff(d: Decoder, obs: seq<real>, best: seq<int>)
    requires Faithful(d) && d.m.Nonnegative() && Optimal(d, obs, best)
    ensures MostProbable(d.m, obs, best)
            <==> Possible(d.m, best) || forall p :: IsPath(p, |obs|, d.m.K()) ==> !Possible(d.m, p)
  {
    hide Faithful, Hmm.Nonnegative, Possible, Weight, Decoder.Score, NeverLower;
    WeightOfAny(d, obs, best);
    forall p | IsPath(p, |obs|, d.m.K())
      ensures Weight(d.m, obs, p) >= 0.0 && (Weight(d.m, obs, p) > 0.0 <==> Possible(d.m, p))
      ensures Possible(d.m, best) ==> Weight(d.m, obs, p) <= Weight(d.m, obs, best)
    {
      WeightOfAny(d, obs, p);
      if Possible(d.m, best) && Possible(d.m, p) {
        ScoresCompare(d, obs, p, best);
      }
    }
  }

  lemma {:induction false} WeightOfAny(d: Decoder, obs: seq<real>, p: seq<int>)
    requires Faithful(d) && d.m.Nonnegative() && |p| > 0
    ensures Weight(d.m, obs, p) >= 0.0 && (Weight(d.m, obs, p) > 0.0 <==> Possible(d.m, p))
  {
    hide Faithful, Hmm.Nonnegative, Possible, Weight, Decoder.Score;
    if Possible(d.m, p) {
      ScoreIsLogWeight(d, obs, p);
    } else {
      ImpossibleWeighsNothing(d.m, obs, p);
    }
  }

  lemma {:induction false} ScoresCompare(d: Decoder, obs: seq<real>, p: seq<int>, q: seq<int>)
    requires Faithful(d) && Possible(d.m, p) && Possible(d.m, q)
    ensures d.Score(obs, p) <= d.Score(obs, q) <==> Weight(d.m, obs, p) <= Weight(d.m, obs, q)
  {
    ScoreIsLogWeight(d, obs, p);
    ScoreIsLogWeight(d, obs, q);
    assert Logarithm(d.log);
    hide Faithful, Possible, Weight, Decoder.Score, Logarithm;
    LogGrows(d.log, Weight(d.m, obs, p), Weight(d.m, obs, q));
  }

  /** With probabilities of at most 1 and log densities of at most l, a sequence that is not
      possible scores at most LOG_ZERO and l a bar; so as soon as the log weight of some possible
      one is above that, the decoded one is the most probable. */
  lemma {:induction false} DecodedIsMostProbable(d: Decoder, obs: seq<real>, best: seq<int>, p: seq<int>, l: real)
    requires Faithful(d) && d.m.Nonnegative() && d.m.AtMostOne() && Optimal(d, obs, best) && l >= 0.0
    requires forall t, j :: d.log(d.m.Emit(obs, t, j)) <= l
    requires IsPath(p, |obs|, d.m.K()) && Possible(d.m, p)
    requires d.log(Weight(d.m, obs, p)) > LOG_ZERO + |obs| as real * l
    ensures Possible(d.m, best) && MostProbable(d.m, obs, best)
  {
    hide Faithful, Hmm.Nonnegative, Hmm.AtMostOne, Weight, Decoder.Score, NeverLower, Possible, MostProbable, Hmm.Emit;
    var cap := |obs| as real * l;
    ScoreIsLogWeight(d, obs, p);
    ScoreAtMost(d, obs, best, l);
    MostProbableIff(d, obs, best);
  }

  /** Where every state can come first and follow every other, it always is. */
  lemma {:induction false} PositiveIsMostProbable(d: Decoder, obs: seq<real>, best: seq<int>)
    requires Faithful(d) && d.m.Shaped() && d.m.Positive() && Optimal(d, obs, best)
    ensures MostProbable(d.m, obs, best)
  {
    PositiveIsNonnegative(d.m);
    assert Possible(d.m, best);
    hide Faithful, Hmm.Nonnegative, Hmm.Positive, Possible, MostProbable, Optimal;
    MostProbableIff(d, obs, best);
  }

  lemma {:induction false} PositiveIsNonnegative(m: Hmm)
    requires m.Shaped() && m.Positive()
    ensures m.Nonnegative()
  {
    forall i ensures m.Init(i) >= 0.0 {
      if !(0 <= i < m.K()) {
        assert m.Init(i) == 0.0;
      }
    }
    forall i, j ensures m.Trans(i, j) >= 0.0 {
      if !(0 <= i < m.K() && 0 <= j < m.K()) {
        assert m.Trans(i, j) == 0.0;
      }
    }
  }

  lemma {:induction false} ScoreAtMost(d: Decoder, obs: seq<real>, p: seq<int>, l: real)
    requires Faithful(d) && d.m.Nonnegative() && d.m.AtMostOne() && |p| > 0 && l >= 0.0
    requires forall t, j :: d.log(d.m.Emit(obs, t, j)) <= l
    ensures d.Score(obs, p) <= (if Possible(d.m, p) then 0.0 else LOG_ZERO) + |p| as real * l
  {
    hide Logarithm, Decoder.LogEmit, Hmm.Emit, Hmm.Trans, Hmm.Init, Decoder.Score, Decoder.SafeLog;
    var t := |p| - 1;
    EmitIsPositive(d, obs, t, p[t]);
    if t > 0 {
      ScoreAtMost(d, obs, p[..t], l);
      ScoreOfLonger(d, obs, p);
      SafeLogAtMost(d, d.m.Trans(p[t - 1], p[t]));
      assert |p| as real * l == t as real * l + l;
    } else {
      OneStateScore(d, obs, p);
      SafeLogAtMost(d, d.m.Init(p[0]));
    }
  }

  lemma {:induction false} SafeLogAtMost(d: Decoder, x: real)
    requires Logarithm(d.log) && 0.0 <= x <= 1.0
    ensures d.SafeLog(x) <= 0.0 && (x <= 0.0 ==> d.SafeLog(x) == LOG_ZERO)
  {
    if x > 0.0 {
      LogGrows(d.log, x, 1.0);
    }
  }

  // ---------------------------------------------------------------- the program

  /** One bar of the induction: best predecessor of every state. */
  method AdvanceRow(d: Decoder, obs: seq<real>, t: nat, prev: seq<real>) returns (row: seq<real>, back: seq<int>)
    requires d.m.Shaped() && d.m.K() > 0 && |prev| == d.m.K()
    ensures Advances(d, obs, t, prev, row, back)
  {
    var k := d.m.K();
    row, back := seq(k, _ => 0.0), seq(k, _ => 0);
    for j := 0 to k
      invariant |row| == |back| == k
      invariant forall l :: 0 <= l < j ==>
        && 0 <= back[l] < k
        && row[l] == Via(d, obs, t, prev, back[l], l)
        && forall i :: 0 <= i < k ==>
             Via(d, obs, t, prev, i, l) <= row[l] && (Via(d, obs, t, prev, i, l) == row[l] ==> back[l] <= i)
    {
      var bestI, bestVal := 0, prev[0] + d.LogTrans(0, j);
      for i := 1 to k
        invariant 0 <= bestI < i && bestVal == At(prev, bestI) + d.LogTrans(bestI, j)
        invariant forall l :: 0 <= l < i ==>
          At(prev, l) + d.LogTrans(l, j) <= bestVal && (At(prev, l) + d.LogTrans(l, j) == bestVal ==> bestI <= l)
      {
        var v := prev[i] + d.LogTrans(i, j);
        if v > bestVal {
          bestVal, bestI := v, i;
        }
      }
      forall i | 0 <= i < k
        ensures Via(d, obs, t, prev, i, j) <= bestVal + d.LogEmit(obs, t, j)
        ensures Via(d, obs, t, prev, i, j) == bestVal + d.LogEmit(obs, t, j) ==> bestI <= i
      {
        var v := At(prev, i) + d.LogTrans(i, j);
      }
      row, back := row[j := bestVal + d.LogEmit(obs, t, j)], back[j := bestI];
    }
  }

  /** Decode the best state sequence; an empty series decodes to the empty sequence. */
  method PredictStates(d: Decoder, obs: seq<real>) returns (states: seq<int>)
    requires d.m.Shaped() && d.m.K() > 0
    ensures |obs| == 0 ==> states == []
    ensures |obs| > 0 ==> Optimal(d, obs, states)
    ensures |obs| > 0 && Faithful(d) && d.m.Positive() ==> MostProbable(d.m, obs, states)
  {
    var n, k := |obs|, d.m.K();
    if n == 0 {
      return [];
    }
    var delta: seq<seq<real>> := seq(n, _ => seq(k, _ => 0.0));
    var psi: seq<seq<int>> := seq(n, _ => seq(k, _ => 0));
    var row := delta[0];
    for i := 0 to k
      invariant |row| == k && forall l :: 0 <= l < i ==> row[l] == d.LogInit(l) + d.LogEmit(obs, 0, l)
    {
      row := row[i := d.LogInit(i) + d.LogEmit(obs, 0, i)];
    }
    delta := delta[0 := row];
    for t := 1 to n
      invariant |delta| == |psi| == n && FirstRow(d, obs, delta[0])
      invariant forall u :: 0 <= u < n ==> |delta[u]| == |psi[u]| == k
      invariant Tables(d, obs, delta, psi, t)
    {
      var back;
      row, back := AdvanceRow(d, obs, t, delta[t - 1]);
      delta, psi := delta[t := row], psi[t := back];
    }
    states := Backtrace(d, obs, delta, psi);
    TracedIsOptimal(d, obs, delta, psi, states);
    hide Faithful, Hmm.Positive, MostProbable, Optimal, Tables, FirstRow, Follows;
    if Faithful(d) && d.m.Positive() {
      PositiveIsMostProbable(d, obs, states);
    }
  }

  method Backtrace(d: Decoder, obs: seq<real>, delta: seq<seq<real>>, psi: seq<seq<int>>) returns (states: seq<int>)
    requires d.m.K() > 0 && |delta| > 0 && Tables(d, obs, delta, psi, |delta|)
    requires forall u :: 0 <= u < |delta| ==> |delta[u]| == |psi[u]| == d.m.K()
    ensures IsPath(states, |delta|, d.m.K()) && Follows(d, psi, states, 0)
    ensures IsFirstArgmax(delta[|delta| - 1], states[|delta| - 1])
  {
    var n, k := |delta|, d.m.K();
    states := seq(n, _ => 0);
    var final := delta[n - 1];
    var last, lastVal := 0, final[0];
    for i := 1 to k
      invariant 0 <= last < i && lastVal == final[last]
      invariant forall l :: 0 <= l < i ==> final[l] <= lastVal && (final[l] == lastVal ==> last <= l)
    {
      if final[i] > lastVal {
        lastVal, last := final[i], i;
      }
    }
    states := states[n - 1 := last];
    for t := n - 1 downto 0
      invariant IsPath(states, n, k) && Follows(d, psi, states, t)
      invariant states[n - 1] == last
    {
      assert Advances(d, obs, t + 1, delta[t], delta[t + 1], psi[t + 1]);
      states := states[t := psi[t + 1][states[t + 1]]];
    }
  }
}
