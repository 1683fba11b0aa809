/** Relabelling the states of a fitted model by ascending variance changes no probability:
    the likelihood of every observation series and the best path score stay the same. */
module HmmCanonical {
  import opened Sums
  import opened Sorting
  import opened HmmPaths
  import opened HmmForward
  import opened HmmViterbi

  function Pick(s: seq<real>, p: seq<int>): (r: seq<real>)
    ensures |r| == |p|
  {
    seq(|p|, i requires 0 <= i < |p| => At(s, p[i]))
  }

  /** The model with state i renamed so that new state i is old state p[i]. */
  function Relabel(m: Hmm, p: seq<int>): (r: Hmm)
    ensures |m.means| == |p| ==> r.K() == m.K()
  {
    Hmm(m.gauss, Pick(m.means, p), Pick(m.variances, p), Pick(m.initial, p),
        seq(|p|, i requires 0 <= i < |p| => seq(|p|, j requires 0 <= j < |p| => m.Trans(p[i], p[j]))))
  }

  /** Sort the states by variance; models of fewer than two states are copied as they are. */
  function CanonicalizeStates(m: Hmm): (r: Hmm)
    requires m.Shaped()
    ensures r.Shaped() && r.K() == m.K()
    ensures forall a, b :: 0 <= a < b < m.K() ==> r.variances[a] <= r.variances[b]
  {
    if m.K() <= 1 then m else
    var p := Order(m.variances);
    Relabel(m, p)
  }

  /** The relabelling is by a true permutation: no state is dropped or duplicated. */
  lemma {:induction false} CanonicalIsPermutation(m: Hmm) returns (p: seq<int>)
    requires m.Shaped()
    ensures Permutation(p, m.K()) && CanonicalizeStates(m).variances == Pick(m.variances, p)
    ensures m.K() > 1 ==> CanonicalizeStates(m) == Relabel(m, p)
  {
    hide Order;
    p := if m.K() <= 1 then Range(m.K()) else Order(m.variances);
  }

  /** Read a path of the relabelled model as a path of the original. */
  ghost function Rename(p: seq<int>, q: seq<int>): (r: seq<int>)
    ensures |r| == |q|
  {
    seq(|q|, t requires 0 <= t < |q| => if 0 <= q[t] < |p| then p[q[t]] else 0)
  }

  lemma {:induction false} RelabelReads(m: Hmm, p: seq<int>, obs: seq<real>, t: int, i: int, j: int)
    requires m.Shaped() && Permutation(p, m.K()) && 0 <= i < m.K() && 0 <= j < m.K()
    ensures |p| == m.K() && 0 <= p[i] < m.K() && 0 <= p[j] < m.K()
    ensures Relabel(m, p).Init(i) == m.Init(p[i])
    ensures Relabel(m, p).Trans(i, j) == m.Trans(p[i], p[j])
    ensures Relabel(m, p).Emit(obs, t, i) == m.Emit(obs, t, p[i])
    ensures At(Relabel(m, p).means, i) == At(m.means, p[i])
    ensures At(Relabel(m, p).variances, i) == At(m.variances, p[i])
  {
    PermutationBounds(p, m.K());
  }

  /** One step of the weight recursion, with its factors named. */
  lemma {:induction false} WeightUnfold(m: Hmm, obs: seq<real>, q: seq<int>, w: real, a: real, e: real)
    requires |q| > 1 && w == Weight(m, obs, q[..|q| - 1])
    requires a == m.Trans(q[|q| - 2], q[|q| - 1]) && e == m.Emit(obs, |q| - 1, q[|q| - 1])
    ensures Weight(m, obs, q) == w * a * e
  {
  }

  lemma {:induction false} RelabelWeight(m: Hmm, p: seq<int>, obs: seq<real>, q: seq<int>)
    requires m.Shaped() && Permutation(p, m.K()) && IsPath(q, |q|, m.K())
    ensures Weight(Relabel(m, p), obs, q) == Weight(m, obs, Rename(p, q))
  {
    var r := Rename(p, q);
    hide Permutation, Relabel;
    if |q| <= 1 {
      if |q| == 1 {
        RelabelReads(m, p, obs, 0, q[0], q[0]);
      }
    } else {
      hide Weight;
      var t := |q| - 1;
      RelabelWeight(m, p, obs, q[..t]);
      RelabelReads(m, p, obs, t, q[t - 1], q[t]);
      RelabelReads(m, p, obs, t, q[t], q[t]);
      assert r[..t] == Rename(p, q[..t]);
      hide Rename, Hmm.Trans, Hmm.Emit;
      var w, a, e := Weight(m, obs, r[..t]), m.Trans(r[t - 1], r[t]), m.Emit(obs, t, r[t]);
      WeightUnfold(Relabel(m, p), obs, q, w, a, e);
      WeightUnfold(m, obs, r, w, a, e);
    }
  }

  ghost function Renamed(f: seq<int> -> real, p: seq<int>): seq<int> -> real {
    q => f(Rename(p, q))
  }

  /** A path sum does not notice a renaming of the states. */
  lemma {:induction false} PathSumRenamed(n: nat, k: nat, f: seq<int> -> real, p: seq<int>)
    requires Permutation(p, k)
    ensures PathSum(n, k, Renamed(f, p)) == PathSum(n, k, f)
  {
    PermutationBounds(p, k);
    if n == 0 {
      assert Rename(p, []) == [];
    } else {
      hide PathSum;
      var share := ByLastState(n, k, f);
      var shareR := ByLastState(n, k, Renamed(f, p));
      forall i | 0 <= i < k ensures shareR(i) == Through(share, p)(i) {
        forall q | IsPath(q, n - 1, k) ensures EndingIn(Renamed(f, p), i)(q) == Renamed(EndingIn(f, p[i]), p)(q) {
          assert Rename(p, q + [i]) == Rename(p, q) + [p[i]];
        }
        PathSumCong(n - 1, k, EndingIn(Renamed(f, p), i), Renamed(EndingIn(f, p[i]), p));
        PathSumRenamed(n - 1, k, EndingIn(f, p[i]), p);
      }
      SumCong(k, shareR, Through(share, p));
      SumOverPermutation(k, share, p);
    }
  }

  /** Relabelling leaves the likelihood of every observation series unchanged. */
  lemma {:induction false} LikelihoodInvariant(m: Hmm, obs: seq<real>, t: nat)
    requires m.Shaped()
    ensures Likelihood(CanonicalizeStates(m), obs, t) == Likelihood(m, obs, t)
  {
    if m.K() > 1 {
      var p := Order(m.variances);
      var r := Relabel(m, p);
      hide PathSum, Weight, Order, Relabel;
      PermutationBounds(p, m.K());
      forall q | IsPath(q, t + 1, m.K()) ensures WeightOf(r, obs)(q) == Renamed(WeightOf(m, obs), p)(q) {
        RelabelWeight(m, p, obs, q);
      }
      PathSumCong(t + 1, m.K(), WeightOf(r, obs), Renamed(WeightOf(m, obs), p));
      PathSumRenamed(t + 1, m.K(), WeightOf(m, obs), p);
    }
  }

  lemma {:induction false} RelabelScore(d: Decoder, p: seq<int>, obs: seq<real>, q: seq<int>)
    requires d.m.Shaped() && Permutation(p, d.m.K()) && |q| > 0 && IsPath(q, |q|, d.m.K())
    ensures d.(m := Relabel(d.m, p)).Score(obs, q) == d.Score(obs, Rename(p, q))
  {
    var r, t := Rename(p, q), |q| - 1;
    hide Permutation, Relabel;
    RelabelReads(d.m, p, obs, t, q[t], q[t]);
    if t > 0 {
      RelabelScore(d, p, obs, q[..t]);
      RelabelReads(d.m, p, obs, t, q[t - 1], q[t]);
      assert r[..t] == Rename(p, q[..t]);
    }
  }

  /** Every path of the original is the renaming of some path of the relabelled model. */
  lemma {:induction false} Unrename(p: seq<int>, k: nat, q: seq<int>) returns (o: seq<int>)
    requires Permutation(p, k) && IsPath(q, |q|, k)
    ensures IsPath(o, |q|, k) && Rename(p, o) == q
  {
    PermutationBounds(p, k);
    if |q| == 0 {
      o := [];
    } else {
      var t := |q| - 1;
      var front := Unrename(p, k, q[..t]);
      assert Range(k)[q[t]] in multiset(p);
      var i :| 0 <= i < k && p[i] == q[t];
      o := front + [i];
      assert Rename(p, o) == Rename(p, front) + [p[i]];
    }
  }

  lemma {:induction false} OptimalOutscores(d: Decoder, obs: seq<real>, best: seq<int>, p: seq<int>)
    requires Optimal(d, obs, best)
    ensures |obs| > 0 && |best| == |obs| && IsPath(best, |obs|, d.m.K())
    ensures IsPath(p, |obs|, d.m.K()) ==> d.Score(obs, p) <= d.Score(obs, best)
  {
    hide Decoder.Score, NeverLower;
  }

  /** An optimal decoding of the relabelled model, renamed, scores as much as an optimal
      decoding of the original. */
  lemma {:induction false} BestScoreInvariant(d: Decoder, obs: seq<real>, best: seq<int>, relabelled: seq<int>)
    requires d.m.Shaped() && d.m.K() > 0
    requires Optimal(d, obs, best)
    requires Optimal(d.(m := CanonicalizeStates(d.m)), obs, relabelled)
    ensures d.(m := CanonicalizeStates(d.m)).Score(obs, relabelled) == d.Score(obs, best)
  {
    if d.m.K() > 1 {
      hide Optimal, IsPath, Decoder.Score, Relabel, Permutation;
      var p := Order(d.m.variances);
      var c := d.(m := CanonicalizeStates(d.m));
      RelabelSize(d.m, p);
      OptimalOutscores(d, obs, best, Rename(p, relabelled));
      var o := Unrename(p, d.m.K(), best);
      OptimalOutscores(c, obs, relabelled, o);
      RelabelScore(d, p, obs, relabelled);
      RelabelScore(d, p, obs, o);
      RenameIsPath(p, d.m.K(), relabelled);
    }
  }

  lemma {:induction false} RelabelSize(m: Hmm, p: seq<int>)
    requires m.Shaped() && Permutation(p, m.K())
    ensures Relabel(m, p).K() == m.K()
  {
    PermutationBounds(p, m.K());
  }

  lemma {:induction false} RenameIsPath(p: seq<int>, k: nat, q: seq<int>)
    requires Permutation(p, k) && IsPath(q, |q|, k)
    ensures IsPath(Rename(p, q), |q|, k)
  {
    PermutationBounds(p, k);
  }
}
