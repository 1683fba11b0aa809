/** The reference side of the hidden Markov model: state paths, their weights, and sums
    over all of them.  Nothing here is how the program computes; it is what its tables
    are supposed to mean. */
module HmmPaths {
  import opened Sums

  /** An emission density: (observation, mean, variance) to density. */
  type Density = (real, real, real) -> real

  /** The fitted parameters together with the emission density they are read through. */
  datatype Hmm = Hmm(gauss: Density, means: seq<real>, variances: seq<real>,
                     initial: seq<real>, trans: seq<seq<real>>)
  {
    function K(): nat { |means| }

    function Init(i: int): real { At(initial, i) }

    function Trans(i: int, j: int): real {
      if 0 <= i < |trans| then At(trans[i], j) else 0.0
    }

    /** The density of observation number t in state j. */
    function Emit(obs: seq<real>, t: int, j: int): real {
      gauss(At(obs, t), At(means, j), At(variances, j))
    }

    /** One row and one column for each state. */
    predicate Shaped() {
      && |variances| == |initial| == |trans| == K()
      && forall i :: 0 <= i < K() ==> |trans[i]| == K()
    }

    /** The initial row and every transition row are distributions. */
    ghost predicate Stochastic() {
      && Distribution(initial)
      && forall i :: 0 <= i < |trans| ==> Distribution(trans[i])
    }

    ghost predicate Nonnegative() {
      (forall i :: Init(i) >= 0.0) && forall i, j :: Trans(i, j) >= 0.0
    }

    /** Every state can come first and follow every other. */
    ghost predicate Positive() {
      && (forall i :: 0 <= i < K() ==> Init(i) > 0.0)
      && forall i, j :: 0 <= i < K() && 0 <= j < K() ==> Trans(i, j) > 0.0
    }

    ghost predicate AtMostOne() {
      (forall i :: Init(i) <= 1.0) && forall i, j :: Trans(i, j) <= 1.0
    }

    ghost predicate PositiveDensity() {
      forall x, mu, v :: gauss(x, mu, v) > 0.0
    }
  }

  ghost predicate Distribution(s: seq<real>) {
    && (forall i :: 0 <= i < |s| ==> s[i] >= 0.0)
    && Total(s) == 1.0
  }

  /** p is a sequence of n states, each below k. */
  predicate IsPath(p: seq<int>, n: nat, k: nat) {
    |p| == n && forall t :: 0 <= t < n ==> 0 <= p[t] < k
  }

  /** The joint weight of a path and the first |p| observations. */
  ghost function Weight(m: Hmm, obs: seq<real>, p: seq<int>): real {
    if |p| == 0 then 1.0
    else
      var t := |p| - 1;
      if t == 0 then m.Init(p[0]) * m.Emit(obs, 0, p[0])
      else Weight(m, obs, p[..t]) * m.Trans(p[t - 1], p[t]) * m.Emit(obs, t, p[t])
  }

  /** f, read on paths whose last state is i. */
  ghost function EndingIn(f: seq<int> -> real, i: int): seq<int> -> real {
    q => f(q + [i])
  }

  /** The sum of f over every path of n states below k, as n nested sums. */
  ghost function PathSum(n: nat, k: nat, f: seq<int> -> real): real {
    if n == 0 then f([]) else Sum(k, i => PathSum(n - 1, k, EndingIn(f, i)))
  }

  lemma {:induction false} PathSumCong(n: nat, k: nat, f: seq<int> -> real, g: seq<int> -> real)
    requires forall p :: IsPath(p, n, k) ==> f(p) == g(p)
    ensures PathSum(n, k, f) == PathSum(n, k, g)
  {
    if n == 0 {
      assert IsPath([], 0, k);
    } else {
      forall i | 0 <= i < k ensures PathSum(n - 1, k, EndingIn(f, i)) == PathSum(n - 1, k, EndingIn(g, i)) {
        forall q | IsPath(q, n - 1, k) ensures EndingIn(f, i)(q) == EndingIn(g, i)(q) {
          assert IsPath(q + [i], n, k);
        }
        PathSumCong(n - 1, k, EndingIn(f, i), EndingIn(g, i));
      }
      SumCong(k, i => PathSum(n - 1, k, EndingIn(f, i)), i => PathSum(n - 1, k, EndingIn(g, i)));
    }
  }

  /** The share of a path sum carried by the paths whose last state is i. */
  ghost function ByLastState(n: nat, k: nat, f: seq<int> -> real): (share: int -> real)
    requires n > 0
    ensures PathSum(n, k, f) == Sum(k, share)
    ensures forall i :: share(i) == PathSum(n - 1, k, EndingIn(f, i))
  {
    i => PathSum(n - 1, k, EndingIn(f, i))
  }

  lemma {:induction false} EndingInFactors(n: nat, k: nat, c: real, f: seq<int> -> real, cf: seq<int> -> real, i: int)
    requires n > 0 && 0 <= i < k
    requires forall p :: IsPath(p, n, k) ==> cf(p) == c * f(p)
    ensures forall q :: IsPath(q, n - 1, k) ==> EndingIn(cf, i)(q) == c * EndingIn(f, i)(q)
  {
    forall q | IsPath(q, n - 1, k) ensures EndingIn(cf, i)(q) == c * EndingIn(f, i)(q) {
      assert IsPath(q + [i], n, k);
    }
  }

  lemma {:induction false} BaseFactor(k: nat, c: real, f: seq<int> -> real, cf: seq<int> -> real)
    requires forall p :: IsPath(p, 0, k) ==> cf(p) == c * f(p)
    ensures PathSum(0, k, cf) == c * PathSum(0, k, f)
  {
    assert IsPath([], 0, k);
  }

  /** A constant factor comes out of a path sum. */
  lemma {:induction false} PathSumFactors(n: nat, k: nat, c: real, f: seq<int> -> real, cf: seq<int> -> real)
    requires forall p :: IsPath(p, n, k) ==> cf(p) == c * f(p)
    ensures PathSum(n, k, cf) == c * PathSum(n, k, f)
  {
    hide PathSum, EndingIn, Sum, IsPath;
    if n == 0 {
      BaseFactor(k, c, f, cf);
    } else {
      var inner, scaled := ByLastState(n, k, f), ByLastState(n, k, cf);
      forall i | 0 <= i < k ensures scaled(i) == c * inner(i) {
        EndingInFactors(n, k, c, f, cf, i);
        PathSumFactors(n - 1, k, c, EndingIn(f, i), EndingIn(cf, i));
      }
      SumFactor(k, c, inner, scaled);
      assert Sum(k, scaled) == c * Sum(k, inner);
    }
  }

  /** A sum over one more state may be taken inside a sum over paths. */
  lemma {:induction false} SumPathSwap(n: nat, k: nat, l: nat, f: int -> seq<int> -> real, total: seq<int> -> real)
    requires forall p :: IsPath(p, n, k) ==> total(p) == Sum(l, j => f(j)(p))
    ensures Sum(l, j => PathSum(n, k, f(j))) == PathSum(n, k, total)
  {
    if n == 0 {
      assert IsPath([], 0, k);
      forall j ensures PathSum(0, k, f(j)) == f(j)([]) {
      }
      SumCong(l, j => PathSum(n, k, f(j)), j => f(j)([]));
    } else {
      var g := (j, i) => PathSum(n - 1, k, EndingIn(f(j), i));
      forall j ensures PathSum(n, k, f(j)) == Sum(k, i => g(j, i)) {
        SumCong(k, i => PathSum(n - 1, k, EndingIn(f(j), i)), i => g(j, i));
      }
      SumCong(l, j => PathSum(n, k, f(j)), j => Sum(k, i => g(j, i)));
      SumSwap(l, k, g);
      forall i | 0 <= i < k ensures Sum(l, j => g(j, i)) == PathSum(n - 1, k, EndingIn(total, i)) {
        var fi := j => EndingIn(f(j), i);
        forall p | IsPath(p, n - 1, k) ensures EndingIn(total, i)(p) == Sum(l, j => fi(j)(p)) {
          assert IsPath(p + [i], n, k);
          forall j ensures f(j)(p + [i]) == fi(j)(p) {
            assert fi(j) == EndingIn(f(j), i);
          }
          SumCong(l, j => f(j)(p + [i]), j => fi(j)(p));
        }
        SumPathSwap(n - 1, k, l, fi, EndingIn(total, i));
        SumCong(l, j => g(j, i), j => PathSum(n - 1, k, fi(j)));
      }
      SumCong(k, i => Sum(l, j => g(j, i)), i => PathSum(n - 1, k, EndingIn(total, i)));
    }
  }

  lemma {:induction false} PathSumZero(n: nat, k: nat, f: seq<int> -> real)
    requires forall p :: IsPath(p, n, k) ==> f(p) == 0.0
    ensures PathSum(n, k, f) == 0.0
  {
    PathSumFactors(n, k, 0.0, f, f);
  }

  /** Only the paths ending in j count when f vanishes on all the others. */
  lemma {:induction false} PathSumLast(n: nat, k: nat, f: seq<int> -> real, j: int)
    requires n > 0 && 0 <= j < k
    requires forall p :: IsPath(p, n, k) && p[n - 1] != j ==> f(p) == 0.0
    ensures PathSum(n, k, f) == PathSum(n - 1, k, EndingIn(f, j))
  {
    hide PathSum;
    var share := ByLastState(n, k, f);
    forall i | 0 <= i < k && i != j ensures share(i) == 0.0 {
      forall q | IsPath(q, n - 1, k) ensures EndingIn(f, i)(q) == 0.0 {
        assert IsPath(q + [i], n, k);
      }
      PathSumZero(n - 1, k, EndingIn(f, i));
    }
    SumSingle(k, share, j);
  }
}
