/** The nested path sum really ranges over every state path, once each. */
module HmmAllPaths {
  import opened Sums
  import opened Sorting
  import opened HmmPaths

  ghost predicate NoDuplicates<T>(s: seq<T>) {
    forall a, b :: 0 <= a < b < |s| ==> s[a] != s[b]
  }

  /** The sum of f over a list of paths. */
  ghost function ListSum(ps: seq<seq<int>>, f: seq<int> -> real): real {
    Sum(|ps|, Through(f, ps))
  }

  /** Every listed path, extended by state i. */
  ghost function Extend(ps: seq<seq<int>>, i: int): (r: seq<seq<int>>)
    ensures |r| == |ps| && forall a :: 0 <= a < |r| ==> r[a] == ps[a] + [i]
  {
    seq(|ps|, a requires 0 <= a < |ps| => ps[a] + [i])
  }

  ghost function ExtendBelow(ps: seq<seq<int>>, l: nat): seq<seq<int>> {
    if l == 0 then [] else ExtendBelow(ps, l - 1) + Extend(ps, l - 1)
  }

  /** All paths of n states below k, listed by last state. */
  ghost function AllPaths(n: nat, k: nat): seq<seq<int>> {
    if n == 0 then [[]] else ExtendBelow(AllPaths(n - 1, k), k)
  }

  ghost predicate EndsIn(ps: seq<seq<int>>, n: nat, i: int, p: seq<int>) {
    |p| == n + 1 && p[..n] in ps && p[n] == i
  }

  lemma {:induction false} ExtendMember(ps: seq<seq<int>>, n: nat, i: int, p: seq<int>)
    requires forall q :: q in ps ==> |q| == n
    ensures p in Extend(ps, i) <==> EndsIn(ps, n, i, p)
  {
    var b := Extend(ps, i);
    if p in b {
      var x :| 0 <= x < |b| && b[x] == p;
      assert ps[x] in ps && p[..n] == ps[x];
    }
    if EndsIn(ps, n, i, p) {
      var x :| 0 <= x < |ps| && ps[x] == p[..n];
      assert b[x] == p[..n] + [i] == p;
    }
  }

  lemma {:induction false} ExtendDistinct(ps: seq<seq<int>>, n: nat, i: int)
    requires NoDuplicates(ps) && forall q :: q in ps ==> |q| == n
    ensures NoDuplicates(Extend(ps, i))
  {
    var b := Extend(ps, i);
    forall x, y | 0 <= x < y < |b| ensures b[x] != b[y] {
      assert ps[x] in ps && ps[y] in ps;
      assert b[x][..n] == ps[x] && b[y][..n] == ps[y];
    }
  }

  lemma {:induction false} AppendDistinct(a: seq<seq<int>>, b: seq<seq<int>>)
    requires NoDuplicates(a) && NoDuplicates(b) && forall p :: p in a ==> p !in b
    ensures NoDuplicates(a + b)
  {
    forall x, y | 0 <= x < y < |a + b| ensures (a + b)[x] != (a + b)[y] {
      if x < |a| <= y {
        assert a[x] in a && b[y - |a|] in b;
      }
    }
  }

  lemma {:induction false} ExtendBelowExact(ps: seq<seq<int>>, n: nat, l: nat)
    requires NoDuplicates(ps) && forall p :: p in ps ==> |p| == n
    ensures NoDuplicates(ExtendBelow(ps, l))
    ensures forall p :: p in ExtendBelow(ps, l) <==> EndsBelow(ps, n, l, p)
  {
    hide Extend, NoDuplicates, EndsIn;
    if l > 0 {
      ExtendBelowExact(ps, n, l - 1);
      var a, b := ExtendBelow(ps, l - 1), Extend(ps, l - 1);
      assert ExtendBelow(ps, l) == a + b;
      ExtendDistinct(ps, n, l - 1);
      hide ExtendBelow, EndsBelow;
      forall p ensures p in b <==> EndsIn(ps, n, l - 1, p) {
        ExtendMember(ps, n, l - 1, p);
      }
      forall p ensures p in a + b <==> EndsBelow(ps, n, l, p)
               ensures p in a ==> p !in b {
        EndsBelowStep(ps, n, l, p);
      }
      AppendDistinct(a, b);
    } else {
      NoneIsDistinct(ExtendBelow(ps, l));
    }
  }

  lemma {:induction false} NoneIsDistinct(none: seq<seq<int>>)
    requires none == []
    ensures NoDuplicates(none)
  {
  }

  ghost predicate EndsBelow(ps: seq<seq<int>>, n: nat, l: nat, p: seq<int>) {
    |p| == n + 1 && 0 <= p[n] < l && p[..n] in ps
  }

  lemma {:induction false} EndsBelowStep(ps: seq<seq<int>>, n: nat, l: nat, p: seq<int>)
    requires l > 0
    ensures EndsBelow(ps, n, l, p) <==> EndsBelow(ps, n, l - 1, p) || EndsIn(ps, n, l - 1, p)
    ensures !(EndsBelow(ps, n, l - 1, p) && EndsIn(ps, n, l - 1, p))
  {
  }

  /** The list holds every path of n states below k, each exactly once. */
  lemma {:induction false} AllPathsExact(n: nat, k: nat)
    ensures NoDuplicates(AllPaths(n, k))
    ensures forall p :: p in AllPaths(n, k) <==> IsPath(p, n, k)
  {
    if n > 0 {
      AllPathsExact(n - 1, k);
      OneStateLonger(AllPaths(n - 1, k), n, k);
    }
  }

  lemma {:induction false} OneStateLonger(ps: seq<seq<int>>, n: nat, k: nat)
    requires n > 0 && NoDuplicates(ps) && forall p :: p in ps <==> IsPath(p, n - 1, k)
    ensures NoDuplicates(ExtendBelow(ps, k))
    ensures forall p :: p in ExtendBelow(ps, k) <==> IsPath(p, n, k)
  {
    hide NoDuplicates, ExtendBelow, IsPath, EndsBelow;
    forall p | p in ps ensures |p| == n - 1 {
      PathLength(p, n - 1, k);
    }
    ExtendBelowExact(ps, n - 1, k);
    forall p ensures p in ExtendBelow(ps, k) <==> IsPath(p, n, k) {
      PathSplit(ps, p, n, k);
    }
  }

  lemma {:induction false} PathLength(p: seq<int>, n: nat, k: nat)
    requires IsPath(p, n, k)
    ensures |p| == n
  {
  }

  lemma {:induction false} PathSplit(ps: seq<seq<int>>, p: seq<int>, n: nat, k: nat)
    requires n > 0 && forall q :: q in ps <==> IsPath(q, n - 1, k)
    ensures IsPath(p, n, k) <==> EndsBelow(ps, n - 1, k, p)
  {
    if |p| == n {
      var q := p[..n - 1];
      assert forall t :: 0 <= t < n - 1 ==> q[t] == p[t];
      assert q in ps <==> IsPath(q, n - 1, k);
    }
  }

  lemma {:induction false} ListSumAppend(a: seq<seq<int>>, b: seq<seq<int>>, f: seq<int> -> real)
    ensures ListSum(a + b, f) == ListSum(a, f) + ListSum(b, f)
  {
    if |b| == 0 {
      assert a + b == a;
    } else {
      var n := |b| - 1;
      ListSumAppend(a, b[..n], f);
      SumCong(|a| + n, Through(f, a + b), Through(f, a + b[..n]));
      SumCong(n, Through(f, b), Through(f, b[..n]));
    }
  }

  lemma {:induction false} ExtendBelowSum(ps: seq<seq<int>>, l: nat, f: seq<int> -> real)
    ensures ListSum(ExtendBelow(ps, l), f) == Sum(l, i => ListSum(ps, EndingIn(f, i)))
  {
    if l > 0 {
      ExtendBelowSum(ps, l - 1, f);
      ListSumAppend(ExtendBelow(ps, l - 1), Extend(ps, l - 1), f);
      SumCong(|ps|, Through(f, Extend(ps, l - 1)), Through(EndingIn(f, l - 1), ps));
    }
  }

  /** The nested path sum is the sum over that list. */
  lemma {:induction false} PathSumOfAllPaths(n: nat, k: nat, f: seq<int> -> real)
    ensures PathSum(n, k, f) == ListSum(AllPaths(n, k), f)
  {
    if n > 0 {
      forall i ensures PathSum(n - 1, k, EndingIn(f, i)) == ListSum(AllPaths(n - 1, k), EndingIn(f, i)) {
        PathSumOfAllPaths(n - 1, k, EndingIn(f, i));
      }
      ExtendBelowSum(AllPaths(n - 1, k), k, f);
      SumCong(k, i => PathSum(n - 1, k, EndingIn(f, i)), i => ListSum(AllPaths(n - 1, k), EndingIn(f, i)));
    } else {
      SumSingle(1, Through(f, [[]]), 0);
    }
  }

  lemma {:induction false} SameElements(p: seq<seq<int>>, q: seq<seq<int>>)
    requires NoDuplicates(p) && NoDuplicates(q) && forall x :: x in p <==> x in q
    ensures multiset(p) == multiset(q)
  {
    var a, b := multiset(p), multiset(q);
    forall x ensures a[x] == b[x] {
      CountOnce(p, x);
      CountOnce(q, x);
      assert x in p <==> x in q;
    }
    assert a == b;
  }

  lemma {:induction false} CountOnce(p: seq<seq<int>>, x: seq<int>)
    requires NoDuplicates(p)
    ensures multiset(p)[x] == if x in p then 1 else 0
  {
    if |p| > 0 {
      var n := |p| - 1;
      CountOnce(p[..n], x);
      assert p == p[..n] + [p[n]];
      assert forall a :: 0 <= a < n ==> p[..n][a] == p[a];
    }
  }

  /** However the paths of n states below k are listed, if each is listed once then the
      nested path sum is the sum over the list. */
  lemma {:induction false} PathSumIsSumOverAnyListing(n: nat, k: nat, f: seq<int> -> real, ps: seq<seq<int>>)
    requires NoDuplicates(ps) && forall p :: p in ps <==> IsPath(p, n, k)
    ensures PathSum(n, k, f) == ListSum(ps, f)
  {
    AllPathsExact(n, k);
    PathSumOfAllPaths(n, k, f);
    SameElements(ps, AllPaths(n, k));
    SumPermuted(f, ps, AllPaths(n, k));
  }
}
