/** The library's stable sort by a numeric key, as a permutation of positions, and the
    invariance of sums under permutations. */
module Sorting {
  import opened Sums

  function Range(k: nat): (r: seq<int>)
    ensures |r| == k && forall i :: 0 <= i < k ==> r[i] == i
  {
    seq(k, i => i)
  }

  /** p lists each of 0, ..., k-1 exactly once. */
  ghost predicate Permutation(p: seq<int>, k: nat) {
    multiset(p) == multiset(Range(k))
  }

  /** Keys ascend along r, and equal keys keep their original order. */
  ghost predicate Ascending(keys: seq<real>, r: seq<int>) {
    && (forall a :: 0 <= a < |r| ==> 0 <= r[a] < |keys|)
    && forall a, b :: 0 <= a < b < |r| ==> keys[r[a]] < keys[r[b]] || (keys[r[a]] == keys[r[b]] && r[a] < r[b])
  }

  /** Where x goes: after every position of r whose key is no larger. */
  function Slot(keys: seq<real>, r: seq<int>, x: int): (at: nat)
    requires 0 <= x < |keys| && forall a :: 0 <= a < |r| ==> 0 <= r[a] < |keys|
    ensures at <= |r|
    ensures at > 0 ==> keys[r[at - 1]] <= keys[x]
    ensures forall a :: at <= a < |r| ==> keys[x] < keys[r[a]]
  {
    if |r| == 0 || keys[r[|r| - 1]] <= keys[x] then |r| else Slot(keys, r[..|r| - 1], x)
  }

  function Insert(keys: seq<real>, r: seq<int>, x: int): (out: seq<int>)
    requires 0 <= x < |keys| && Ascending(keys, r)
    requires forall a :: 0 <= a < |r| ==> r[a] < x
    ensures multiset(out) == multiset(r) + multiset{x}
    ensures |out| == |r| + 1
    ensures Ascending(keys, out)
  {
    var at := Slot(keys, r, x);
    var out := r[..at] + [x] + r[at..];
    InsertKeepsElements(r, x, at, out);
    InsertKeepsOrder(keys, r, x, at, out);
    out
  }

  lemma {:induction false} InsertKeepsElements(r: seq<int>, x: int, at: nat, out: seq<int>)
    requires at <= |r| && out == r[..at] + [x] + r[at..]
    ensures multiset(out) == multiset(r) + multiset{x} && |out| == |r| + 1
  {
    assert r == r[..at] + r[at..];
  }

  lemma {:induction false} InsertKeepsOrder(keys: seq<real>, r: seq<int>, x: int, at: nat, out: seq<int>)
    requires 0 <= x < |keys| && Ascending(keys, r) && at <= |r|
    requires forall a :: 0 <= a < |r| ==> r[a] < x
    requires at > 0 ==> keys[r[at - 1]] <= keys[x]
    requires forall a :: at <= a < |r| ==> keys[x] < keys[r[a]]
    requires out == r[..at] + [x] + r[at..]
    ensures Ascending(keys, out)
  {
    var before := (a: int, b: int) => 0 <= a < |keys| && 0 <= b < |keys|
        && (keys[a] < keys[b] || (keys[a] == keys[b] && a < b));
    forall a | 0 <= a < at ensures before(r[a], x) {
      assert before(r[a], r[at - 1]) || a == at - 1;
    }
    forall a, b | 0 <= a < b < |out| ensures before(out[a], out[b]) {
      assert out[a] == if a < at then r[a] else if a == at then x else r[a - 1];
      assert out[b] == if b < at then r[b] else if b == at then x else r[b - 1];
    }
  }

  /** Positions of keys in ascending order, ties in original order. */
  function Order(keys: seq<real>): (r: seq<int>)
    ensures Permutation(r, |keys|) && |r| == |keys|
    ensures Ascending(keys, r)
  {
    if |keys| == 0 then []
    else
      var n := |keys| - 1;
      var front := Order(keys[..n]);
      FrontFits(keys, n, front);
      RangeGrows(n);
      Insert(keys, front, n)
  }

  lemma {:induction false} FrontFits(keys: seq<real>, n: nat, front: seq<int>)
    requires n <= |keys| && Permutation(front, n) && Ascending(keys[..n], front)
    ensures |front| == n && Ascending(keys, front) && forall a :: 0 <= a < |front| ==> front[a] < n
  {
    PermutationBounds(front, n);
    PrefixAscending(keys, n, front);
  }

  lemma {:induction false} RangeGrows(n: nat)
    ensures multiset(Range(n + 1)) == multiset(Range(n)) + multiset{n}
  {
    assert Range(n + 1) == Range(n) + [n];
  }

  lemma {:induction false} PrefixAscending(keys: seq<real>, n: nat, r: seq<int>)
    requires n <= |keys| && Ascending(keys[..n], r)
    ensures Ascending(keys, r)
  {
    assert forall a :: 0 <= a < |r| ==> keys[..n][r[a]] == keys[r[a]];
  }

  function Sorted(s: seq<real>): (r: seq<real>)
    ensures |r| == |s|
    ensures forall a, b :: 0 <= a < b < |r| ==> r[a] <= r[b]
    ensures forall a :: 0 <= a < |r| ==> r[a] in s
  {
    var p := Order(s);
    seq(|s|, a requires 0 <= a < |s| => s[p[a]])
  }

  lemma {:induction false} PermutationBounds(p: seq<int>, k: nat)
    requires Permutation(p, k)
    ensures |p| == k && forall a :: 0 <= a < |p| ==> 0 <= p[a] < k
  {
    assert |p| == |multiset(p)| == |multiset(Range(k))| == k;
    forall a | 0 <= a < |p| ensures 0 <= p[a] < k {
      assert p[a] in multiset(p);
      assert p[a] in Range(k);
    }
  }

  // ---------------------------------------------------------------- permuted sums

  ghost function Through<T>(f: T -> real, p: seq<T>): int -> real {
    a => if 0 <= a < |p| then f(p[a]) else 0.0
  }

  lemma {:induction false} SumSplit(n: nat, f: int -> real, at: nat, g: int -> real)
    requires at < n
    requires forall a :: 0 <= a < at ==> g(a) == f(a)
    requires forall a :: at <= a < n - 1 ==> g(a) == f(a + 1)
    ensures Sum(n, f) == Sum(n - 1, g) + f(at)
  {
    if at == n - 1 {
      SumCong(n - 1, f, g);
    } else {
      SumSplit(n - 1, f, at, g);
    }
  }

  lemma {:induction false} RemoveAt<T>(q: seq<T>, at: nat, rest: seq<T>)
    requires at < |q| && rest == q[..at] + q[at + 1..]
    ensures multiset(rest) == multiset(q) - multiset{q[at]}
    ensures |rest| == |q| - 1
  {
    assert q == q[..at] + [q[at]] + q[at + 1..];
  }

  /** Rearranging the arguments leaves a sum unchanged. */
  lemma {:induction false} SumPermuted<T>(f: T -> real, p: seq<T>, q: seq<T>)
    requires multiset(p) == multiset(q)
    ensures Sum(|p|, Through(f, p)) == Sum(|q|, Through(f, q))
  {
    assert |p| == |multiset(p)| == |multiset(q)| == |q|;
    if |p| > 0 {
      var n := |p| - 1;
      assert p[n] in multiset(q);
      var at :| 0 <= at < |q| && q[at] == p[n];
      var p', q' := p[..n] + p[n + 1..], q[..at] + q[at + 1..];
      RemoveAt(p, n, p');
      RemoveAt(q, at, q');
      SumPermuted(f, p', q');
      SplitAt(f, p, n, p');
      SplitAt(f, q, at, q');
    }
  }

  lemma {:induction false} SplitAt<T>(f: T -> real, q: seq<T>, at: nat, rest: seq<T>)
    requires at < |q| && rest == q[..at] + q[at + 1..]
    ensures Sum(|q|, Through(f, q)) == Sum(|rest|, Through(f, rest)) + f(q[at])
  {
    SumSplit(|q|, Through(f, q), at, Through(f, rest));
  }

  lemma {:induction false} SumOverPermutation(k: nat, f: int -> real, p: seq<int>)
    requires Permutation(p, k)
    ensures Sum(k, Through(f, p)) == Sum(k, f)
  {
    PermutationBounds(p, k);
    SumPermuted(f, p, Range(k));
    SumCong(k, Through(f, Range(k)), f);
  }
}
