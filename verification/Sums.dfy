/** Finite sums of reals: the arithmetic under every probability, notional and
    profit total in the project. */
module Sums {

  /** f(0) + f(1) + ... + f(n-1), added left to right. */
  ghost function Sum(n: nat, f: int -> real): real {
    if n == 0 then 0.0 else Sum(n - 1, f) + f(n - 1)
  }

  /** A total reading of a list of numbers: zero off either end. */
  function At(s: seq<real>, i: int): real {
    if 0 <= i < |s| then s[i] else 0.0
  }

  ghost function Reading(s: seq<real>): int -> real {
    i => At(s, i)
  }

  /** The sum of a list, left to right. */
  function Total(s: seq<real>): real {
    if |s| == 0 then 0.0 else Total(s[..|s| - 1]) + s[|s| - 1]
  }

  function Negated(xs: seq<real>): (r: seq<real>)
    ensures |r| == |xs| && forall i :: 0 <= i < |xs| ==> r[i] == -xs[i]
  {
    seq(|xs|, i requires 0 <= i < |xs| => -xs[i])
  }

  lemma {:induction false} NegatedTotal(xs: seq<real>)
    ensures Total(Negated(xs)) == -Total(xs)
  {
    if |xs| > 0 {
      assert Negated(xs)[..|xs| - 1] == Negated(xs[..|xs| - 1]);
      NegatedTotal(xs[..|xs| - 1]);
    }
  }

  lemma {:induction false} TotalPrefix(s: seq<real>, i: nat)
    requires i < |s|
    ensures Total(s[..i + 1]) == Total(s[..i]) + s[i]
  {
    assert s[..i + 1][..i] == s[..i];
  }

  lemma {:induction false} TotalIsSum(s: seq<real>)
    ensures Total(s) == Sum(|s|, Reading(s))
  {
    if |s| > 0 {
      var r := s[..|s| - 1];
      TotalIsSum(r);
      SumCong(|r|, Reading(r), Reading(s));
    }
  }

  lemma {:induction false} SumCong(n: nat, f: int -> real, g: int -> real)
    requires forall i :: 0 <= i < n ==> f(i) == g(i)
    ensures Sum(n, f) == Sum(n, g)
  {
    if n > 0 {
      SumCong(n - 1, f, g);
    }
  }

  /** A constant factor comes out of a sum. */
  lemma {:induction false} SumFactor(n: nat, c: real, f: int -> real, cf: int -> real)
    requires forall i :: 0 <= i < n ==> cf(i) == c * f(i)
    ensures Sum(n, cf) == c * Sum(n, f)
  {
    if n > 0 {
      SumFactor(n - 1, c, f, cf);
    }
  }

  lemma {:induction false} SumAdd(n: nat, f: int -> real, g: int -> real, fg: int -> real)
    requires forall i :: 0 <= i < n ==> fg(i) == f(i) + g(i)
    ensures Sum(n, fg) == Sum(n, f) + Sum(n, g)
  {
    if n > 0 {
      SumAdd(n - 1, f, g, fg);
    }
  }

  lemma {:induction false} SumZero(n: nat, f: int -> real)
    requires forall i :: 0 <= i < n ==> f(i) == 0.0
    ensures Sum(n, f) == 0.0
  {
    if n > 0 {
      SumZero(n - 1, f);
    }
  }

  /** The order of a double sum does not matter. */
  lemma {:induction false} SumSwap(n: nat, k: nat, f: (int, int) -> real)
    ensures Sum(n, i => Sum(k, j => f(i, j))) == Sum(k, j => Sum(n, i => f(i, j)))
  {
    if n == 0 {
      SumZero(k, j => Sum(n, i => f(i, j)));
    } else {
      SumSwap(n - 1, k, f);
      SumAdd(k, j => Sum(n - 1, i => f(i, j)), j => f(n - 1, j), j => Sum(n, i => f(i, j)));
    }
  }

  lemma {:induction false} SumNonneg(n: nat, f: int -> real)
    requires forall i :: 0 <= i < n ==> f(i) >= 0.0
    ensures Sum(n, f) >= 0.0
    ensures forall i :: 0 <= i < n ==> f(i) <= Sum(n, f)
  {
    if n > 0 {
      SumNonneg(n - 1, f);
    }
  }

  lemma {:induction false} SumMonotone(n: nat, f: int -> real, g: int -> real)
    requires forall i :: 0 <= i < n ==> f(i) <= g(i)
    ensures Sum(n, f) <= Sum(n, g)
  {
    if n > 0 {
      SumMonotone(n - 1, f, g);
    }
  }

  /** A nonnegative sum is positive exactly when one of its terms is. */
  lemma {:induction false} SumPositive(n: nat, f: int -> real)
    requires forall i :: 0 <= i < n ==> f(i) >= 0.0
    ensures Sum(n, f) > 0.0 <==> exists i :: 0 <= i < n && f(i) > 0.0
  {
    SumNonneg(n, f);
    if n > 0 {
      SumPositive(n - 1, f);
    }
  }

  /** A sum with one nonzero term is that term. */
  lemma {:induction false} SumSingle(n: nat, f: int -> real, at: int)
    requires 0 <= at < n
    requires forall i :: 0 <= i < n && i != at ==> f(i) == 0.0
    ensures Sum(n, f) == f(at)
  {
    if at == n - 1 {
      SumZero(n - 1, f);
    } else {
      SumSingle(n - 1, f, at);
    }
  }

  lemma {:induction false} SumConst(n: nat, c: real, f: int -> real)
    requires forall i :: 0 <= i < n ==> f(i) == c
    ensures Sum(n, f) == n as real * c
  {
    if n > 0 {
      SumConst(n - 1, c, f);
      assert n as real * c == (n - 1) as real * c + c;
    }
  }

  /** The terms of a positive nonnegative sum, each scaled by a positive factor, still
      have a positive sum. */
  lemma {:induction false} SumReweighted(n: nat, f: int -> real, g: int -> real)
    requires forall i :: 0 <= i < n ==> f(i) >= 0.0
    requires forall i :: 0 <= i < n ==> (f(i) > 0.0 ==> g(i) > 0.0) && g(i) >= 0.0
    requires Sum(n, f) > 0.0
    ensures Sum(n, g) > 0.0
  {
    SumPositive(n, f);
    SumPositive(n, g);
  }
}
