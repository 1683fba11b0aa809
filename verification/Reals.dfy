/** The larger and the smaller of two numbers, and the absolute value, powers, and the arithmetic of one product. */
module Reals {
  function Max(a: real, b: real): (r: real)
    ensures r >= a && r >= b && (r == a || r == b)
  {
    if a >= b then a else b
  }

  function Min(a: real, b: real): (r: real)
    ensures r <= a && r <= b && (r == a || r == b)
  {
    if a <= b then a else b
  }

  function Abs(x: real): (r: real)
    ensures r >= 0.0 && (r == x || r == -x)
  {
    if x < 0.0 then -x else x
  }

  function Pow(x: real, n: nat): real { if n == 0 then 1.0 else x * Pow(x, n - 1) }

  // ---------------------------------------------------------------- one product at a time

  lemma {:induction false} ScaleUp(a: real, b: real, y: real)
    requires y > 0.0 && a <= b
    ensures a * y <= b * y
  {
  }

  lemma {:induction false} ScaleUpStrict(a: real, b: real, y: real)
    requires y > 0.0 && a < b
    ensures a * y < b * y
  {
  }

  lemma {:induction false} Product(x: real, y: real)
    requires x >= 0.0 && y >= 0.0
    ensures x * y >= 0.0
    ensures x > 0.0 && y > 0.0 ==> x * y > 0.0
  {
  }

  /** A positive factor does not change a sign. */
  lemma {:induction false} SignOf(x: real, y: real)
    requires y > 0.0
    ensures x * y > 0.0 <==> x > 0.0
    ensures y * x > 0.0 <==> x > 0.0
  {
  }

  /** The quotient is the only number that multiplies back. */
  lemma {:induction false} Quotient(q: real, k: real, t: real)
    requires k > 0.0 && q * k == t
    ensures q == t / k
  {
    var r := t / k;
    assert r * k == t;
    assert (q - r) * k == 0.0;
  }

  lemma {:induction false} QuotientNegated(x: real, k: real)
    requires k > 0.0
    ensures (-x) / k == -(x / k)
  {
    var q := x / k;
    assert (-q) * k == -x;
    Quotient(-q, k, -x);
  }

  // ---------------------------------------------------------------- logarithms

  /** log turns products of positive numbers into sums, and grows. */
  ghost predicate Logarithm(log: real -> real) {
    && (forall x, y :: x > 0.0 && y > 0.0 ==> log(x * y) == log(x) + log(y))
    && (forall x, y :: 0.0 < x < y ==> log(x) < log(y))
  }

  lemma {:induction false} LogProduct(log: real -> real, x: real, y: real)
    requires Logarithm(log) && x > 0.0 && y > 0.0
    ensures x * y > 0.0 && log(x * y) == log(x) + log(y)
  {
    Product(x, y);
  }

  lemma {:induction false} LogGrows(log: real -> real, x: real, y: real)
    requires Logarithm(log) && x > 0.0 && y > 0.0
    ensures log(x) < log(y) <==> x < y
    ensures log(x) == log(y) <==> x == y
    ensures log(1.0) == 0.0
  {
    assert log(1.0 * 1.0) == log(1.0) + log(1.0);
  }
}
