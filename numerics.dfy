/**
 * Natural-number powers of reals: the `x ** n` of the calculator, where every
 * exponent is a year count or a payment count, evaluated exactly.
 */
module Numerics {

  /** `x` raised to the natural power `n`. */
  function Pow(x: real, n: nat): (r: real)
    ensures x > 0.0 ==> r > 0.0
    ensures x != 0.0 ==> r != 0.0
  {
    if n == 0 then 1.0 else x * Pow(x, n - 1)
  }

  /** Every power of one is one. */
  lemma {:induction false} PowOfOne(n: nat)
    ensures Pow(1.0, n) == 1.0
  {
    if n > 0 {
      PowOfOne(n - 1);
    }
  }

  /** A base of at least one never gives a power below one. */
  lemma {:induction false} PowAtLeastOne(x: real, n: nat)
    requires x >= 1.0
    ensures Pow(x, n) >= 1.0
  {
    if n > 0 {
      PowAtLeastOne(x, n - 1);
      assert x * Pow(x, n - 1) >= Pow(x, n - 1);
    }
  }

  /** A base above one gives a power above one as soon as the exponent is positive. */
  lemma {:induction false} PowAboveOne(x: real, n: nat)
    requires x > 1.0 && n >= 1
    ensures Pow(x, n) > 1.0
  {
    PowAtLeastOne(x, n - 1);
    assert x * Pow(x, n - 1) >= x;
  }

  /** For a positive exponent, the power grows strictly with a positive base. */
  lemma {:induction false} PowStrictlyIncreasing(x: real, y: real, n: nat)
    requires 0.0 < x < y && n >= 1
    ensures Pow(x, n) < Pow(y, n)
  {
    if n > 1 {
      PowStrictlyIncreasing(x, y, n - 1);
      ProductStrictlyIncreasing(x, y, Pow(x, n - 1), Pow(y, n - 1));
    }
  }

  /** A product of positive reals grows strictly when both factors do. */
  lemma ProductStrictlyIncreasing(x: real, y: real, a: real, b: real)
    requires 0.0 < x < y && 0.0 < a < b
    ensures x * a < y * b
  {
    assert x * a < y * a;
  }

  /** A product of nonzero reals is nonzero. */
  lemma NonzeroProduct(a: real, c: real)
    requires a != 0.0 && c != 0.0
    ensures a * c != 0.0
  {
  }

  /** Dividing is multiplying by the reciprocal. */
  lemma QuotientAsProduct(a: real, p: real)
    requires p != 0.0
    ensures a / p == a * (1.0 / p)
  {
  }

  /** Division by a common divisor distributes over a sum. */
  lemma SumOfQuotients(a: real, b: real, p: real)
    requires p != 0.0
    ensures (a + b) / p == a / p + b / p
  {
  }

  /** Multiplying and then dividing by the same nonzero real gives back the start. */
  lemma QuotientCancels(a: real, p: real)
    requires p != 0.0
    ensures a * p / p == a
  {
  }

  /** Two positive factors keep a strict order between the middle factors. */
  lemma ProductLess(c: real, a: real, b: real, f: real)
    requires c > 0.0 && a < b && f > 0.0
    ensures c * a * f < c * b * f
  {
    assert c * a < c * b;
  }

  /** Dividing by a positive real keeps a strict order. */
  lemma QuotientLess(a: real, b: real, p: real)
    requires a < b && p > 0.0
    ensures a / p < b / p
  {
  }
}
