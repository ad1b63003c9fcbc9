/**
 * The floating-point library the pricing engine calls (`std::exp`, `std::log`,
 * `std::sqrt`, `std::erfc`), over `real`. Their values cannot be computed here,
 * so a `MathLib` carries them as plain functions and `Lawful` lists the only
 * facts about them that the model relies on.
 */
module Numerics {

  datatype MathLib = MathLib(
    exp: real -> real,
    log: real -> real,
    sqrt: real -> real,
    erfc: real -> real)

  /** The facts assumed of the C library: exp is positive, sqrt is a non-negative
      square root on the non-negative reals, erfc lies in [0, 2] and is
      point-symmetric about (0, 1). Nothing is assumed of log, nor of sqrt
      below zero, where the C library returns NaN. */
  ghost predicate Lawful(m: MathLib) {
    && (forall x :: m.exp(x) > 0.0)
    && (forall x :: x >= 0.0 ==> m.sqrt(x) >= 0.0)
    && (forall x :: x >= 0.0 ==> m.sqrt(x) * m.sqrt(x) == x)
    && (forall y :: 0.0 <= m.erfc(y) <= 2.0)
    && (forall y, z :: z == -y ==> m.erfc(y) + m.erfc(z) == 2.0)
  }

  /** `std::max` on two doubles. */
  function Max(a: real, b: real): (r: real)
    ensures r >= a && r >= b
    ensures r == a || r == b
  {
    if a < b then b else a
  }

  /** `std::abs` on a double. */
  function Abs(x: real): (r: real)
    ensures r >= 0.0
    ensures r == x || r == -x
  {
    if x < 0.0 then -x else x
  }

  /** The square root of a positive number is positive, so it may divide. */
  lemma SqrtPositive(m: MathLib, x: real)
    requires Lawful(m)
    requires x > 0.0
    ensures m.sqrt(x) > 0.0
  {
    assert m.sqrt(x) * m.sqrt(x) == x;
  }

  /** The square root of zero is zero. */
  lemma SqrtZero(m: MathLib)
    requires Lawful(m)
    ensures m.sqrt(0.0) == 0.0
  {
    ZeroProduct(m.sqrt(0.0), m.sqrt(0.0));
  }

  /** A product of two non-negative reals vanishes only when a factor does. */
  lemma ZeroProduct(a: real, b: real)
    requires a * b == 0.0
    requires a >= 0.0 && b >= 0.0
    ensures a == 0.0 || b == 0.0
  {
  }

  /** A product of two positive reals is positive. */
  lemma MulPositive(a: real, b: real)
    requires a > 0.0 && b > 0.0
    ensures a * b > 0.0
  {
  }

  /** Scaling a number in [0, 1] by a positive factor keeps it in [0, factor]. */
  lemma ScaleUnit(e: real, p: real)
    requires e > 0.0
    requires 0.0 <= p <= 1.0
    ensures 0.0 <= e * p <= e
    ensures -e <= e * (p - 1.0) <= 0.0
  {
    assert e * p <= e * 1.0;
  }

  /** a x + a x' = a when x + x' = 1. */
  lemma Complement(a: real, x: real, x': real)
    requires x + x' == 1.0
    ensures a * x + a * x' == a
  {
    assert a * x + a * x' == a * (x + x');
  }

  /** n c + c = (n + 1) c. */
  lemma AddOneMore(n: real, c: real)
    ensures n * c + c == (n + 1.0) * c
  {
  }

  /** A total of n equal shares c, divided by n > 0, is c. */
  lemma CancelCount(n: real, c: real, total: real)
    requires n > 0.0
    requires total == n * c
    ensures total / n == c
  {
  }
}
