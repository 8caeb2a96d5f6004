/**
 * The two float-to-number conversions the engine uses, over exact reals:
 * Python's `round(x, 1)` and `int(x)`.
 */
module Decimal {

  /** `x` is a whole number of tenths. */
  predicate IsTenths(x: real) {
    (x * 10.0).Floor as real == x * 10.0
  }

  /**
   * Python's `round(x, 1)`: the nearest multiple of 0.1, halves rounded
   * upward.
   */
  function Round1(x: real): (r: real)
    ensures x - 0.05 < r <= x + 0.05
    ensures IsTenths(r)
  {
    var k := (x * 10.0 + 0.5).Floor;
    assert (k as real / 10.0) * 10.0 == k as real;
    k as real / 10.0
  }

  /** Rounding never reverses the order of two values. */
  lemma Round1Monotone(x: real, y: real)
    requires x <= y
    ensures Round1(x) <= Round1(y)
  {
    var kx := (x * 10.0 + 0.5).Floor;
    var ky := (y * 10.0 + 0.5).Floor;
    assert kx <= ky;
  }

  /** A value that already is a whole number of tenths is left as it is. */
  lemma Round1Exact(x: real)
    requires IsTenths(x)
    ensures Round1(x) == x
  {
    var n := (x * 10.0).Floor;
    assert (x * 10.0 + 0.5).Floor == n;
  }

  /** Whole numbers are unchanged by rounding. */
  lemma Round1Integer(n: int)
    ensures Round1(n as real) == n as real
  {
    assert ((n as real) * 10.0).Floor == n * 10;
    Round1Exact(n as real);
  }

  /** Rounding a second time changes nothing. */
  lemma Round1Idempotent(x: real)
    ensures Round1(Round1(x)) == Round1(x)
  {
    Round1Exact(Round1(x));
  }

  /** Rounding keeps non-negative values non-negative. */
  lemma Round1NonNegative(x: real)
    requires x >= 0.0
    ensures Round1(x) >= 0.0
  {
    Round1Monotone(0.0, x);
    Round1Integer(0);
  }

  /** A non-negative rate per 100 units keeps the order of two amounts. */
  lemma PerHundredMonotone(rate: real, x: real, y: real)
    requires rate >= 0.0 && x <= y
    ensures rate * x / 100.0 <= rate * y / 100.0
  {
    assert rate * y - rate * x == rate * (y - x);
    assert rate * (y - x) >= 0.0;
  }

  /** Python's `max(a, b)`: `a` unless `b` is strictly larger. */
  function Max(a: real, b: real): (r: real)
    ensures r >= a && r >= b
    ensures r == a || r == b
  {
    if b > a then b else a
  }

  /** Python's `int(x)` on a float: the integer part, rounding toward zero. */
  function Truncate(x: real): (n: int)
    ensures x >= 0.0 ==> n as real <= x < n as real + 1.0
    ensures x < 0.0 ==> n as real - 1.0 < x <= n as real
  {
    if x >= 0.0 then x.Floor else -((-x).Floor)
  }
}
