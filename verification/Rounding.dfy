/** The explicit roundings of the money path. Fractions and decimals are exact reals. */
module Rounding {

  /** `exact.numerator // exact.denominator`. */
  function Floor(x: real): (n: int)
    ensures n as real <= x < n as real + 1.0
  {
    x.Floor
  }

  /** `-((-exact.numerator) // exact.denominator)`. */
  function Ceil(x: real): (n: int)
    ensures n as real - 1.0 < x <= n as real
  {
    -((-x).Floor)
  }

  /** `quantize(..., ROUND_HALF_EVEN)` to an integer. */
  function RoundHalfEven(y: real): int {
    var f := y.Floor;
    var d := y - f as real;
    if d < 0.5 then f
    else if d > 0.5 then f + 1
    else if f % 2 == 0 then f else f + 1
  }

  /** `Money.scaled_up`: a cost is never understated. */
  function ScaledUp(minor: int, factor: real): int {
    Ceil(minor as real * factor)
  }

  /** `Money.scaled_down`: revenue is never overstated. */
  function ScaledDown(minor: int, factor: real): int {
    Floor(minor as real * factor)
  }

  /** A product, named so that proofs can carry it without expanding it. */
  function Times(p: real, q: real): real {
    p * q
  }

  lemma Distribute(x: real, p: real, q: real)
    ensures Times(x, p) + Times(x, q) == Times(x, p + q)
  {
  }

  lemma CeilMonotone(x: real, y: real)
    requires x <= y
    ensures Ceil(x) <= Ceil(y)
  {
  }

  lemma FloorMonotone(x: real, y: real)
    requires x <= y
    ensures Floor(x) <= Floor(y)
  {
  }

  /** The ceiling is the least integer at or above. */
  lemma CeilLeast(x: real, n: int)
    ensures Ceil(x) <= n <==> x <= n as real
  {
  }

  /** The floor is the greatest integer at or below. */
  lemma FloorGreatest(x: real, n: int)
    ensures n <= Floor(x) <==> n as real <= x
  {
  }

  lemma ScaledUpMonotone(a: int, b: int, factor: real)
    requires factor >= 0.0 && a <= b
    ensures ScaledUp(a, factor) <= ScaledUp(b, factor)
  {
    ProductMonotone(a as real, b as real, factor);
    CeilMonotone(a as real * factor, b as real * factor);
  }

  lemma ScaledUpNonNegative(a: int, factor: real)
    requires factor >= 0.0 && a >= 0
    ensures ScaledUp(a, factor) >= 0
  {
    ScaledUpMonotone(0, a, factor);
    assert ScaledUp(0, factor) == Ceil(0.0) == 0;
  }

  lemma ProductMonotone(a: real, b: real, factor: real)
    requires factor >= 0.0 && a <= b
    ensures a * factor <= b * factor
  {
  }

  lemma StrictProduct(a: real, b: real, factor: real)
    requires a < b && factor > 0.0
    ensures a * factor < b * factor
  {
  }
}
