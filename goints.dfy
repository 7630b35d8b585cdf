/**
 * Go's fixed-width integers and the integer operators the servers rely on:
 * two's-complement wrap-around of `int64` arithmetic and the truncating `%`.
 */
module GoInts {

  const INT64_MIN: int := -0x8000_0000_0000_0000
  const INT64_MAX: int := 0x7fff_ffff_ffff_ffff
  const TWO_64: int := 0x1_0000_0000_0000_0000

  newtype int32 = x: int | -0x8000_0000 <= x < 0x8000_0000
  newtype int64 = x: int | -0x8000_0000_0000_0000 <= x < 0x8000_0000_0000_0000

  /** The int64 that Go's arithmetic leaves for the mathematical value `x` (wrap modulo 2^64). */
  function Wrap64(x: int): (r: int64)
    ensures INT64_MIN <= x <= INT64_MAX ==> r as int == x
    ensures (x - r as int) % TWO_64 == 0
  {
    var m := (x - INT64_MIN) % TWO_64;
    assert x - (m + INT64_MIN) == TWO_64 * ((x - INT64_MIN) / TWO_64);
    (m + INT64_MIN) as int64
  }

  /** Go's `a - b` on int64. */
  function Sub64(a: int64, b: int64): (r: int64)
    ensures INT64_MIN <= a as int - b as int <= INT64_MAX ==> r as int == a as int - b as int
    ensures (a as int - b as int - r as int) % TWO_64 == 0
  {
    Wrap64(a as int - b as int)
  }

  /**
   * Go's `a % b` for a positive divisor: the quotient is truncated toward zero,
   * so the remainder carries the sign of the dividend (Dafny's own `%` is Euclidean).
   */
  function Rem(a: int, b: int): (r: int)
    requires b > 0
    ensures -b < r < b
    ensures a >= 0 ==> r >= 0
    ensures a <= 0 ==> r <= 0
  {
    if a >= 0 then a % b else -((-a) % b)
  }

  /** Truncation makes the remainder odd in the dividend: negating `a` negates the remainder. */
  lemma RemIsOdd(a: int, b: int)
    requires b > 0
    ensures Rem(-a, b) == -Rem(a, b)
  {
  }

  /** With the divisor the servers use, `a - Rem(a, 40)` is a multiple of 40: Rem is a remainder. */
  lemma RemByCycleIsRemainder(a: int)
    ensures (a - Rem(a, 40)) % 40 == 0
  {
  }

  /** For a non-negative dividend Go's remainder and Dafny's agree. */
  lemma RemOfNonNegative(a: int, b: int)
    requires a >= 0 && b > 0
    ensures Rem(a, b) == a % b
  {
  }

  /** For a negative dividend they differ: the truncated remainder of -5 by 40 is -5, the Euclidean one 35. */
  lemma RemOfNegativeDiffers()
    ensures Rem(-5, 40) == -5
    ensures (-5) % 40 == 35
  {
  }
}
