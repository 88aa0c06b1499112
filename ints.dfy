/** Fixed-width integers of the source, as ranges of mathematical integers. */
module Ints {

  const TWO_63: int := 0x8000_0000_0000_0000
  const TWO_64: int := 0x1_0000_0000_0000_0000

  type U16 = x: int | 0 <= x < 0x1_0000
  type U64 = x: int | 0 <= x < TWO_64
  type I64 = x: int | -TWO_63 <= x < TWO_63

  /** `i64::wrapping_neg`: negation in two's complement, where the minimum negates to itself. */
  function WrappingNeg(a: I64): I64 {
    if a == -TWO_63 then a else -a
  }

  /** `as u64` on an `i64`: reinterpret the two's-complement bit pattern. */
  function I64AsU64(a: I64): U64 {
    a % TWO_64
  }

  /**
   * `i64::unsigned_abs`, which the standard library defines as
   * `wrapping_abs` followed by the bit-pattern cast to `u64`.
   * Its contract is the mathematical absolute value, for every i64 including the minimum.
   */
  function UnsignedAbs(a: I64): (r: U64)
    ensures r as int == if a < 0 then -(a as int) else a as int
    ensures r <= TWO_63
    ensures r == TWO_63 <==> a == -TWO_63
  {
    I64AsU64(if a < 0 then WrappingNeg(a) else a)
  }
}
