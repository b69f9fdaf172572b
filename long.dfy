/**
 * The C# `long` (System.Int64) as an `int` in [MinLong, MaxLong], with the
 * two's complement wrap-around of unchecked arithmetic.
 */
module Long {

  const MinLong: int := -0x8000_0000_0000_0000
  const MaxLong: int := 0x7FFF_FFFF_FFFF_FFFF
  const TwoTo64: int := 0x1_0000_0000_0000_0000

  predicate IsLong(x: int) {
    MinLong <= x <= MaxLong
  }

  /** Two's complement wrap-around of unchecked C# `long` arithmetic. */
  function WrapLong(x: int): (r: int)
    ensures IsLong(r)
    ensures (x - r) % TwoTo64 == 0
    ensures IsLong(x) ==> r == x
  {
    (x - MinLong) % TwoTo64 + MinLong
  }

  /** Wrapping after every step of a sum is the same as wrapping once at the end. */
  lemma WrapLongAdd(a: int, b: int)
    ensures WrapLong(WrapLong(a) + b) == WrapLong(a + b)
  {
  }
}
