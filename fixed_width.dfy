/**
 * The fixed-width integer types the game, console and geometry code
 * store their counters in. They are subset types of `int`, so arithmetic
 * is exact and every store back into a field states that the value fits.
 */
module FixedWidth {
  const Int32Min: int := -0x8000_0000
  const Int32Max: int := 0x7FFF_FFFF

  type int32 = x: int | -0x8000_0000 <= x < 0x8000_0000
  type uint8 = x: int | 0 <= x < 0x100
  type uint32 = x: int | 0 <= x < 0x1_0000_0000

  predicate InInt32(x: int)
  {
    Int32Min <= x <= Int32Max
  }

  /** C++ `/` on integers truncates toward zero; Dafny's `/` is Euclidean. */
  function TruncDiv(a: int, d: int): (q: int)
    requires d > 0
    ensures a >= 0 ==> 0 <= a - q * d < d
    ensures a < 0 ==> -d < a - q * d <= 0
  {
    if a >= 0 then a / d else -((-a) / d)
  }
}
