/**
 Go's fixed-width integers as used by the stats aggregation: `uint64` counters
 whose `+` and `-` wrap modulo 2^64, the `uint32` online-CPU count, and the
 platform `int` carried by block-I/O entries together with its `uint64(...)`
 conversion.
 */
module GoInt {

  const TwoTo64: int := 0x1_0000_0000_0000_0000

  type u64 = x: int | 0 <= x < 0x1_0000_0000_0000_0000
  type u32 = x: int | 0 <= x < 0x1_0000_0000

  /** Go `int`, taken as 64 bits wide. The conversion below gives the same
      result for a 32-bit `int`, since Go sign-extends. */
  type GoInt = x: int | -0x8000_0000_0000_0000 <= x < 0x8000_0000_0000_0000

  /** Go `a + b` on `uint64`: wraps around, never saturates. */
  function Add(a: u64, b: u64): (r: u64)
    ensures r == (a + b) % TwoTo64
    ensures r < a <==> a + b >= TwoTo64
  {
    if a + b < TwoTo64 then a + b else a + b - TwoTo64
  }

  /** Go `a - b` on `uint64`: wraps around, never clamps at zero. */
  function Sub(a: u64, b: u64): (r: u64)
    ensures r == (a - b) % TwoTo64
    ensures Add(r, b) == a
    ensures b <= a ==> r == a - b
    ensures a < b ==> r == a - b + TwoTo64
  {
    if b <= a then a - b else a - b + TwoTo64
  }

  /** Go conversion `uint64(v)` of an `int`: the two's-complement bit pattern is
      kept, so a negative value becomes a value at or above 2^63. */
  function ToUint64(v: GoInt): (r: u64)
    ensures r == v % TwoTo64
    ensures 0 <= v ==> r == v
    ensures v < 0 ==> r >= 0x8000_0000_0000_0000
  {
    if 0 <= v then v else v + TwoTo64
  }

  lemma AddComm(a: u64, b: u64)
    ensures Add(a, b) == Add(b, a)
  {
  }

  lemma AddAssoc(a: u64, b: u64, c: u64)
    ensures Add(Add(a, b), c) == Add(a, Add(b, c))
  {
  }
}
