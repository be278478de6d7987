/** Java's 32-bit `int`: the type of product ids and quantities. */
module JavaInt {

  const MinInt: int := -0x8000_0000
  const MaxInt: int := 0x7fff_ffff

  newtype int32 = x: int | -0x8000_0000 <= x < 0x8000_0000

  /** The value Java's `int` arithmetic produces for the mathematical result `x`:
      two's-complement wrap-around modulo 2^32. */
  function Wrap(x: int): (r: int32)
    ensures MinInt <= x <= MaxInt ==> r as int == x
    ensures (x - r as int) % 0x1_0000_0000 == 0
  {
    ((x - MinInt) % 0x1_0000_0000 + MinInt) as int32
  }
}
