/** Bytes and the ranges of Go's 64-bit integers. */
module Words {
  newtype byte = x: int | 0 <= x < 256

  const TWO63: int := 0x8000_0000_0000_0000
  const TWO64: int := 0x1_0000_0000_0000_0000
}
