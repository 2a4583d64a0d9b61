/**
 The C types whose width matters: a byte, and an int of 32 bits. Converting a longer integer to an
 int keeps its low 32 bits; sums and products of ints are taken to wrap in the same way.
 */
module CInt {
  const MAX_INT := 0x7fff_ffff

  type byte = x: int | 0 <= x < 256
  type int32 = x: int | -0x8000_0000 <= x <= 0x7fff_ffff

  function AsInt(x: int): (n: int32)
    ensures -0x8000_0000 <= x <= MAX_INT ==> n == x
    ensures (n - x) % 0x1_0000_0000 == 0
  {
    var n := (x + 0x8000_0000) % 0x1_0000_0000 - 0x8000_0000;
    assert n - x == -((x + 0x8000_0000) / 0x1_0000_0000) * 0x1_0000_0000;
    n
  }
}
