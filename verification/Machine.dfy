/** The machine's integers; Dafny checks that no operation on them overflows. */
module Machine {
  newtype byte = x: int | 0 <= x < 256
  newtype int32 = x: int | -0x8000_0000 <= x < 0x8000_0000
}
