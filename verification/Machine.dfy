/** Bytes, and the widths of the machine integers that the code saturates or refuses at. */
module Machine {

  newtype byte = x: int | 0 <= x < 256
  type Bytes = seq<byte>

  const U32_MAX: nat := 0xFFFF_FFFF
  const U64_MAX: nat := 0xFFFF_FFFF_FFFF_FFFF
  const USIZE_MAX: nat := 0xFFFF_FFFF_FFFF_FFFF

  type U32 = x: nat | x <= U32_MAX
}
