/** The fixed-width integers of the source, as ranges. */
module Integers {

  const U16_MAX: nat := 0xFFFF
  const U32_MAX: nat := 0xFFFF_FFFF
  const U64_MAX: nat := 0xFFFF_FFFF_FFFF_FFFF
  const I64_MIN: int := -0x8000_0000_0000_0000
  const I64_MAX: int := 0x7FFF_FFFF_FFFF_FFFF

  type byte = n: int | 0 <= n < 256

  type bytes = seq<byte>

  type u32 = n: int | 0 <= n <= U32_MAX

  type u64 = n: int | 0 <= n <= U64_MAX

  type i64 = n: int | I64_MIN <= n <= I64_MAX
}
