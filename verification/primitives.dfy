/** Fixed-width unsigned integers of the source, as subranges of `int`. */
module Primitives {

  const U32_MAX: int := 0xFFFF_FFFF
  const U64_MAX: int := 0xFFFF_FFFF_FFFF_FFFF

  newtype u32 = x: int | 0 <= x <= U32_MAX
  newtype u64 = x: int | 0 <= x <= U64_MAX
}
