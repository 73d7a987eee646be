/** Rust's fixed-width integer types used by the samples, as Dafny newtypes.
    Arithmetic that would overflow panics in a debug build, so callers of the
    models below must rule it out; `checked_add` is modelled where the source
    uses it. */
module Ints {
  const INT32_MIN: int := -0x8000_0000
  const INT32_MAX: int := 0x7FFF_FFFF
  const UINT32_MAX: int := 0xFFFF_FFFF
  const UINT64_MAX: int := 0xFFFF_FFFF_FFFF_FFFF

  newtype int32 = x: int | -0x8000_0000 <= x < 0x8000_0000
  newtype uint32 = x: int | 0 <= x < 0x1_0000_0000
  newtype uint64 = x: int | 0 <= x < 0x1_0000_0000_0000_0000

  predicate IsInt32(x: int) { INT32_MIN <= x <= INT32_MAX }
  predicate IsUint32(x: int) { 0 <= x <= UINT32_MAX }
  predicate IsUint64(x: int) { 0 <= x <= UINT64_MAX }
}
