/** Unsigned machine integers and the saturating operations on them. */
module Saturating {
  const U32_MAX: nat := 0xFFFF_FFFF
  const U64_MAX: nat := 0xFFFF_FFFF_FFFF_FFFF

  type u32 = n: nat | n <= U32_MAX
  type u64 = n: nat | n <= U64_MAX

  function Min(a: nat, b: nat): nat {
    if a < b then a else b
  }

  function SaturatingAdd(a: nat, b: nat): u64 {
    Min(a + b, U64_MAX)
  }

  function SaturatingMul(a: nat, b: nat): u64 {
    Min(a * b, U64_MAX)
  }
}
