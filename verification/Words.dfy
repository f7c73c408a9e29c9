/** Machine integers, and the casts between them. */
module Words {
  const U32 := 0x1_0000_0000
  const U64 := 0x1_0000_0000_0000_0000

  type u32 = x: int | 0 <= x < U32
  type u64 = x: int | 0 <= x < U64
  type i32 = x: int | -0x8000_0000 <= x < 0x8000_0000
  type i64 = x: int | -0x8000_0000_0000_0000 <= x < 0x8000_0000_0000_0000

  type byte = x: int | 0 <= x < 0x100
  type Bytes = seq<byte>

  /** A cast to the unsigned type of the same width. */
  function AsU32(x: i32): u32 {
    if x < 0 then x + U32 else x
  }

  function AsU64(x: i64): u64 {
    if x < 0 then x + U64 else x
  }

  /** Unchecked arithmetic, as a release build does it. */
  function WrappingAdd(a: u64, b: u64): u64 {
    if a + b < U64 then a + b else a + b - U64
  }

  function WrappingSub(a: u64, b: u64): u64 {
    if b <= a then a - b else a - b + U64
  }

  function SaturatingSub(a: u64, b: u64): u64 {
    if b <= a then a - b else 0
  }
}
