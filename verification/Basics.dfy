/** Fixed-width integers and small helpers shared by every component. */
module Basics {

  type U8 = x: int | 0 <= x < 0x100
  type U16 = x: int | 0 <= x < 0x1_0000
  type U32 = x: int | 0 <= x < 0x1_0000_0000
  type U64 = x: int | 0 <= x < 0x1_0000_0000_0000_0000
  type I64 = x: int | -0x8000_0000_0000_0000 <= x < 0x8000_0000_0000_0000

  const U32_MAX: U32 := 0xFFFF_FFFF
  const U64_MAX: U64 := 0xFFFF_FFFF_FFFF_FFFF
  const I64_MAX: I64 := 0x7FFF_FFFF_FFFF_FFFF

  datatype Option<+T> = None | Some(value: T)

  /** Unsigned 32-bit arithmetic keeps the low 32 bits of the exact result. */
  function Wrap32(x: int): U32 {
    x % 0x1_0000_0000
  }

  /** A big-endian 16-bit value. */
  function Big16(high: U8, low: U8): U16 {
    256 * (high as int) + (low as int)
  }

  function Max(a: int, b: int): int {
    if a < b then b else a
  }

  function Min(a: int, b: int): int {
    if b < a then b else a
  }

  lemma Regroup<T>(a: seq<T>, b: seq<T>, c: seq<T>, d: seq<T>)
    ensures a + (b + c) + d == a + b + c + d && a + b + (c + d) == a + b + c + d
  {
  }
}
