/** Integer widths of the original and the usual Option and Result types. */
module Base {
  type I32 = x: int | -0x8000_0000 <= x <= 0x7fff_ffff
  type U32 = x: int | 0 <= x <= 0xffff_ffff
  type NonZeroU32 = x: int | 1 <= x <= 0xffff_ffff witness 1
  type I64 = x: int | -0x8000_0000_0000_0000 <= x <= 0x7fff_ffff_ffff_ffff
  type U64 = x: int | 0 <= x <= 0xffff_ffff_ffff_ffff
  type Byte = x: int | 0 <= x <= 0xff

  const I32_MAX: I32 := 0x7fff_ffff
  const I64_MIN: I64 := -0x8000_0000_0000_0000
  const I64_MAX: I64 := 0x7fff_ffff_ffff_ffff
  const U64_MAX: U64 := 0xffff_ffff_ffff_ffff

  // The identifier syntax is not modelled: nodes are only compared for equality.
  type NodeId = string

  datatype Option<+T> = None | Some(value: T)

  datatype Result<+T, +E> = Ok(value: T) | Err(error: E)

  function TryI32(x: int): Option<I32> {
    if -0x8000_0000 <= x <= 0x7fff_ffff then Some(x) else None
  }

  function TryU32(x: int): Option<U32> {
    if 0 <= x <= 0xffff_ffff then Some(x) else None
  }

  function SaturateI64(x: int): I64 {
    if x < I64_MIN then I64_MIN else if x > I64_MAX then I64_MAX else x
  }

  function SaturatingAdd(x: I64, y: I64): I64 {
    SaturateI64(x + y)
  }

  function Min(x: int, y: int): int {
    if x <= y then x else y
  }

  function Max(x: int, y: int): int {
    if x >= y then x else y
  }

  function Clamp(x: int, low: int, high: int): int {
    if x < low then low else if x > high then high else x
  }

  function Distance(x: int, y: int): nat {
    if x <= y then y - x else x - y
  }

  /** Clamping picks the nearest value of the range, and saturation the nearest 64-bit integer. */
  lemma ClampIsNearest(x: int, low: int, high: int, y: int)
    requires low <= y <= high
    ensures low <= Clamp(x, low, high) <= high && Distance(x, Clamp(x, low, high)) <= Distance(x, y)
  {
  }

  lemma SaturationIsNearest(x: int, y: I64)
    ensures Distance(x, SaturateI64(x)) <= Distance(x, y)
  {
  }

  lemma Regroup<T>(a: seq<T>, b: seq<T>, c: seq<T>)
    ensures a + (b + c) == (a + b) + c
  {
  }
}
