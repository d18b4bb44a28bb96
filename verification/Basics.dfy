/** Values that several modules share. */
module Basics {
  datatype Option<+T> = None | Some(value: T)

  type Byte = b: int | 0 <= b < 256

  const U64_MAX: nat := 0xFFFF_FFFF_FFFF_FFFF

  /** A 64-bit successor that stays at the largest value. */
  function SaturatingSucc(n: nat): (r: nat) {
    if n >= U64_MAX then U64_MAX else n + 1
  }
}
