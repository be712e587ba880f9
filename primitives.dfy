/** The fixed-width integers of the remapping engine. */
module Primitives {

  /** Rust's `u16`: key codes, HID usages, vendor and product ids. */
  newtype u16 = x: int | 0 <= x < 0x1_0000

  /** Rust's `i64`: the mouse-event button-number field. */
  newtype i64 = x: int | -0x8000_0000_0000_0000 <= x < 0x8000_0000_0000_0000
}
