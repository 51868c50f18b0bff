/** The fixed-width Rust integer types the core works on. */
module Ints {

  /** Rust `u8`: one colour channel of a decoded PNG pixel. */
  newtype u8 = x: int | 0 <= x < 0x100

  /** Rust `u32`: one entry of a triangle index buffer. */
  newtype u32 = x: int | 0 <= x < 0x1_0000_0000
}
