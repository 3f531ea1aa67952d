/** Fixed-width machine integers and the optional value used across the model. */
module CTypes {

  /** 2^32: the modulus of Rust's `u32` arithmetic. */
  const TWO_TO_32: int := 0x1_0000_0000

  /** Rust `u32`. */
  type u32 = x: int | 0 <= x < 0x1_0000_0000

  /** Rust `i64`, the width of `time_t` and `c_long` on 64-bit Linux. */
  type i64 = x: int | -0x8000_0000_0000_0000 <= x < 0x8000_0000_0000_0000

  /** Rust `Option<T>`. */
  datatype Option<+T> = None | Some(value: T)
}
