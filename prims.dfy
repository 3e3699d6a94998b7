/** Machine integer types of the Rust program and an Option for operations that can panic. */
module Prims {

  /** One past the largest `u32`. */
  const U32Limit: int := 0x1_0000_0000

  /** Rust `u8`. */
  type U8 = n: int | 0 <= n < 256

  /** Rust `u32`. */
  type U32 = n: int | 0 <= n < 0x1_0000_0000

  /** `None` stands for a computation that panics. */
  datatype Option<T> = None | Some(value: T)
}
