/** Option and panic-or-value types shared by the tokenizer state model. */
module Wrappers {

  /** Rust's `Option<T>`. */
  datatype Option<+T> = None | Some(value: T)

  /** The outcome of a Rust call that either returns a value or panics. */
  datatype Result<+T> = Ok(value: T) | Panic(message: string)

  /** Rust's `i32`. */
  newtype i32 = x: int | -0x8000_0000 <= x < 0x8000_0000

  const I32_MIN: i32 := -0x8000_0000
  const I32_MAX: i32 := 0x7fff_ffff

  /** `x.wrapping_add(1)`, which is what `AtomicI32::fetch_add(1, _)` stores. */
  function WrappingInc(x: i32): (r: i32)
    ensures r as int == (x as int + 1 - I32_MIN as int) % 0x1_0000_0000 + I32_MIN as int
    ensures x < I32_MAX ==> r as int == x as int + 1
    ensures x == I32_MAX ==> r == I32_MIN
  {
    if x == I32_MAX then I32_MIN else x + 1
  }
}
