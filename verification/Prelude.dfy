/** Shared value types. */
module Prelude {

  /** A field or an answer that may be undefined. */
  datatype Option<+T> = None | Some(value: T)

  newtype Byte = x: int | 0 <= x < 0x100

  function Max(a: int, b: int): int {
    if a < b then b else a
  }

  function Min(a: int, b: int): int {
    if a < b then a else b
  }
}
