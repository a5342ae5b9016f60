/** Option and Result, the wrappers the Rust code uses for absent values and for errors,
    and the fixed-width integer ranges that the decoded payloads and page numbers live in. */
module Wrappers {

  datatype Option<T> = None | Some(value: T) {

    /** Rust's `unwrap_or(default)`; `unwrap_or_default()` is this with the type's default spelled out */
    function UnwrapOr(default: T): T {
      match this
      case Some(v) => v
      case None => default
    }

    /** Rust's `Option::or`: keep this value when present, otherwise take `other` */
    function Or(other: Option<T>): Option<T> {
      if Some? then this else other
    }
  }

  datatype Result<T, E> = Ok(value: T) | Err(error: E)

  /** Rust's `i32` */
  type Int32 = x: int | -0x8000_0000 <= x < 0x8000_0000

  /** Rust's `u16` */
  type Uint16 = x: int | 0 <= x < 0x1_0000

  const MaxUint16: Uint16 := 0xFFFF
}
