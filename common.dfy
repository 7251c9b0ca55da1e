/** Shared value types of the gomap model: optional values, results with an
    error, and the fixed-width unsigned integers the scanner works with. */
module Common {

  datatype Option<+T> = None | Some(value: T)

  /** A value or the error the Go code would return beside it. */
  datatype Result<+T, +E> = Ok(value: T) | Err(error: E)

  type Byte = x: int | 0 <= x < 0x100
  type U16 = x: int | 0 <= x < 0x1_0000
  type U32 = x: int | 0 <= x < 0x1_0000_0000

  /** A TCP port number (Go's uint16). */
  type Port = U16

  /** Bounds of Go's `int` on a 64-bit platform. */
  const MinInt64: int := -0x8000_0000_0000_0000
  const MaxInt64: int := 0x7FFF_FFFF_FFFF_FFFF
}
