/** Go's nil-able pointers, multi-value error returns and the fixed-width
    integer type used for primary keys. */
module Wrappers {

  /** A Go pointer `*T`: `None` is `nil`. */
  datatype Option<+T> = None | Some(value: T)

  /** The outcome of a call that returns `(T, error)`: exactly one side is meaningful. */
  datatype Result<+T, +E> = Success(value: T) | Failure(error: E)

  /** Go's `error` interface, reduced to its message. */
  datatype Error = Error(message: string)

  /** Go's `int64`; the keys are only compared, never computed with, so no wrap-around arises. */
  newtype int64 = x: int | -0x8000_0000_0000_0000 <= x < 0x8000_0000_0000_0000
}
