/** Go's `(value, error)` pairs and nil pointers, as values. */
module Wrappers {

  /** A nil-able pointer: `None` stands for Go's `nil`. */
  datatype Option<+T> = None | Some(value: T)

  /** The outcome of a Go call returning `(T, error)`: exactly one of the two is meaningful. */
  datatype Result<+T, +E> = Success(value: T) | Failure(error: E)
}
