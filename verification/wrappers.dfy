/** The wrappers used by the cache model: an optional value (a Go nil
    pointer or a present one) and a value-or-error result. */
module Wrappers {

  /** A value that may be absent; `None` plays the role of a nil pointer. */
  datatype Option<+T> = None | Some(value: T)

  /** Either a value or an error, the shape of a Go `(T, error)` return pair. */
  datatype Result<+R, +E> = Success(value: R) | Failure(error: E)
}
