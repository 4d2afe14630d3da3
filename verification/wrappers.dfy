/** Failure-carrying values shared by every module of the model. */
module Wrappers {

  /** A value that may be absent: Go's nil pointer, Python's `None`. */
  datatype Option<+T> = None | Some(value: T)

  /** The outcome of a step that can fail: a Go `(value, error)` pair, or a Python
      call that either returns or raises. */
  datatype Result<+T, +E> = Success(value: T) | Failure(error: E)
}
