/** Optional values and error results, the model's rendering of Go's nil
    pointers and `error` returns. */
module Wrappers {

  /** A Go pointer that may be nil. */
  datatype Option<+T> = None | Some(value: T)

  /** A Go `(value, error)` pair where exactly one side is meaningful; the
      error is its formatted message. */
  datatype Result<+T> = Success(value: T) | Failure(error: string)
}
