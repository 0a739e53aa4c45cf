/** Failure-carrying values shared by the modules of this model: Go's `(T, error)` pairs
    and bare `error` returns. */
module Results {

  /** A value that may be absent (a nil pointer, a missing map entry). */
  datatype Option<+T> = None | Some(value: T)

  /** A Go `error` result: nil (`Pass`) or an error value (`Fail`). */
  datatype Outcome<+E> = Pass | Fail(error: E)

  /** A Go `(T, error)` result where exactly one of the two is meaningful. */
  datatype Result<+T, +E> = Success(value: T) | Failure(error: E)
}
