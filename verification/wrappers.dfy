/** Failure-carrying result types shared by every module of the model. */
module Wrappers {

  /** A value that may be absent: a missing map entry, a nil pointer, a nil error. */
  datatype Option<+T> = None | Some(value: T)

  /** The outcome of an operation that returns a value or a Go `error` (its text). */
  datatype Result<+T> = Ok(value: T) | Err(error: string)
}
