/** Failure-compatible wrappers shared by the model. */
module Wrappers {

  /** A value that may be absent (a nil pointer or nil slice in the client). */
  datatype Option<+T> = None | Some(value: T)

  /** A value or the reason it could not be produced. */
  datatype Result<+R, +E> = Success(value: R) | Failure(error: E)

  /** Success without a value, or a failure carrying its reason (a Go `error` return). */
  datatype Outcome<+E> = Pass | Fail(error: E)
}
