/** Failure-carrying return values used in place of JavaScript's `null` and thrown errors. */
module Wrappers {

  /** `Some(v)` for a value, `None` for `null`/`undefined`. */
  datatype Option<+T> = None | Some(value: T)

  /** `Success(v)` for a normal return, `Failure(e)` for a thrown error carrying message `e`. */
  datatype Result<+R, +E> = Success(value: R) | Failure(error: E)
}
