/** Failure-compatible values used in place of JavaScript's `null`/`undefined`
    and thrown errors. */
module Wrappers {

  datatype Option<+T> = None | Some(value: T)

  datatype Result<+T, +E> = Success(value: T) | Failure(error: E)
}
