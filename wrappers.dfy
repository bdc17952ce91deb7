/** Optional values and success-or-error results, used for the null returns and
    thrown errors of the modelled code. */
module Wrappers {

  /** A value that may be missing (the source's `null`). */
  datatype Option<+T> = None | Some(value: T)

  /** A computation that either succeeds with a value or fails with an error
      (the source's thrown `Error`). */
  datatype Result<+R, +E> = Success(value: R) | Failure(error: E)
}
