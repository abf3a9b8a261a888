/** Failure-compatible result types used by the storefront model. */
module Wrappers {

  /** A value that may be missing: a parse that failed, a product that is not in the catalog. */
  datatype Option<+T> = None | Some(value: T)

  /** The value of an operation that either produces a result or fails with an error. */
  datatype Result<+R, +E> = Success(value: R) | Failure(error: E)

  /** The value of an operation that either passes or fails with an error, and produces nothing. */
  datatype Outcome<+E> = Pass | Fail(error: E)
}
