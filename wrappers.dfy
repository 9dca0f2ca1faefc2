/** Optional values and results: `undefined`/`null` and thrown errors of the source. */
module Wrappers {

  /** An absent (`undefined`) or present value. */
  datatype Option<+T> = None | Some(value: T)

  /** The outcome of an operation that may throw. */
  datatype Result<+R, +E> = Success(value: R) | Failure(error: E)
}
