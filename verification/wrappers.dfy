/** Optional values and success/failure results, used for declared defaults
    and for the one exception the invoker raises itself. */
module Wrappers {

  /** A value that may be missing: a parameter's default, when it has one. */
  datatype Option<+T> = None | Some(value: T)

  /** The outcome of an operation that either yields a value or fails with an error. */
  datatype Result<+R, +E> = Success(value: R) | Failure(error: E)
}
