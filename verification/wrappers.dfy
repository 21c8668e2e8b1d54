/** Optional values and error-carrying results, standing in for Python's
    `None` and for the exceptions the route search can raise. */
module Wrappers {

  /** A value that may be absent (`Optional[...]` / `None`). */
  datatype Option<+T> = None | Some(value: T)

  /** The outcome of an operation that either returns a value or raises. */
  datatype Result<+T, +E> = Success(value: T) | Failure(error: E)
}
