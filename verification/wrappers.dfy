/** Optional values and value-or-error results used across the model. */
module Wrappers {

  /** An optional value: the Python `None` of a field that is not set yet. */
  datatype Option<+T> = None | Some(value: T)

  /** Either a value or the error the Python implementation raises instead of returning one. */
  datatype Result<+T, +E> = Success(value: T) | Failure(error: E)
}
