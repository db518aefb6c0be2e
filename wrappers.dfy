/** Optional values and results with an error, as the catalog's lookups return them. */
module Wrappers {

  /** Python's `X | None`. */
  datatype Option<+T> = None | Some(value: T)

  /** A value, or the error a query raised instead of returning one. */
  datatype Result<+T, +E> = Success(value: T) | Failure(error: E)
}
