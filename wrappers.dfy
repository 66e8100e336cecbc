/** Optional values and results with an error, as Go's `(value, err)` pairs are modelled. */
module Wrappers {

  datatype Option<+T> = None | Some(value: T)

  datatype Result<+T, +E> = Success(value: T) | Failure(error: E)
}
