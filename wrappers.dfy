/** Optional values and results with an error, for the places where the
    application returns `None` or raises a validation error. */
module Wrappers {

  datatype Option<+T> = None | Some(value: T)

  datatype Result<+T, +E> = Success(value: T) | Failure(error: E)
}
