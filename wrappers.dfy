/** Option and Result, used for nullable columns, lookups that may miss
    and handlers that either return a row or throw. */
module Wrappers {

  datatype Option<+T> = None | Some(value: T)

  datatype Result<+R, +E> = Success(value: R) | Failure(error: E)
}
