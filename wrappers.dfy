/** Failure-carrying results for the source's exceptions (a `KeyError` from a dict lookup). */
module Wrappers {

  datatype Option<T> = None | Some(value: T)

  datatype Result<T, E> = Success(value: T) | Failure(error: E)
}
