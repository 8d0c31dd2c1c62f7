/** Optional values and results with an error, for lookups that may miss
    and for the operations that abort with an exception in the original. */
module Wrappers {

  datatype Option<T> = None | Some(value: T)

  datatype Result<T, E> = Success(value: T) | Failure(error: E)

  /** The exceptions the original raises and does not catch. */
  datatype Error = KeyError | IndexError | ZeroDivisionError
}
