/** Failure-carrying results, the Dafny counterpart of a Python call that either returns or raises. */
module Wrappers {

  datatype Option<T> = None | Some(value: T)

  /** The value a Python function returns, or the exception it raises. */
  datatype Result<T, E> = Ok(value: T) | Err(error: E)

  /** The outcome of a Python statement that returns nothing or raises. */
  datatype Outcome<E> = Pass | Fail(error: E)
}
