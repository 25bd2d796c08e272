/** Optional values and results with an error, used where the Python code
    returns None or raises an exception. */
module Wrappers {

  datatype Option<+T> = None | Some(value: T)

  /** The outcome of an operation that may raise: the value, or the name of
      the exception the Python code would raise. */
  datatype Result<+T> = Ok(value: T) | Err(error: string)
}
