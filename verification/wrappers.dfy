/** Optional values and success/failure results shared by the posts model. */
module Wrappers {

  /** A value that may be absent: an omitted argument or query parameter. */
  datatype Option<+T> = None | Some(value: T)

  /** The outcome of an operation: a value, or the error the operation raises. */
  datatype Result<+T, +E> = Ok(value: T) | Err(error: E)
}
