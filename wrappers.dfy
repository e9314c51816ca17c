/** Optional values and results shared by every module of the model. */
module Wrappers {

  /** A value that may be absent: JavaScript's `undefined`, a query that finds nothing. */
  datatype Option<+T> = None | Some(value: T)

  /** The outcome of an operation that may throw: the value, or the error's message. */
  datatype Result<+T> = Ok(value: T) | Err(message: string)
}
