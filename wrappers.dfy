/** Optional values and results with an error, as used by the handlers. */
module Wrappers {

  /** A value that may be absent (an omitted request field, a missing sub-object). */
  datatype Option<T> = None | Some(value: T)

  /** The outcome of a provider call or of a handler: a value or an error. */
  datatype Result<T, E> = Ok(value: T) | Err(error: E)
}
