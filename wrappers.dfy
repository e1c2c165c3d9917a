/** Optional values and error results shared by every module. */
module Wrappers {
  /** A value that may be absent: JavaScript `undefined`/`null`, Java `null`. */
  datatype Option<T> = None | Some(value: T)

  /** The outcome of an operation that may throw. */
  datatype Result<T, E> = Ok(value: T) | Err(error: E)
}
