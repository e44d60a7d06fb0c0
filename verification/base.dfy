/** Optional values and results shared by every module. */
module Base {

  /** A value that may be absent: JavaScript's `undefined` / `null`. */
  datatype Option<+T> = None | Some(value: T)

  /** The outcome of an operation that may throw: `Ok` or the thrown error. */
  datatype Result<+T, +E> = Ok(value: T) | Err(error: E)
}
