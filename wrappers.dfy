/** Optional values and results used across the model. */
module Wrappers {

  /** A value that may be absent: Python's `None` or a missing key. */
  datatype Option<+T> = None | Some(value: T)

  /** The outcome of a step that can raise an exception. */
  datatype Result<+T, +E> = Ok(value: T) | Err(error: E)
}
