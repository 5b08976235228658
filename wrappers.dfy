/** Optional values and results that carry either a value or a failure. */
module Wrappers {

  /** A value that may be absent: stands for a Java reference that may be null. */
  datatype Option<+T> = None | Some(value: T)

  /** The outcome of an operation that may throw: either its value or the failure it raises. */
  datatype Result<+T, +E> = Ok(value: T) | Err(error: E)
}
