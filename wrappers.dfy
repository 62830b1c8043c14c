/** Failure-carrying values shared by the whole model. */
module Wrappers {

  /** A value that may be absent: a missing object key, an empty storage slot, or NaN. */
  datatype Option<+T> = None | Some(value: T)

  /** The outcome of an operation that throws: `Err(message)` is the thrown error. */
  datatype Result<+T> = Ok(value: T) | Err(message: string)
}
