/** Failure-compatible wrappers used across the model. */
module Outcomes {

  /** A value that may be absent, like a JavaScript `undefined` result. */
  datatype Option<+T> = None | Some(value: T)

  /** A value or the error that an awaited call rejected with. */
  datatype Result<+T> = Ok(value: T) | Err(error: string)
}
