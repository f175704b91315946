/** Option and Result values standing for JavaScript's `null` results and thrown errors. */
module Wrappers {

  datatype Option<+T> = None | Some(value: T)

  /** `Err` carries what a JavaScript function would have thrown (or the error response it sends). */
  datatype Result<+T, +E> = Ok(value: T) | Err(error: E)
}
