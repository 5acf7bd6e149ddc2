/** Helper datatypes shared by the model. */
module Wrappers {

  /** A value that may be absent (JavaScript's `null` / `undefined` for an object). */
  datatype Option<+T> = None | Some(value: T)

  /** A value or the error that the source would throw instead of returning. */
  datatype Result<+T, +E> = Ok(value: T) | Err(error: E)
}
