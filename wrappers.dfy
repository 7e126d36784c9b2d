/** Option and Result, used for JavaScript's `undefined` and for exceptions. */
module Wrappers {

  /** `None` stands for a key that is absent or `undefined`. */
  datatype Option<+T> = None | Some(value: T)

  /** `Err` stands for an exception thrown out of the code being modelled. */
  datatype Result<+T, +E> = Ok(value: T) | Err(error: E)
}
