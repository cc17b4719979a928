/** Option and Result, the two failure-carrying datatypes the rest of the model uses. */
module Wrappers {

  /** `None` stands for JavaScript's `undefined` wherever a value may be missing. */
  datatype Option<+T> = None | Some(value: T)

  /** `Err` stands for an exception the JavaScript code would throw. */
  datatype Result<+T, +E> = Ok(value: T) | Err(error: E)
}
