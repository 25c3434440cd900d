/** Option and Outcome wrappers used where the JavaScript source returns
    `undefined` or throws. */
module Wrappers {

  datatype Option<+T> = None | Some(value: T)

  /** The result of a call that may throw: `Ok` carries the returned value,
      `Throw` the error that was thrown. */
  datatype Result<+T, +E> = Ok(value: T) | Throw(error: E)
}
