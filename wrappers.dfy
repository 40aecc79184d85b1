/** Failure-carrying wrappers shared by the services. */
module Wrappers {

  /** A value that may be absent: `undefined` / `null` in the services. */
  datatype Option<+T> = None | Some(value: T)

  /** The outcome of a request handler: its data, or the error it throws. */
  datatype Result<+R, +E> = Success(value: R) | Failure(error: E)
}
