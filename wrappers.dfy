/** Failure-carrying values used in place of the thrown errors and the optional
    (possibly `undefined`) arguments of the client. */
module Wrappers {

  /** A value that may be absent, as a TypeScript `T | undefined`. */
  datatype Option<+T> = None | Some(value: T)

  /** The outcome of an operation that either returns a value or throws. */
  datatype Result<+T, +E> = Ok(value: T) | Err(error: E)
}
