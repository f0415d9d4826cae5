/** Values shared by every module: an optional value, the error a Go call
    returns, and a result that is either a value or such an error. */
module Wrappers {

  datatype Option<+T> = None | Some(value: T)

  /** A Go `error` value that is not nil; only its message is observable. */
  datatype Error = Error(message: string)

  /** A Go `error` that may be nil: `None` is nil. */
  type MaybeError = Option<Error>

  datatype Result<+T> = Ok(value: T) | Err(error: Error)
}
