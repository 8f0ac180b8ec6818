/** Failure-carrying wrappers shared by every module of the model. */
module Wrappers {

  /** A value that may be absent: Go's nil pointer, TypeScript's undefined. */
  datatype Option<+T> = None | Some(value: T)

  /**
   * The error codes the handlers return. `Crash` stands for a request that
   * ends in a Go runtime panic (a nil pointer dereference): the caller sees a
   * failed request and receives no response message.
   */
  datatype Code = NotFound | InvalidArgument | Internal | Unknown | Crash

  /** A handler's outcome: a response, or an error code. */
  datatype Result<+T> = Ok(value: T) | Err(code: Code)
}
