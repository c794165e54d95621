/** Optional values and the settled result of a remote call. */
module Wrappers {

  /** A value that may be absent (JavaScript `null` / `undefined`). */
  datatype Option<+T> = None | Some(value: T)

  /** How a call to the remote user service settles: a resolved value, or a
      rejection carrying the error's message. */
  datatype Outcome<+T> = Success(value: T) | Failure(message: string)
}
