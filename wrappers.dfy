/** Failure-compatible wrappers shared by the other modules. */
module Wrappers {

  /** An optional value: a missing key, an absent table, no error. */
  datatype Option<+T> = None | Some(value: T) {
    /** The wrapped value, or `default` when there is none. */
    function GetOr(default: T): T {
      match this
      case Some(v) => v
      case None => default
    }
  }

  /** The outcome of a call that either yields a value or raises with a message. */
  datatype Result<+R, +E> = Success(value: R) | Failure(error: E)
}
