/** Small result types shared by the crawler modules. */
module Wrappers {

  /** A value that may be missing (a markup element or a dictionary key that is absent). */
  datatype Option<+T> = None | Some(value: T) {
    function GetOr(default: T): T {
      match this
      case Some(v) => v
      case None => default
    }
  }

  /** The result of one HTTP request: the payload, or a transport failure
      (connection error, timeout, non-2xx status). */
  datatype Fetch<+T> = Ok(payload: T) | Fail

  /** How a Python call ends: it returns a value, or an exception escapes it. */
  datatype Outcome<+T> = Returned(value: T) | Raised
}
