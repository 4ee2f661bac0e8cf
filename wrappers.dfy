/** Optional values and the two-way outcome of a call into the REST service. */
module Wrappers {

  /** A value that may be absent: `null`/`undefined` in the UI code. */
  datatype Option<+T> = None | Some(value: T) {
    function GetOr(default: T): T {
      match this
      case Some(v) => v
      case None => default
    }
  }

  /** What a service call resolved to: the parsed body, or the message of the thrown Error. */
  datatype Result<+T> = Ok(value: T) | Err(message: string)
}
