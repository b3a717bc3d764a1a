/** Small failure-carrying datatypes shared by the whole model. */
module Basics {

  /** A value that may be absent: a JavaScript `undefined` option or a map miss. */
  datatype Option<+T> = None | Some(value: T) {

    /** The carried value, or `default` when absent (JavaScript's `??`). */
    function GetOr(default: T): T {
      match this
      case Some(v) => v
      case None => default
    }
  }

  /** The outcome of an operation that can throw: `Err` carries the message. */
  datatype Result<+T> = Ok(value: T) | Err(message: string)
}
