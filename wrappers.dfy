/** Optional values and operations that can fail, as the JavaScript code uses
    `null`/`undefined` and thrown `Error`s. */
module Wrappers {

  /** A value that may be absent (`null` or `undefined` in the source). */
  datatype Option<+T> = None | Some(value: T) {

    /** The value, or `default` when absent (the `x || default` idiom on a present-or-absent field). */
    function GetOr(default: T): T {
      match this
      case Some(v) => v
      case None => default
    }
  }

  /** The outcome of a store operation: a value, or the message of the thrown `Error`. */
  datatype Result<+T> = Ok(value: T) | Err(message: string)
}
