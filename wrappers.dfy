/**
 * Optional values and the two shapes of an outcome the application passes around:
 * `{ success: true, ... }` / `{ success: false, error }`, and a call that returns or throws.
 */
module Wrappers {

  datatype Option<+T> = None | Some(value: T) {

    /** The carried value, or `default` when there is none. */
    function GetOr(default: T): T {
      match this
      case Some(v) => v
      case None => default
    }
  }

  /** A business-layer result object: `{ success: true, ... }` or `{ success: false, error: code }`. */
  datatype Result<+T> = Ok(value: T) | Err(error: string)

  /** An `await`ed call: it either returns a value or throws an `Error` with a message. */
  datatype Call<+T> = Returned(value: T) | Threw(message: string)
}
