/** Small failure-carrying datatypes shared by every module of the model. */
module Wrappers {

  /** A value that may be absent (JavaScript's optional fields and `?? default`). */
  datatype Option<+T> = None | Some(value: T) {
    /** The contained value, or `default` when absent (JavaScript's `??`). */
    function GetOr(default: T): T {
      match this
      case Some(v) => v
      case None => default
    }
  }

  /** The result of a statement that may throw: it completed, or it threw an
      `Error` carrying `message`. */
  datatype Outcome = Ok | Thrown(message: string)
}
