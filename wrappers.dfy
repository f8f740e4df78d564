/** Option and Result, the shapes the TypeScript code expresses with `null` and `throw`. */
module Wrappers {

  /** `T | null` (or an argument that may be `undefined`). */
  datatype Option<+T> = None | Some(value: T) {
    function GetOr(default: T): T {
      match this
      case Some(v) => v
      case None => default
    }
  }

  /** A value, or the error a TypeScript function would have thrown. */
  datatype Result<+T, +E> = Success(value: T) | Failure(error: E)
}
