/** Values shared by every part of the storefront model. */
module Common {

  /** A value that may be absent: JavaScript's `undefined`/`null` next to a present value. */
  datatype Option<+T> = None | Some(value: T) {
    function GetOr(default: T): T {
      match this
      case Some(v) => v
      case None => default
    }
  }

  /** The answer of one call into the hosted database: it went through, or it came back with an error. */
  datatype Outcome = Ok | Failed(message: string)
}
