/** A value that may be absent: JavaScript's `null` / `undefined`. */
module Wrappers {

  datatype Option<T> = None | Some(value: T) {

    /** `value ?? fallback` */
    function GetOr(fallback: T): T {
      match this
      case Some(v) => v
      case None => fallback
    }
  }
}
