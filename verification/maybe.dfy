/** The optional value used wherever the source has `null`/`undefined`. */
module Maybe {

  datatype Option<+T> = None | Some(value: T) {

    /** The value, or the given default when absent (JavaScript's `x || d` on objects). */
    function GetOr(default: T): T {
      match this
      case Some(v) => v
      case None => default
    }
  }
}
