// The absent-or-present value that stands for the source's `null`, `undefined` and missing fields.
module Options {
  datatype Option<+T> = None | Some(value: T) {
    /** The source's `x ?? d`. */
    function GetOr(d: T): T {
      match this
      case Some(v) => v
      case None => d
    }
  }
}
