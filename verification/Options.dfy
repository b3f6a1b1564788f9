module Options {

  /** A Python value that may be `None`. */
  datatype Option<+T> = None | Some(value: T) {

    /** The value, or a default when there is none. */
    function GetOr(default: T): T {
      match this
      case None => default
      case Some(v) => v
    }
  }
}
