/** The optional-value type shared by every module of the model. */
module Optional {

  /** A Python value that may be absent (a missing dictionary key, a `None`). */
  datatype Option<+T> = None | Some(value: T) {

    /** The wrapped value, or `default` when absent (Python's `d.get(k, default)`). */
    function GetOr(default: T): T {
      match this
      case Some(v) => v
      case None => default
    }
  }
}
