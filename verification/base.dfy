/** Failure-carrying wrappers shared by every module of the model. */
module Base {

  /** Python's `None`-or-value. */
  datatype Option<+T> = None | Some(value: T) {

    /** The value, or `default` when absent (Python's `d.get(k, default)` idiom). */
    function GetOr(default: T): T {
      match this
      case Some(v) => v
      case None => default
    }
  }

  /** A value, or the exception that replaced it, as `str(e)` prints it. */
  datatype Result<+R> = Ok(value: R) | Raised(message: string)
}
