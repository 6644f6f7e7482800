/** The optional value used wherever the application uses `null`, `undefined`
    or `NaN` to mean "no value". */
module Optional {

  datatype Option<T> = None | Some(value: T) {

    /** `x || d` for an optional value. */
    function GetOr(default: T): T {
      match this
      case Some(v) => v
      case None => default
    }
  }
}
