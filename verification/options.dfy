/**
 * Optional values. Which JavaScript value `None` stands for (`undefined`,
 * `null`, a missing key or `NaN`) is said where each use is declared.
 */
module Options {

  datatype Option<+T> = None | Some(value: T) {

    /** The value, or `default` when absent (JavaScript's `x ?? default`). */
    function GetOr(default: T): (r: T)
      ensures Some? ==> r == value
      ensures None? ==> r == default
    {
      match this
      case Some(v) => v
      case None => default
    }
  }
}
