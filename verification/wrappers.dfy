/** Failure-compatible optional values, used for parse results, absent catalogue
    entries, unset selections and requests that were never sent. */
module Wrappers {

  /** `None` stands for JavaScript's `undefined`, `null` or `NaN`, whichever the
      source uses to mean "no value here". */
  datatype Option<+T> = None | Some(value: T) {

    /** The wrapped value, or `default` when there is none (the source's `x || d`
        and `x ?? d`). */
    function GetOr(default: T): (r: T)
      ensures Some? ==> r == value
      ensures None? ==> r == default
    {
      match this
      case Some(v) => v
      case None => default
    }
  }
}
