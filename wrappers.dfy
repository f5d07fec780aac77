/** Failure-compatible helper datatypes shared by every module of the model. */
module Wrappers {

  /** A value that may be missing (`undefined` / `null` in the widget). */
  datatype Option<+T> = None | Some(value: T) {
    /** The value, or `default` when it is missing (the `??` operator). */
    function GetOr(default: T): T {
      match this
      case Some(v) => v
      case None => default
    }
  }

  /** The outcome of a check that either passes or fails with an error value. */
  datatype Outcome<+E> = Pass | Fail(error: E)
}
