/** Value wrappers shared by the whole model: JavaScript's `undefined`/`null`
    become `None`, and an expression that throws a `TypeError` while being
    evaluated becomes `TypeError`. */
module Basics {

  datatype Option<+T> = None | Some(value: T) {
    /** `x ?? fallback`: the wrapped value, or the fallback when absent. */
    function GetOr(fallback: T): T {
      match this
      case Some(v) => v
      case None => fallback
    }
  }

  /** The outcome of evaluating a JavaScript expression that may throw. */
  datatype Eval<+T> = Returned(value: T) | TypeError
}
