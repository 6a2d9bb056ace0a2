/** Option values, and the outcome of a call that may raise. */
module Wrappers {

  datatype Option<+T> = None | Some(value: T)

  /** What a call does: it returns a value or raises an exception. */
  datatype Outcome<+T, +E> = Returned(value: T) | Raised(fault: E)
}
