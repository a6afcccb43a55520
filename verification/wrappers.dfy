/** Failure-compatible wrappers shared by every module of the model.
    Python's `None` results are `Option`; Python exceptions are `Result`
    failures carrying a description of the exception. */
module Wrappers {

  datatype Option<+T> = None | Some(value: T) {
    /** Python's `x if x is not None else default` */
    function GetOr(default: T): T {
      match this
      case Some(v) => v
      case None => default
    }
  }

  datatype Result<+T, +E> = Ok(value: T) | Err(error: E) {
    predicate IsFailure() {
      Err?
    }

    function PropagateFailure<U>(): Result<U, E>
      requires Err?
    {
      Err(error)
    }

    function Extract(): T
      requires Ok?
    {
      value
    }
  }
}
