/** Option, Result and Outcome: the model's stand-ins for C# nullable values,
    values-or-exceptions, and operations that either return normally or throw. */
module Wrappers {

  datatype Option<+T> = None | Some(value: T) {
    /** The C# `??` operator: the value if present, otherwise the fallback. */
    function OrElse(fallback: T): T {
      match this
      case Some(v) => v
      case None => fallback
    }
  }

  datatype Result<+T, +E> = Success(value: T) | Failure(error: E)

  /** Pass: the operation returned normally; Fail(e): it threw e. */
  datatype Outcome<+E> = Pass | Fail(error: E)
}
