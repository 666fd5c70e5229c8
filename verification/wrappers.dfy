/** Failure-compatible result types shared by the model.
    Python's `None` returns become `Option`, and the exceptions the source
    raises (a `KeyError` on a missing key, a `ZeroDivisionError`, ...) become
    the `Failure` arm of `Result`. */
module Wrappers {

  datatype Option<+T> = None | Some(value: T) {
    function GetOr(default: T): T {
      match this
      case Some(v) => v
      case None => default
    }
  }

  /** The exceptions the modelled Python code can raise. */
  datatype Error =
    | KeyError(key: string)
    | ZeroDivisionError
    | TypeError(reason: string)
    | AttributeError(reason: string)

  datatype Result<+R> = Success(value: R) | Failure(error: Error) {
    predicate IsFailure() {
      Failure?
    }

    function PropagateFailure<U>(): Result<U>
      requires Failure?
    {
      Failure(error)
    }

    function Extract(): R
      requires Success?
    {
      value
    }
  }
}
