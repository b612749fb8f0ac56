/** Failure-carrying results shared by every module of the model.
    Python exceptions raised by the modelled code become `Err` values; a Python
    function that falls through and returns `None` becomes an `Option`. */
module Outcomes {

  /** The exception kinds the modelled code can raise, plus NaN for a float
      result that is not a number. */
  datatype Error =
    | AssertionError(msg: string)
    | ValueError(msg: string)
    | ZeroDivisionError
    | ShapeMismatch
    | UnboundLocal(name: string)
    | ForwardRaised
    | NotANumber

  datatype Result<+T> = Ok(value: T) | Err(error: Error) {
    predicate IsFailure() {
      Err?
    }

    function PropagateFailure<U>(): Result<U>
      requires Err?
    {
      Err(error)
    }

    function Extract(): T
      requires Ok?
    {
      value
    }
  }

  datatype Option<+T> = None | Some(value: T)
}
