/** Failure results shared by every part of the model. */
module Wrappers {

  datatype Option<T> = None | Some(value: T)

  /**
   * The failures the model distinguishes.  `InvalidArg` is the
   * E_INVALIDARG HRESULT, `Overflow` the INTSAFE narrowing failure, and the
   * last four stand for code paths that do not fail cleanly but read past a
   * string, write past an array, dereference a null pointer or divide by
   * zero.
   */
  datatype Error = InvalidArg | Overflow | OutOfBoundsRead | OutOfBoundsWrite | NullDereference | DivideByZero

  datatype Result<T> = Ok(value: T) | Err(error: Error) {
    predicate IsFailure() { Err? }

    function PropagateFailure<U>(): Result<U>
      requires Err?
    {
      Err(error)
    }

    function Extract(): T
      requires Ok?
    {
      value
    }
  }

  /** The end of a step that returns nothing but may fail. */
  datatype Outcome = Pass | Fail(error: Error)
}
