/** Option and Result, the two failure-carrying datatypes the model uses for
    nil values, missing keys and raised errors. */
module Wrappers {

  datatype Option<+T> = None | Some(value: T)

  /** A value or a raised error; `:-` propagates the error, as an exception
      leaves a Python block. */
  datatype Result<+R, +E> = Ok(value: R) | Err(error: E)
  {
    predicate IsFailure() { Err? }

    function PropagateFailure<U>(): Result<U, E>
      requires Err?
    {
      Err(error)
    }

    function Extract(): R
      requires Ok?
    {
      value
    }
  }
}
