/** Option and Result, the two failure-carrying types the model is written with. */
module Wrappers {

  /** A value that may be missing: JavaScript's `undefined` where the source allows it. */
  datatype Option<T> = None | Some(value: T)

  /** The outcome of a step that may throw: the value it returns, or what it throws. */
  datatype Result<T, E> = Ok(value: T) | Err(error: E) {

    predicate IsFailure() {
      Err?
    }

    function PropagateFailure<U>(): Result<U, E>
      requires Err?
    {
      Err(error)
    }

    function Extract(): T
      requires Ok?
    {
      value
    }
  }
}
