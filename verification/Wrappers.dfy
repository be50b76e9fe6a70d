/** The two result shapes the other modules answer with, and two small arithmetic helpers. */
module Wrappers {

  /** A value that may be absent: a null column, a row that is not there. */
  datatype Option<+T> = None | Some(value: T)

  /** What an operation of the source returns: its value, or the error that rolls its transaction back. */
  datatype Result<+T, +E> = Ok(value: T) | Err(error: E) {

    predicate IsFailure() {
      Err?
    }

    function PropagateFailure<U>(): Result<U, E>
      requires Err?
    {
      Err(error)
    }

    function Extract(): T
      requires Ok?
    {
      value
    }
  }

  function Min(a: int, b: int): (m: int) {
    if a <= b then a else b
  }

  function Max(a: int, b: int): (m: int) {
    if a <= b then b else a
  }
}
