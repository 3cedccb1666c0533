/** Failure-carrying results. A thrown JavaScript exception is modelled as
    `Err(message)`; a statement that may throw but yields nothing as `Outcome`. */
module Wrappers {

  datatype Option<+T> = None | Some(value: T)

  datatype Result<+T> = Ok(value: T) | Err(message: string) {
    predicate IsFailure() { Err? }

    function PropagateFailure<U>(): Result<U>
      requires Err?
    {
      Err(message)
    }

    function Extract(): T
      requires Ok?
    {
      value
    }
  }

  datatype Outcome = Done | Thrown(message: string) {
    predicate IsFailure() { Thrown? }

    function PropagateFailure(): Outcome
      requires Thrown?
    {
      this
    }
  }

  /** The message every `TypeError` of the source is reduced to. */
  const TypeError: string := "TypeError"

  /** The message of the `SyntaxError` an invalid regular expression throws. */
  const SyntaxError: string := "SyntaxError"
}
