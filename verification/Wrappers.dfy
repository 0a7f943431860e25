/** Result types shared by the models. */
module Wrappers {

  datatype Option<+T> = None | Some(value: T)

  /** What running a piece of a program leads to.

      `Panic` is a Go panic, or a failed template rendering.  `Stuck` marks runs that Go's type checker
      rules out (an operand of the wrong type, an undeclared variable), and operations on values that the model
      does not have; the templates have no such notion.
      `Timeout` says that the budget of nested calls ran out: a run that times out for every budget diverges. */
  datatype Res<+T> = Ok(value: T) | Panic | Stuck | Timeout {

    predicate IsFailure() {
      !Ok?
    }

    function PropagateFailure<U>(): Res<U>
      requires IsFailure()
    {
      match this
      case Panic => Panic
      case Stuck => Stuck
      case Timeout => Timeout
    }

    function Extract(): T
      requires Ok?
    {
      value
    }
  }

  /** Success, or the error a Go function returns. */
  datatype Result<+T, +E> = Success(value: T) | Failure(error: E) {

    predicate IsFailure() {
      Failure?
    }

    function PropagateFailure<U>(): Result<U, E>
      requires IsFailure()
    {
      Failure(error)
    }

    function Extract(): T
      requires Success?
    {
      value
    }
  }
}
