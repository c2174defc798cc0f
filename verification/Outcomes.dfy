/** The result of an operation that the program guards with `assert` or `abort`. */
module Outcomes {

  datatype Outcome<+T> = Ok(value: T) | Aborted {

    predicate IsFailure() {
      Aborted?
    }

    function PropagateFailure<U>(): Outcome<U>
      requires Aborted?
    {
      Aborted
    }

    function Extract(): T
      requires Ok?
    {
      value
    }
  }
}
