/** Option and Result values, and the Python exceptions the modelled code raises. */
module Wrappers {

  datatype Option<+T> = None | Some(value: T)

  /** The exceptions raised by the modelled code, by their Python class. */
  datatype Error =
    | KeyError        // a dict lookup of an absent key
    | AssertionError  // a failed `assert`
    | TypeError       // a call with the wrong number of arguments
    | NoTestsError    // `run` found no tests left after omission
    | FalsyFilename   // the watcher was given an empty filename

  datatype Result<+T> = Success(value: T) | Failure(error: Error) {
    predicate IsFailure() { Failure? }

    function PropagateFailure<U>(): Result<U>
      requires Failure?
    {
      Failure(error)
    }

    function Extract(): T
      requires Success?
    {
      value
    }
  }

  /** The outcome of an operation that returns nothing but may raise. */
  datatype Outcome = Pass | Fail(error: Error) {
    predicate IsFailure() { Fail? }

    function PropagateFailure(): Outcome
      requires Fail?
    {
      this
    }
  }
}
