/** The failures the genome function can raise, and the types that carry them. */
module Outcomes {

  /** The exceptions `CartesianGenomeFunc` lets escape to its caller. */
  datatype Error =
    | GenomeLengthMismatch            // set_genome: the length assertion fails
    | GeneOutOfRange                  // set_genome: some gene is outside [0, 1]
    | IndexError                      // a list index that is out of range
    | TypeError                       // a basis function called with too few arguments
    | BasisFunctionError(msg: string) // raised inside a user-supplied basis function

  /** A value, or the exception raised while computing it. */
  datatype Result<+T> = Ok(value: T) | Err(error: Error) {
    predicate IsFailure() { Err? }

    function PropagateFailure<U>(): Result<U>
      requires Err?
    {
      Err(error)
    }

    function Extract(): T
      requires Ok?
    {
      value
    }
  }

  /** The outcome of an operation that returns nothing (Python's `None`) or raises. */
  datatype Outcome = Pass | Fail(error: Error)

  /** An optional constructor argument (Python's `None` default). */
  datatype Option<+T> = None | Some(value: T)
}
