/** Result type for the operations that raise in the original, and the kinds of
    exception they raise. */
module Wrappers {

  /** What went wrong, one constructor per exception site of the original. */
  datatype Error =
    | DecodeFailure            // a record tuple of neither 2 nor 4 codes
    | UnknownSelection         // a dataset or group name that the store does not hold
    | UnboundEquivalences      // a model name that selects no equivalence table
    | KeyError                 // lookup of a key that a dict does not hold
    | EmptyMatrix              // a (parent, child) pair that is not a relation
    | UnknownParent            // a parent that the decay table does not hold
    | UnsupportedPrimary       // isospin propagation for a primary other than p or n
    | NoIsospinRelation        // isospin propagation for a secondary without a rule
    | TypeError                // an operation applied to a value of the wrong type
    | IndexError               // an index beyond the end of a sequence
    | EmCrossSectionCollision  // an EM cross section for a projectile already present
    | DictsAndFileName         // both yield dictionaries and a file name were given
    | UnknownProcess           // a high-energy process the low-energy model lacks
    | AssertionFailure         // a failed `assert` statement
    | RecursionDepth           // the interpreter's recursion limit was reached
    | ZeroDivision             // a division by zero

  /** The outcome of a procedure that returns nothing but may raise. */
  datatype Outcome = Pass | Fail(error: Error)

  datatype Option<+T> = None | Some(value: T)

  datatype Result<+T> = Ok(value: T) | Err(error: Error) {
    predicate IsFailure() { Err? }

    function PropagateFailure<U>(): Result<U>
      requires Err?
    {
      Err(error)
    }

    function Extract(): T
      requires Ok?
    {
      value
    }
  }
}
