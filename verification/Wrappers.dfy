/** Result types shared by the model, and the errors the native engine raises. */
module Wrappers {

  datatype Option<+T> = None | Some(value: T)

  /** One constructor for each error that a property of the model distinguishes. */
  datatype Error =
    | BadPath            // a path that does not address what the caller expects
    | CycleDetected      // the materializer met an occurrence it is still visiting
    | DeadOccurrence     // the materializer met an occurrence that is not live
    | StaleHandle        // an index outside its table
    | ExpectedOneEdge    // more than one edge on a single-edge operation
    | CannotApply        // an operation key the materializer does not handle
    | BadPayload         // a source module of the wrong shape
    | BadSelector        // a malformed path selector
    | MissingName        // an identifier overlay on an unnamed record
    | NoUniqueCandidate  // a batch request that does not select one record
    | UnfilledHole       // a parameter hole that is still there after the splices
    | DuplicateVariadic  // a second * or ** parameter
    | BadMarker          // a marker call of the wrong shape

  datatype Result<+T> = Ok(value: T) | Err(error: Error) {
    predicate IsFailure() {
      Err?
    }

    function PropagateFailure<U>(): Result<U>
      requires Err?
    {
      Err(error)
    }

    function Extract(): T
      requires Ok?
    {
      value
    }
  }
}
