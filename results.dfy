/** Failure-compatible wrappers and the error taxonomy of the brick structure core. */
module Results {

  /** Why a scoring request was refused. */
  datatype Reason = CollidingBricks | OutOfBoundsBricks

  /** The exceptions the core raises, by kind. */
  datatype Error =
    | FormatError                       // ValueError: ill-formatted text or LDraw line, bad number, bad matrix
    | MissingKey                        // KeyError: unknown dimensions, brick id or part id, malformed record
    | IndexError                        // IndexError: last element of an empty list, layer outside the grid
    | PreconditionError(reason: Reason) // ValueError raised before calling an external scorer
    | EmptyReduction                    // ValueError: maximum of a zero-size score array

  datatype Option<+T> = None | Some(value: T) {
    predicate IsFailure() { None? }
    function PropagateFailure<U>(): Option<U> requires None? { None }
    function Extract(): T requires Some? { value }
  }

  datatype Result<+T> = Ok(value: T) | Err(error: Error) {
    predicate IsFailure() { Err? }
    function PropagateFailure<U>(): Result<U> requires Err? { Err(error) }
    function Extract(): T requires Ok? { value }
  }

  /** Failure of an operation that returns nothing. */
  datatype Outcome = Pass | Fail(error: Error)

  /** Turns a missing value into the given error. */
  function OrFail<T>(o: Option<T>, e: Error): (r: Result<T>)
    ensures r.Ok? <==> o.Some?
    ensures r.Ok? ==> r.value == o.value
    ensures r.Err? ==> r.error == e
  {
    match o
    case Some(v) => Ok(v)
    case None => Err(e)
  }
}
