/** Go `error` values as the controller sees them. A Go `error` that may be
    nil is an `Option<Err>`: `None` is nil. */
module Errors {
  import opened Wrappers

  datatype Err =
    | NotFound(resource: string)           // an API status error for which apierrors.IsNotFound holds
    | ApiFailure(text: string)             // any other error from a client, a lister or a callback
    | Aggregate(errs: seq<Err>)            // errors.NewAggregate of a non-empty list
    | Message(text: string)                // fmt.Errorf of a ready-made text
    | Wrapped(context: string, cause: Err) // fmt.Errorf("<context>: %v", cause)
    | ShuttingDown(cause: Err)             // the shutdown error of updateOperatorStatus

  predicate IsNotFound(e: Err) {
    e.NotFound?
  }

  /** errors.NewAggregate: nil for an empty list, otherwise one error holding
      the list in order. */
  function NewAggregate(errs: seq<Err>): Option<Err> {
    if errs == [] then None else Some(Aggregate(errs))
  }
}
