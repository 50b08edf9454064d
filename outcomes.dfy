/** The ways an operation of the document engine can end.
    Java signals the failures below by throwing; the model returns them. */
module Outcomes {

  datatype Option<+T> = None | Some(value: T)

  /** The runtime exceptions the engine can raise (I/O failures are not modelled). */
  datatype Failure =
    | OutOfRange        // List.get / List.set with an index outside the list
    | NullReference     // a method called on a null Category or SubCategory
    | MalformedMarker   // substring(2) on a one-character marker line "#" or "-"
    | NumberFormat      // Integer.valueOf on a digit string above 2^31 - 1

  datatype Result<+T> = Ok(value: T) | Err(failure: Failure)

  /** Outcome of an operation that changes the document. */
  datatype Status = Done | AlreadyExists | Failed(failure: Failure)
}
