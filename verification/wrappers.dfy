/** Failure-carrying datatypes used by the model for the source's exceptions
    and for values it leaves unassigned. */
module Wrappers {

  datatype Option<+T> = None | Some(value: T)

  /** Success carries the value; Failure carries the error the source raises. */
  datatype Result<+R, +E> = Success(value: R) | Failure(error: E)
}
