/** Failure values for the operations whose .NET counterparts throw. */
module Errors {

  /** The exceptions the modelled code can raise: LINQ's `Average`, `Min`,
      `Max` and `Last` on an empty sequence, and a LINQ operator handed a
      null sequence (`ArgumentNullException`). */
  datatype Fault = EmptySequence | ArgumentNull

  /** The outcome of an operation that either returns a value or throws. */
  datatype Result<+T> = Ok(value: T) | Fail(fault: Fault)

  /** A .NET reference that may be null. */
  datatype Option<+T> = None | Some(value: T)
}
