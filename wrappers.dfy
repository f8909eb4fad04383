/** Values that stand for what the contract's JavaScript returns or throws. */
module Wrappers {

  /** A value that may be missing, as `undefined` or `null` are in the source. */
  datatype Option<+T> = None | Some(value: T)

  /** A transaction that returns a value or throws an error. */
  datatype Result<+T, +E> = Success(value: T) | Failure(error: E)

  /** A transaction that returns nothing (`Promise<void>`) or throws an error. */
  datatype Outcome<+E> = Pass | Fail(error: E)
}
