/** Failure-carrying results shared by the ledger modules. */
module Wrappers {

  /** A value that may be absent: what a repository `findBy…` returns. */
  datatype Option<+T> = None | Some(value: T)

  /** The outcome of a call that either returns a value or throws an error code. */
  datatype Result<+R, +E> = Success(value: R) | Failure(error: E)

  /** The outcome of a call that returns nothing (`void`) or throws an error code. */
  datatype Outcome<+E> = Pass | Fail(error: E)
}
