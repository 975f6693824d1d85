/** Failure-compatible wrappers shared by the ledger modules. */
module Wrappers {

  datatype Option<+T> = None | Some(value: T)

  /** The outcome of a request handler that answers with a value or an error. */
  datatype Result<+R, +E> = Success(value: R) | Failure(error: E)

  /** The outcome of a request handler that only answers "success" or an error. */
  datatype Outcome<+E> = Pass | Fail(error: E)
}
