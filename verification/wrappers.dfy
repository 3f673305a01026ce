/** Failure-carrying values: the outcome of parsing an amount and of submitting an expense. */
module Wrappers {

  /** `None` stands for "no value", e.g. a number that did not parse. */
  datatype Option<+T> = None | Some(value: T)

  /** Either the value an operation produced or the reason it refused. */
  datatype Result<+R, +E> = Success(value: R) | Failure(error: E)
}
