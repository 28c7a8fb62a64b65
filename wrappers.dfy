/** Failure-carrying datatypes shared by the model: the Go code reports failures as `error` values. */
module Wrappers {

  /** A value that may be absent. */
  datatype Option<T> = None | Some(value: T)

  /** A value or the error that prevented computing it. */
  datatype Result<T, E> = Ok(value: T) | Err(error: E)

  /** Success, or the error of an operation that returns nothing else. */
  datatype Outcome<E> = Pass | Fail(error: E)
}
