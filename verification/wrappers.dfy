/** Failure-carrying result types shared by every module of the model. */
module Wrappers {

  /** A value that may be absent (a Java reference that may be null). */
  datatype Option<T> = None | Some(value: T)

  /** A computation that either yields a value or fails with an error (a thrown exception). */
  datatype Result<T, E> = Ok(value: T) | Err(error: E)

  /** A computation without a value that either passes or fails with an error. */
  datatype Outcome<E> = Pass | Fail(error: E)
}
