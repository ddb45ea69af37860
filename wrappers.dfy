/** Result types shared by every module of the model. */
module Wrappers {

  /** An optional value: `Option<T>` of the Rust source. */
  datatype Option<+T> = None | Some(value: T)

  /** `Result<T, E>` of the Rust source. */
  datatype Result<+T, +E> = Success(value: T) | Failure(error: E)

  /** `Result<(), E>` of the Rust source. */
  datatype Outcome<+E> = Pass | Fail(error: E)
}
