/** Wrappers used across the model: Ruby's nil becomes None,
    a raised exception becomes Failure or Fail. */
module Wrappers {

  datatype Option<+T> = None | Some(value: T)

  datatype Result<+R, +E> = Success(value: R) | Failure(error: E)

  /** The outcome of an operation that either completes or raises. */
  datatype Outcome<+E> = Pass | Fail(error: E)
}

/** The two exception classes the core raises, each with its exact message. */
module Errors {

  datatype Error =
    | ArgumentError(message: string)
    | InvalidDataError(message: string)
}
