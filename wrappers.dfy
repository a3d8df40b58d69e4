/** The Option datatype used throughout the model for values that may be absent
    (an unset environment variable, a row a query did not find), and Result for a step
    that either yields a value or throws an error with a message. */
module Wrappers {

  datatype Option<+T> = None | Some(value: T)

  datatype Result<+T> = Success(value: T) | Failure(error: string)
}
