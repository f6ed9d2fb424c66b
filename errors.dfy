/** The grid reports misuse by throwing IllegalArgumentException; the model
    returns these values instead, one constructor per message. */
module Errors {

  datatype Error =
    | SizeNotPositive   // "n must be greater than 0"
    | RowOutOfBounds    // "row index out of bounds"
    | ColOutOfBounds    // "col index out of bounds"

  /** The outcome of an operation that computes a value or throws. */
  datatype Result<+T> = Ok(value: T) | Err(error: Error)

  /** The outcome of an operation that returns nothing or throws. */
  datatype Outcome = Pass | Fail(error: Error)
}
