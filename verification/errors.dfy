/** The two exceptions the constructors of the core throw, as values. */
module Errors {

  datatype Error =
    | NullPointerException       // a required reference was null
    | IllegalArgumentException   // an empty set of consumers where one is mandatory

  /** The outcome of an operation that either yields a value or throws. */
  datatype Result<T> = Ok(value: T) | Err(error: Error)
}
