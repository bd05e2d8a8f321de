/** Failure-compatible result types shared by the constructors of the constraint catalogue. */
module Wrappers {

  /** An optional value: a bound that may be absent (infinite), a centre that may default to the origin. */
  datatype Option<+T> = None | Some(value: T)

  /** The outcome of a validating constructor: the built value, or why the parameters were refused. */
  datatype Result<+T, +E> = Success(value: T) | Failure(error: E)
}
