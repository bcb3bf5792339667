/** Failure-carrying datatypes used by the long-polling model. */
module Wrappers {

  /** A value that may be absent, as a JSON field that is missing or null. */
  datatype Option<+T> = None | Some(value: T)

  /** The outcome of one protocol step that either yields a value or an error report. */
  datatype Result<+R, +E> = Success(value: R) | Failure(error: E)
}
