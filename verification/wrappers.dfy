/** Failure-carrying values used by every service operation of the model. */
module Wrappers {

  /** A value that may be absent: Java's null or an empty Optional. */
  datatype Option<+T> = None | Some(value: T) {
    function GetOr(default: T): T {
      if Some? then value else default
    }
  }

  /** The outcome of a service call: its value, or the exception it raises. */
  datatype Result<+T, +E> = Success(value: T) | Failure(error: E)

  /** The outcome of a call that returns nothing (a Java void method). */
  datatype Outcome<+E> = Pass | Fail(error: E)
}
