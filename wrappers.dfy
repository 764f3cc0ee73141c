/** Failure-compatible results for the Java methods that can throw. */
module Wrappers {

  /** A Java reference that may be null. */
  datatype Option<+T> = None | Some(value: T)

  /** The exceptions the modelled code lets escape. */
  datatype Failure =
    | SqlException            // raised by the driver or by a converter
    | NullPointerException    // a null cell, or a null `Integer` unboxed to `int`

  /** A `void` method that either returns normally or throws. */
  datatype Outcome = Pass | Fail(failure: Failure)

  /** A value-returning method that either returns normally or throws. */
  datatype Result<+T> = Ok(value: T) | Err(failure: Failure)
}
