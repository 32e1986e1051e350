/** The exceptions the modelled Python code can raise, and the result types
    that carry them instead of a Python exception. */
module Failures {

  /** The Python exception a failing operation raises. */
  datatype Error =
    | AssertionError     // `**` with an exponent that is not a number
    | ZeroDivisionError  // zero raised to a negative power
    | TypeError          // a layer fed a single Value instead of a list
    | IndexError         // fewer activation names than layers

  /** The value of an expression that either returns or raises. */
  datatype Result<T> = Ok(value: T) | Err(error: Error)

  /** The end of a statement sequence that returns nothing or raises. */
  datatype Outcome = Pass | Fail(error: Error)
}
