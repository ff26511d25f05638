/** The two Python exceptions the modelled code can raise, as values. */
module Outcomes {

  datatype Error =
    | IndexOutOfRange   // IndexError: a list index past the end
    | DivisionByZero    // ZeroDivisionError: `%` or `//` by zero

  datatype Result<T> = Ok(value: T) | Err(error: Error)
}
