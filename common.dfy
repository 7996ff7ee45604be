/** Shared value types: optional values, results, and the Python exceptions
    that the converters can raise. */
module Common {

  /** A value that may be missing (Python's None, or a NaN default). */
  datatype Option<+T> = None | Some(value: T)

  /** The Python exceptions the modelled code can raise. */
  datatype Error =
    | IndexError          // a list index past the end
    | ValueError          // float() of text that is not a number
    | TypeError           // float(None), e.g. the text of an empty element
    | ZeroDivisionError   // division by a zero reading
    | UnboundLocalError   // a local variable read before any branch assigned it

  /** The outcome of an operation that either returns a value or raises. */
  datatype Result<+T> = Ok(value: T) | Err(error: Error)
}
