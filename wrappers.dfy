/** Option and Result, and the kinds of failure the modelled Java code throws. */
module Wrappers {

  datatype Option<+T> = None | Some(value: T)

  /** The exception classes the modelled code raises, as values. */
  datatype Failure =
    | JsonParse            // JsonParseException (syntax errors of the tokenizer and parser)
    | Runtime              // RuntimeException / JsonStructException
    | IndexOutOfBounds     // IndexOutOfBoundsException and its array/string variants
    | IllegalArgument      // IllegalArgumentException
    | NumberFormat         // NumberFormatException
    | OutOfMemory          // OutOfMemoryError("Required array length too large")
    | NoSuchElement        // NoSuchElementException (Optional.orElseThrow)
    | NegativeArraySize    // NegativeArraySizeException (new char[n] with n < 0)

  datatype Result<+T> = Ok(value: T) | Err(failure: Failure)
  {
    predicate IsFailure() { Err? }
    function PropagateFailure<U>(): Result<U> requires Err? { Err(failure) }
    function Extract(): T requires Ok? { value }
  }
}
