/** Option and Result values, and the kinds of exception the timelog parser can raise. */
module Base {

  datatype Option<+T> = None | Some(value: T)

  /** The exceptions that reach a caller of the parser, one constructor per kind. */
  datatype Error =
    | ParseError(line: int)   // a line that is not "<timestamp>: <comment>"; carries the index it was read at
    | TypeError               // subscripting the empty-line marker as if it were an entry
    | IndexError              // an index outside the sequence of lines
    | ValueError              // a calendar date that does not exist (day or year out of range)
    | OverflowError           // a date moved outside the years 1..9999 by day arithmetic

  /** The value an operation returns, or the exception it raises. */
  datatype Result<+T> = Ok(value: T) | Err(error: Error)

  /** Completion of an operation that returns nothing. */
  datatype Outcome = Done | Failed(error: Error)
}
