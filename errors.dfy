/** Failure values shared by the duration parser and the normalising constructor. */
module Errors {

  /** The closed classification of everything that can go wrong; a failure carries
      its kind and nothing else. */
  datatype ParseError =
    | TooShort
    | ExtraCharacters
    | DurationInvalidNumber
    | DurationInvalidFraction
    | DurationTRepeated
    | DurationInvalidDateUnit
    | DurationInvalidTimeUnit
    | DurationInvalidDays
    | InvalidCharMinute
    | InvalidCharSecond
    | OutOfRangeMinute
    | OutOfRangeSecond
    | DurationValueTooLarge
    | DurationDaysTooLarge

  /** Either a value or the kind of failure; usable with `:-`. */
  datatype Result<+T> = Ok(value: T) | Err(error: ParseError) {

    predicate IsFailure() {
      Err?
    }

    function PropagateFailure<U>(): Result<U>
      requires Err?
    {
      Err(error)
    }

    function Extract(): T
      requires Ok?
    {
      value
    }
  }

  datatype Option<+T> = None | Some(value: T)
}
