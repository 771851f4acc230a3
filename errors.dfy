/** The error model: every error names its kind and the offending token. */
module Errors {
  import opened Tokens

  datatype ErrorType =
    | InvalidToken
    | UnterminatedString
    | BadNumber
    | NumberParseError
    | UnexpectedToken
    | UnterminatedBlock
    | ExpectedName
    | UndefinedWord
    | UnsupportedObject
    | StackUnderflow
    | TypeError
    | DivisionByZero
    | InvalidString
    | IOError

  datatype ExecError = ExecError(errorType: ErrorType, token: Token)

  datatype Option<T> = None | Some(value: T)

  datatype Result<T, E> = Ok(value: T) | Err(error: E)

  /** A fallible step that fails with one error. */
  type BoxResult<T> = Result<T, ExecError>

  /** The batch outcome of the scanner: every error, or every result. */
  datatype MaybeErrors<T> = Errors(errors: seq<ExecError>) | Results(results: T)
}
