/** The outcome of a validation: whether it passed, a message for the
    user, and the `error_type` detail a failing check records. */
module ServiceBase {
  import opened PyStr

  datatype ValidationResult = ValidationResult(isValid: bool, message: string, errorType: Option<string>)

  function Passed(message: string): ValidationResult
  {
    ValidationResult(true, message, None)
  }

  function Rejected(message: string, errorType: string): ValidationResult
  {
    ValidationResult(false, message, Some(errorType))
  }

  /** The `error_type` of a result, "" when it records none. */
  function ErrorType(r: ValidationResult): string
  {
    if r.errorType.Some? then r.errorType.value else ""
  }
}
