/** The exception classes the services raise, and the result of an
    operation that either returns a value or raises one of them. */
module Errors {

  datatype Error =
    | ServiceError(message: string)
    | ValidationError(message: string)
    | PathError(message: string)
    | GitError(message: string)
    | ValueError(message: string)
    | RuntimeError(message: string)
    | FileNotFoundError(message: string)
    | KeyError(key: string)
    | TypeError(message: string)

  datatype Result<T> = Ok(value: T) | Err(error: Error)
  {
    predicate IsFailure() { Err? }

    function PropagateFailure<U>(): Result<U>
      requires Err?
    {
      Err(error)
    }

    function Extract(): T
      requires Ok?
    {
      value
    }
  }
}
