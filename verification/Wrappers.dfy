/** Optional values and results that carry an API error. */
module Wrappers {

  datatype Option<+T> = None | Some(value: T) {
    predicate IsFailure() {
      None?
    }

    function PropagateFailure<U>(): Option<U>
      requires None?
    {
      None
    }

    function Extract(): T
      requires Some?
    {
      value
    }
  }

  /** The error classes of `ApiError` that the modelled code can return. */
  datatype ApiError =
    | BadRequest(message: string)
    | Unauthorized(message: string)
    | Conflict(message: string)
    | NotFound(message: string)
    | Internal(message: string)

  datatype Result<+T> = Ok(value: T) | Err(error: ApiError) {
    predicate IsFailure() {
      Err?
    }

    function PropagateFailure<U>(): Result<U>
      requires Err?
    {
      Err(error)
    }

    function Extract(): T
      requires Ok?
    {
      value
    }
  }
}
