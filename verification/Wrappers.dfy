/** Optional values and the results of fallible operations. */
module Wrappers {

  datatype Option<+T> = None | Some(value: T)

  /** The error classes an operation of the API can answer with (api/src/error.rs). */
  datatype Error =
    | BadRequest
    | NotFound
    | Forbidden
    | Conflict
    | Docker
    | Internal

  datatype Result<+T> = Ok(value: T) | Err(error: Error)

  datatype Unit = Unit
}
