/** Shared wrappers: an optional value and the outcome of a request handler. */
module Common {

  datatype Option<+T> = None | Some(value: T)

  /** What a route handler answers: a success body (HTTP 200), or an error
      status with the JSON `message` the handler sends. */
  datatype Result<+T> = Ok(value: T) | Err(status: nat, message: string)
}
