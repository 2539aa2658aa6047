/** Optional values and HTTP-style replies shared by the route modules. */
module Wrappers {

  datatype Option<+T> = None | Some(value: T)

  /** What a route answers: a 2xx body, or one of the error statuses the
      routes use (400, 404, 409, 500) with the message they send. */
  datatype Reply<+T> =
    | Ok(value: T)
    | BadRequest(message: string)
    | NotFound(message: string)
    | Conflict(message: string)
    | ServerError(message: string)
  {
    /** The HTTP status code the route sends. `created` tells a 201 route
        from a 200 one. */
    function StatusCode(created: bool): (code: nat)
      ensures Ok? <==> 200 <= code < 300
    {
      match this
      case Ok(_) => if created then 201 else 200
      case BadRequest(_) => 400
      case NotFound(_) => 404
      case Conflict(_) => 409
      case ServerError(_) => 500
    }
  }
}
