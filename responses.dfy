/** The JSON responses the handlers send, one constructor per HTTP status class. */
module Responses {

  datatype Outcome<+T> =
    | Ok(value: T)                 // 200 or 201, `success: true`, `data: value`
    | BadRequest(message: string)  // 400
    | Forbidden(message: string)   // 403
    | NotFound(message: string)    // 404
    | Conflict(message: string)    // 409
    | ServerError(message: string) // 500, the handler's catch block
}
