/** The responses the Functions app writes through Helpers/HttpJson.cs: a status code with a
    JSON body, or with `{ error = message }` for the error codes. */
module Http {
  datatype Response<T> =
    | Ok(body: T)
    | Created(body: T)
    | NoContent
    | BadRequest(error: string)
    | NotFound(error: string)
    | InternalServerError(error: string)
}
