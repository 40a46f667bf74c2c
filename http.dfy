/** The error responses the endpoints and helpers return: 400, 401, 404 and 500. */
module Http {

  datatype HttpError =
    | BadRequest(message: string)
    | Unauthorized(message: string)
    | NotFound
    | InternalServerError(message: string)
}
