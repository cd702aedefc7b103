/** What a route handler answers, with the HTTP status codes abstracted away. */
module Api {
  import opened Common

  /** The error bodies: 401, 404 and 400 (the match route's 400 may carry a score), and the 500 of every catch block. */
  datatype Error =
    | Unauthorized
    | NotFound(message: string)
    | BadRequest(message: string, matchScore: Option<real>)
    | InternalError

  /** A handler's answer: a success payload or one of the errors above. */
  datatype Response<+T> = Ok(value: T) | Fail(error: Error)
}
