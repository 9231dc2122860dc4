/** The results an endpoint returns, one constructor per HTTP status the controllers produce,
    and the guard on the identity claim that every protected endpoint begins with. */
module Responses {
  import opened Models

  datatype ActionResult<T> =
    | Ok(value: T)                  // 200
    | Created(value: T)             // 201
    | NoContent                     // 204
    | BadRequest(message: string)   // 400
    | Unauthorized(message: string) // 401
    | NotFound(message: string)     // 404
    | InternalError(message: string) // 500

  const NotAuthenticated := "User not authenticated"

  /** string.IsNullOrEmpty on the NameIdentifier claim: the claim is missing or empty. */
  predicate IsNullOrEmpty(claim: Option<string>)
  {
    claim.None? || claim.value == ""
  }
}
