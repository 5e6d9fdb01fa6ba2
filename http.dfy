/** The HTTP status codes the backend answers with. */
module Http {
  type Status = nat

  const Ok: Status := 200
  const Created: Status := 201
  const BadRequest: Status := 400
  const Unauthorized: Status := 401
  const Forbidden: Status := 403
  const NotFound: Status := 404
  const Conflict: Status := 409
  const InternalError: Status := 500
}
