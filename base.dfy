/** Shared vocabulary of the task-manager backend model: optional values,
    identifiers and the HTTP status codes the route handlers answer with. */
module Base {

  /** A request field or a lookup that may be absent. */
  datatype Option<+T> = None | Some(value: T)

  /** A store identifier (a stringified ObjectId). Casting between the string
      and the ObjectId form is the identity in this model. */
  type Id = string

  const Ok: int := 200
  const Created: int := 201
  const BadRequest: int := 400
  const Forbidden: int := 403
  const NotFound: int := 404
  const ServerError: int := 500

  /** JavaScript truthiness of an optional string field: present and not "". */
  predicate Given(s: Option<string>)
  {
    s.Some? && s.value != ""
  }
}
