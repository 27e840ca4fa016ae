/** Shapes shared by every route handler: request-body values, JSON
    responses and the status codes the handlers send. */
module Http {

  datatype Option<T> = None | Some(value: T)

  /** One key of a JSON request body, as a handler reads it after
      destructuring `req.body`: the key is missing (`undefined`), it holds
      `null`, or it holds a value. */
  datatype Field<T> = Undefined | Null | Given(value: T)

  /** JavaScript truthiness of a string-valued body key: present, not null
      and not the empty string. */
  predicate Truthy(f: Field<string>) {
    f.Given? && f.value != ""
  }

  /** `f || null`: a falsy key is stored as SQL NULL. */
  function OrNull(f: Field<string>): (r: Option<string>)
    ensures r.Some? <==> Truthy(f)
    ensures r.Some? ==> f == Given(r.value)
  {
    if Truthy(f) then Some(f.value) else None
  }

  const OK := 200
  const CREATED := 201
  const BAD_REQUEST := 400
  const UNAUTHORIZED := 401
  const FORBIDDEN := 403
  const NOT_FOUND := 404
  const SERVER_ERROR := 500

  /** A JSON response: a status with a payload, or a status with the
      `message`/`error` string of the error body. */
  datatype Response<T> = Success(status: int, body: T) | Failure(status: int, message: string)

  /** What a state-changing handler leaves behind: the response it sent and
      the tables after it. */
  datatype Handled<T, S> = Handled(response: Response<T>, state: S)

  /** The range of a PostgreSQL INTEGER column (`cart_items.quantity`,
      `products.quantity`); writing a value outside it makes the statement
      fail. */
  const INTEGER_MIN := -0x8000_0000
  const INTEGER_MAX := 0x7FFF_FFFF

  predicate FitsInteger(n: int) {
    INTEGER_MIN <= n <= INTEGER_MAX
  }
}
