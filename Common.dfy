/** Values shared by every controller: optional values, HTTP status codes,
    request bodies and query strings as the handlers see them. */
module Common {

  datatype Option<+T> = None | Some(value: T)

  const OK: int := 200
  const CREATED: int := 201
  const NO_CONTENT: int := 204
  const BAD_REQUEST: int := 400
  const UNAUTHORIZED: int := 401
  const FORBIDDEN: int := 403
  const NOT_FOUND: int := 404
  const SERVER_ERROR: int := 500

  /** A parsed request body or query string: a key that is absent is
      `undefined`; every present value is the submitted text. */
  type Fields = map<string, string>

  /** `fields[key]` as JavaScript reads it: `undefined` when absent. */
  function Get(fields: Fields, key: string): (r: Option<string>)
    ensures r.Some? <==> key in fields
    ensures r.Some? ==> r.value == fields[key]
  {
    if key in fields then Some(fields[key]) else None
  }

  /** JavaScript truthiness of `fields[key]`: present and not the empty string. */
  predicate Truthy(fields: Fields, key: string)
  {
    key in fields && fields[key] != ""
  }

  /** `fields[key]`, or `dflt` when the key is absent (destructuring default). */
  function GetOr(fields: Fields, key: string, dflt: string): string
  {
    if key in fields then fields[key] else dflt
  }

  /** `fields[key]` when it is truthy, as an `if (x)` test passes it on. */
  function Filter(fields: Fields, key: string): (r: Option<string>)
    ensures r.Some? <==> Truthy(fields, key)
    ensures r.Some? ==> r.value == fields[key]
  {
    if Truthy(fields, key) then Some(fields[key]) else None
  }
}
