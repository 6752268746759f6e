/** Values shared by every part of the backend model: optional values, the
    errors the controllers hand to express, roles, the authenticated caller and
    the loosely typed values of a request body. */
module Common {

  datatype Option<T> = None | Some(value: T) {
    function GetOr(default: T): T {
      if Some? then value else default
    }
  }

  /** The error classes of the backend. `Thrown` is a plain `Error` raised by a
      service or a library and passed on with `next(error)` (an internal error). */
  datatype Error =
    | BadRequest(msg: string)
    | NotFound(msg: string)
    | Forbidden(msg: string)
    | Unauthorized(msg: string)
    | Thrown(msg: string)

  datatype Result<T> = Ok(value: T) | Err(error: Error)

  datatype Role = ADMIN | HR | USER

  predicate IsAdminOrHr(r: Role) {
    r == ADMIN || r == HR
  }

  /** `req.user`: the user that the authentication middleware loaded for the token. */
  datatype Caller = Caller(id: int, role: Role, companyId: int)

  /** A value of a JSON request body; `VDate(raw)` is `new Date(raw)`, whose
      parsing is not modelled. A key absent from a body map is `undefined`. */
  datatype Value =
    | VNull
    | VBool(b: bool)
    | VNum(n: real)
    | VStr(s: string)
    | VDate(raw: Value)

  /** JavaScript truthiness of a body value. */
  predicate Truthy(v: Value) {
    match v
    case VNull => false
    case VBool(b) => b
    case VNum(n) => n != 0.0
    case VStr(s) => s != ""
    case VDate(_) => true
  }

  /** JavaScript truthiness of an optional number (`undefined` is `None`). */
  predicate TruthyNum(o: Option<real>) {
    o.Some? && o.value != 0.0
  }

  /** `x || null` for an optional string field. */
  function OrNull(s: Option<string>): (r: Option<string>)
    ensures r.Some? <==> s.Some? && s.value != ""
    ensures r.Some? ==> r == s
  {
    if s.Some? && s.value != "" then s else None
  }

  /** `x || null` for an optional string, as a stored value. */
  function StrOrNull(s: Option<string>): Value {
    var o := OrNull(s);
    if o.Some? then VStr(o.value) else VNull
  }

  function MaxInt(a: int, b: int): int {
    if a < b then b else a
  }

  function MaxReal(a: real, b: real): real {
    if a < b then b else a
  }

  /** Some element of a non-empty set, in no particular order. */
  method Pick<T>(s: set<T>) returns (x: T)
    requires s != {}
    ensures x in s
  {
    x :| x in s;
  }
}
