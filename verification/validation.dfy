/**
 * The part of zod the two schema files use: a request body as parsed JSON, the type test of
 * `z.string()` / `z.boolean()`, and length checks that run in declaration order and report
 * every failure. Results carry `flatten().fieldErrors`, the per-field issues.
 */
module Validation {
  import opened Wrappers

  /** A JSON value as `request.json()` yields it. Numbers carry no value: no schema here accepts one. */
  datatype Json = Null | Bool(b: bool) | Num | Str(s: string) | Arr(items: seq<Json>) | Obj(fields: map<string, Json>)

  /** Why a field was rejected: missing, of the wrong JSON type, or failing a check with the schema's own message. */
  datatype Problem = Required | WrongType(expected: string, received: string) | Check(message: string)

  datatype Issue = Issue(field: string, problem: Problem)

  /** zod's name for the type of a received value. */
  function TypeName(v: Json): string {
    match v
    case Null => "null"
    case Bool(_) => "boolean"
    case Num => "number"
    case Str(_) => "string"
    case Arr(_) => "array"
    case Obj(_) => "object"
  }

  /** The value zod reads for `key`: a missing key is `undefined`, here `None`. */
  function Field(body: map<string, Json>, key: string): Option<Json> {
    if key in body then Some(body[key]) else None
  }

  /** The issues of a failed parse, none for a successful one. */
  function Issues<T>(r: Result<T, seq<Issue>>): seq<Issue> {
    if r.Failure? then r.error else []
  }

  /** `z.string()` on a required field: the string, "Required" when absent, a type error otherwise. */
  function AsString(key: string, v: Option<Json>): (r: Result<string, seq<Issue>>)
    ensures r.Success? <==> v.Some? && v.value.Str?
    ensures r.Success? ==> r.value == v.value.s
    ensures r.Failure? ==> |r.error| == 1 && r.error[0].field == key
  {
    match v
    case None => Failure([Issue(key, Required)])
    case Some(Str(s)) => Success(s)
    case Some(other) => Failure([Issue(key, WrongType("string", TypeName(other)))])
  }

  /** `.min(n, message)`: an issue when `s` is shorter than `n`. */
  function MinIssue(key: string, s: string, n: nat, message: string): seq<Issue> {
    if |s| < n then [Issue(key, Check(message))] else []
  }

  /** `.max(n, message)`: an issue when `s` is longer than `n`. */
  function MaxIssue(key: string, s: string, n: nat, message: string): seq<Issue> {
    if |s| > n then [Issue(key, Check(message))] else []
  }

  /** `.optional()` around an inner schema: absent is `None`, anything else goes to the inner schema. */
  function Optional<T>(v: Option<Json>, inner: Json -> Result<T, seq<Issue>>): (r: Result<Option<T>, seq<Issue>>)
    ensures v.None? ==> r == Success(None)
    ensures v.Some? ==> (r.Success? <==> inner(v.value).Success?)
    ensures v.Some? && r.Success? ==> r.value == Some(inner(v.value).value)
  {
    match v
    case None => Success(None)
    case Some(j) =>
      match inner(j)
      case Success(x) => Success(Some(x))
      case Failure(e) => Failure(e)
  }
}
