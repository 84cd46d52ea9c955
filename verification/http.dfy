/** The JSON responses the route handlers answer with: a status code and a body. */
module Http {
  import opened Wrappers
  import opened Validation

  const UNAUTHORIZED := "Unauthorized"

  /**
   * A handler's answer: a success with an optional `message` beside the payload, an
   * `{ error }` body, or the 400 `{ error: "Validation failed", details }` body.
   */
  datatype Reply<T> =
    | Ok(status: nat, message: Option<string>, body: T)
    | Error(status: nat, error: string)
    | Invalid(details: seq<Issue>)
}
