/** `GET /api/v1/auth/me`: the signed-in user's own row, read fresh from the store. */
module MeRoute {
  import opened Wrappers
  import opened Identity
  import opened Http
  import opened Users

  const USER_NOT_FOUND := "User not found"

  /**
   * The handler: 401 without a session, 404 when the session's user no longer exists, otherwise
   * that user's stored row without its password (so the stored role, not the one in the token).
   */
  function Me(session: Option<Claim>, people: UserService): (r: Reply<SafeUser>)
    reads people
    requires people.Valid()
    ensures session.None? ==> r == Error(401, UNAUTHORIZED)
    ensures session.Some? && session.value.id !in people.users ==> r == Error(404, USER_NOT_FOUND)
    ensures r.Ok? <==> session.Some? && session.value.id in people.users
    ensures r.Ok? ==> r.status == 200 && r.message.None? && r.body.id == session.value.id && IsRowOf(r.body, people.users)
  {
    match session
    case None => Error(401, UNAUTHORIZED)
    case Some(user) =>
      match people.FindById(user.id)
      case None => Error(404, USER_NOT_FOUND)
      case Some(u) => Ok(200, None, u)
  }
}
