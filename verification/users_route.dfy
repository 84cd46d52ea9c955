/** `GET /api/v1/users`: the user list, for administrators only. */
module UsersRoute {
  import opened Wrappers
  import opened Identity
  import opened Http
  import opened Users
  import Middleware

  const ADMIN_REQUIRED := "Forbidden: Admin access required"

  /**
   * The handler: 401 without a session, 403 for a non-admin, otherwise every user once,
   * without passwords, newest first.
   */
  function List(session: Option<Claim>, people: UserService): (r: Reply<seq<SafeUser>>)
    reads people
    requires people.Valid()
    ensures session.None? ==> r == Error(401, UNAUTHORIZED)
    ensures session.Some? && session.value.role != AdminRole ==> r == Error(403, ADMIN_REQUIRED)
    ensures r.Ok? <==> session.Some? && session.value.role == AdminRole
    ensures r.Ok? ==>
      && r.status == 200 && r.message.None?
      && |r.body| == |people.users|
      && (forall i :: 0 <= i < |r.body| ==> IsRowOf(r.body[i], people.users))
      && (forall k :: k in people.users ==> Safe(people.users[k]) in r.body)
      && (forall i, j :: 0 <= i < j < |r.body| ==> r.body[i].createdAt >= r.body[j].createdAt)
  {
    match session
    case None => Error(401, UNAUTHORIZED)
    case Some(user) =>
      if user.role != AdminRole then Error(403, ADMIN_REQUIRED)
      else Ok(200, None, people.GetAllUsers())
  }

  /**
   * Behind the middleware the handler's own refusals are never seen: the middleware already
   * answers 401 and 403 for this path, and its 403 text differs from the handler's.
   */
  lemma MiddlewareRefusesFirst(session: Option<Claim>, people: UserService)
    requires people.Valid()
    requires session.None? || session.value.role != AdminRole
    ensures List(session, people).Error?
    ensures Middleware.Decide("/api/v1/users", session) != Middleware.Next
    ensures session.Some? ==> Middleware.Decide("/api/v1/users", session) == Middleware.FORBIDDEN
    ensures Middleware.FORBIDDEN.error != ADMIN_REQUIRED
  {
    var path := "/api/v1/users";
    assert '.' !in path && path[..5] == "/api/";
    Middleware.PlainApiPath(path);
    Middleware.UsersApiIsAdminOnly(path, session);
  }
}
