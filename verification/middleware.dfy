/**
 * The edge middleware that runs before every route: a cascade of tests on the request path
 * and on the identity decoded from the session cookie. Token verification itself is a
 * library call; here its result is the `user` argument (`None` for a missing, forged or
 * expired token).
 */
module Middleware {
  import opened Wrappers
  import opened Text
  import opened Identity

  /** Page prefixes reserved to administrators. */
  const ADMIN_PATHS: seq<string> := ["/admin"]

  /** Page prefixes meant for visitors who are not logged in. */
  const AUTH_PATHS: seq<string> := ["/auth/login", "/auth/register"]

  /** What the middleware answers: let the request through, a JSON error, or a redirect. */
  datatype Outcome = Next | Json(status: nat, error: string) | Redirect(location: string)

  const UNAUTHORIZED := Json(401, "Unauthorized")
  const FORBIDDEN := Json(403, "Forbidden:- Admin access required")

  /** `prefixes.some((p) => path.startsWith(p))`. */
  predicate StartsWithAny(path: string, prefixes: seq<string>) {
    exists i :: 0 <= i < |prefixes| && StartsWith(path, prefixes[i])
  }

  /** Framework-internal paths and anything that looks like a file. */
  predicate IsAssetPath(path: string) {
    StartsWith(path, "/_next") || StartsWith(path, "/favicon") || '.' in path
  }

  /** The two API endpoints reachable without a session; equality, not prefix, tests. */
  predicate IsPublicApi(path: string) {
    path == "/api/v1/auth/register" || path == "/api/v1/auth/login"
  }

  predicate IsApi(path: string) {
    StartsWith(path, "/api/")
  }

  /** The landing page of a logged-in user: `/admin` for administrators, `/dashboard` otherwise. */
  function Home(role: Role): string {
    if role == AdminRole then "/admin" else "/dashboard"
  }

  /** The `middleware` decision for `path` and the verified session `user`. */
  function Decide(path: string, user: Option<Claim>): (r: Outcome)
    // every redirect lands on one of the two home pages
    ensures r.Redirect? ==> r.location == "/admin" || r.location == "/dashboard"
    // the API is never redirected, and only the API is refused
    ensures IsApi(path) ==> !r.Redirect?
    ensures r.Json? ==> IsApi(path) && (r == UNAUTHORIZED || r == FORBIDDEN)
    // a refusal is 401 exactly when there is no session; 403 only for a non-admin on the users API
    ensures r == UNAUTHORIZED ==> user.None?
    ensures r == FORBIDDEN ==> user.Some? && user.value.role != AdminRole && StartsWith(path, "/api/v1/users")
    // a redirect happens only on the three page rules: auth pages and `/` for a session, admin pages for a non-admin
    ensures r.Redirect? ==>
      && user.Some? && !IsApi(path)
      && (StartsWithAny(path, AUTH_PATHS) || path == "/" || (StartsWithAny(path, ADMIN_PATHS) && user.value.role != AdminRole))
    // an anonymous visitor is never redirected
    ensures user.None? ==> r == Next || r == UNAUTHORIZED
    // an administrator is never refused
    ensures user.Some? && user.value.role == AdminRole ==> !r.Json?
  {
    if IsAssetPath(path) then Next
    else if IsPublicApi(path) then Next
    else if IsApi(path) then
      if user.None? then UNAUTHORIZED
      else if StartsWith(path, "/api/v1/users") && user.value.role != AdminRole then FORBIDDEN
      else Next
    else if user.Some? && StartsWithAny(path, AUTH_PATHS) then Redirect(Home(user.value.role))
    else if path == "/" then
      if user.Some? then Redirect(Home(user.value.role)) else Next
    else if user.Some? && StartsWithAny(path, ADMIN_PATHS) && user.value.role != AdminRole then
      Redirect("/dashboard")
    else Next
  }

  /** Asset-like paths pass whatever the session, API paths with a dot included. */
  lemma AssetPathsPass(path: string, user: Option<Claim>)
    requires IsAssetPath(path)
    ensures Decide(path, user) == Next
  {
  }

  lemma DottedApiPathPasses(user: Option<Claim>)
    ensures Decide("/api/v1/tasks/a.b", user) == Next
    ensures Decide("/api/v1/users/x.json", None) == Next
  {
    assert '.' in "/api/v1/tasks/a.b";
    assert '.' in "/api/v1/users/x.json";
  }

  /** An API path without a dot is no asset path, so the API rules apply to it. */
  lemma PlainApiPath(path: string)
    requires StartsWith(path, "/api/") && '.' !in path
    ensures IsApi(path) && !IsAssetPath(path)
  {
    assert path[1] == "/api/"[1] == 'a';
  }

  /** Registration and login pass with no session. */
  lemma PublicApiPasses(user: Option<Claim>)
    ensures Decide("/api/v1/auth/register", user) == Next
    ensures Decide("/api/v1/auth/login", user) == Next
  {
    var register, login := "/api/v1/auth/register", "/api/v1/auth/login";
    assert '.' !in register && register[..5] == "/api/";
    assert '.' !in login && login[..5] == "/api/";
    PlainApiPath(register);
    PlainApiPath(login);
  }

  /** The public API paths are matched exactly: a trailing slash or an extra letter needs a session. */
  lemma PublicApiIsExact()
    ensures Decide("/api/v1/auth/login/", None) == UNAUTHORIZED
    ensures Decide("/api/v1/auth/registers", None) == UNAUTHORIZED
  {
    var login, registers := "/api/v1/auth/login/", "/api/v1/auth/registers";
    assert '.' !in login && login[..5] == "/api/";
    assert '.' !in registers && registers[..5] == "/api/";
    PlainApiPath(login);
    PlainApiPath(registers);
  }

  /** Every other API path needs a session: without one the answer is 401, with one it is never 401. */
  lemma ApiNeedsSession(path: string, user: Option<Claim>)
    requires IsApi(path) && !IsAssetPath(path) && !IsPublicApi(path)
    ensures Decide(path, user) == UNAUTHORIZED <==> user.None?
  {
  }

  /** On the users API an authenticated non-admin gets 403 and an admin passes; 401 comes first. */
  lemma UsersApiIsAdminOnly(path: string, user: Option<Claim>)
    requires StartsWith(path, "/api/v1/users") && !IsAssetPath(path)
    ensures user.None? ==> Decide(path, user) == UNAUTHORIZED
    ensures user.Some? && user.value.role != AdminRole ==> Decide(path, user) == FORBIDDEN
    ensures user.Some? && user.value.role == AdminRole ==> Decide(path, user) == Next
  {
    assert path[..5] == "/api/";
    assert IsApi(path);
    assert path[8] == 'u';
    assert !IsPublicApi(path);
  }

  /** A path that starts with `prefix` agrees with it on every position the prefix covers. */
  lemma PrefixChar(path: string, prefix: string, i: nat)
    requires i < |prefix|
    ensures StartsWith(path, prefix) ==> path[i] == prefix[i]
  {
    if StartsWith(path, prefix) {
      assert path[..|prefix|][i] == path[i];
    }
  }

  /** A logged-in visitor of the login or register pages goes to their home page. */
  lemma LoggedInAuthPagesRedirect(path: string, c: Claim)
    requires !IsAssetPath(path) && StartsWithAny(path, AUTH_PATHS)
    ensures Decide(path, Some(c)) == Redirect(Home(c.role))
  {
    var i :| 0 <= i < |AUTH_PATHS| && StartsWith(path, AUTH_PATHS[i]);
    PrefixChar(path, AUTH_PATHS[i], 2);
    PrefixChar(path, "/api/", 2);
    assert path[2] == 'u' && !IsApi(path);
  }

  /** `/` sends a logged-in visitor home and lets an anonymous one through. */
  lemma RootPage(user: Option<Claim>)
    ensures user.Some? ==> Decide("/", user) == Redirect(Home(user.value.role))
    ensures user.None? ==> Decide("/", user) == Next
  {
    assert !IsAssetPath("/") && !IsApi("/") && !StartsWithAny("/", AUTH_PATHS);
  }

  /** Admin pages: a logged-in non-admin is sent to `/dashboard`; admins and anonymous visitors pass. */
  lemma AdminPagesDowngrade(path: string, user: Option<Claim>)
    requires !IsAssetPath(path) && StartsWith(path, "/admin")
    ensures user.Some? && user.value.role != AdminRole ==> Decide(path, user) == Redirect("/dashboard")
    ensures user.None? || user.value.role == AdminRole ==> Decide(path, user) == Next
  {
    PrefixChar(path, "/admin", 2);
    PrefixChar(path, "/api/", 2);
    PrefixChar(path, AUTH_PATHS[0], 2);
    PrefixChar(path, AUTH_PATHS[1], 2);
    assert path[2] == 'd' && !IsApi(path) && !IsPublicApi(path) && path != "/";
    assert !StartsWithAny(path, AUTH_PATHS);
    assert StartsWith(path, ADMIN_PATHS[0]);
  }

  /** Any other page passes, whoever asks: nothing outside the three page rules is redirected. */
  lemma OtherPagesPass(path: string, user: Option<Claim>)
    requires !IsApi(path) && path != "/"
    requires user.Some? ==> !StartsWithAny(path, AUTH_PATHS)
    requires user.Some? && user.value.role != AdminRole ==> !StartsWithAny(path, ADMIN_PATHS)
    ensures Decide(path, user) == Next
  {
  }

  /** The admin prefix test is textual: `/administrator` counts as an admin page. */
  lemma AdminPrefixIsTextual(c: Claim)
    requires c.role == UserRole
    ensures Decide("/administrator", Some(c)) == Redirect("/dashboard")
  {
    var path := "/administrator";
    assert '.' !in path && path[1] == 'a' && path[..6] == "/admin";
    AdminPagesDowngrade(path, Some(c));
  }

  /** The users-API prefix test is textual: `/api/v1/usersettings` is refused to a non-admin. */
  lemma UsersPrefixIsTextual(c: Claim)
    requires c.role == UserRole
    ensures Decide("/api/v1/usersettings", Some(c)) == FORBIDDEN
  {
    var path := "/api/v1/usersettings";
    assert '.' !in path && path[..5] == "/api/" && path[..13] == "/api/v1/users";
    PlainApiPath(path);
    UsersApiIsAdminOnly(path, Some(c));
  }
}
