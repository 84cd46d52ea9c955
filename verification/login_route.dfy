/** `POST /api/v1/auth/login`: check the credentials, answer with the user and set the session cookie. */
module LoginRoute {
  import opened Wrappers
  import opened Tables
  import opened Identity
  import opened Validation
  import opened Http
  import opened Text
  import opened UserSchema
  import opened Users

  const BAD_CREDENTIALS := "Invalid email or password"
  const LOGGED_IN := "Login successful"

  /** The `user` object of a successful login: no password and no `created_at`. */
  datatype LoginUser = LoginUser(id: Id, name: string, email: string, userType: Role)

  /** The response and the claim signed into the cookie it sets, if any. */
  datatype LoginResponse = LoginResponse(reply: Reply<LoginUser>, cookie: Option<Claim>)

  /**
   * The handler. `compare` stands for `comparePassword(plain, hash)`, `isEmail` for zod's
   * address test. A cookie is set exactly when the answer is 200; an unknown address and a
   * wrong password get the same 401; a success signs the stored user's id, address and role.
   */
  function Login(body: Json, people: UserService, isEmail: string -> bool, compare: (string, string) -> bool): (r: LoginResponse)
    reads people
    requires people.Valid()
    ensures r.cookie.Some? <==> r.reply.Ok?
    ensures ParseLogin(body, isEmail).Failure? ==> r == LoginResponse(Invalid(ParseLogin(body, isEmail).error), None)
    ensures r.reply.Error? ==> r == LoginResponse(Error(401, BAD_CREDENTIALS), None)
    ensures ParseLogin(body, isEmail).Success? && !r.reply.Ok? ==> r == LoginResponse(Error(401, BAD_CREDENTIALS), None)
    ensures r.reply.Ok? <==>
      && ParseLogin(body, isEmail).Success?
      && people.FindByEmail(ParseLogin(body, isEmail).value.email).Some?
      && compare(ParseLogin(body, isEmail).value.password, people.FindByEmail(ParseLogin(body, isEmail).value.email).value.password)
    ensures r.reply.Ok? ==>
      var u := people.FindByEmail(ParseLogin(body, isEmail).value.email).value;
      && u.id in people.users && people.users[u.id] == u
      && r.reply == Ok(200, Some(LOGGED_IN), LoginUser(u.id, u.name, u.email, u.userType))
      && r.cookie == Some(Claim(u.id, u.email, u.userType))
  {
    match ParseLogin(body, isEmail)
    case Failure(details) => LoginResponse(Invalid(details), None)
    case Success(input) =>
      match people.FindByEmail(input.email)
      case None => LoginResponse(Error(401, BAD_CREDENTIALS), None)
      case Some(user) =>
        if !compare(input.password, user.password) then LoginResponse(Error(401, BAD_CREDENTIALS), None)
        else
          LoginResponse(Ok(200, Some(LOGGED_IN), LoginUser(user.id, user.name, user.email, user.userType)),
                        Some(Claim(user.id, user.email, user.userType)))
  }

  /**
   * A user stored as registration stores them logs in with the same password and any ASCII-case
   * variant of the address, and the session names that user: provided addresses are unique
   * and `compare` accepts a password against its own hash.
   */
  lemma RegisteredUserCanLogIn(reg: Json, login: Json, people: UserService, id: Id,
                               isEmail: string -> bool, hash: string -> string, compare: (string, string) -> bool)
    requires people.Valid() && people.EmailsUnique()
    requires ParseRegister(reg, isEmail).Success? && ParseLogin(login, isEmail).Success?
    requires ToLower(Raw(reg, "email")) == ToLower(Raw(login, "email"))
    requires Raw(login, "password") == Raw(reg, "password")
    requires forall p :: compare(p, hash(p))
    requires id in people.users
    requires people.users[id].email == ParseRegister(reg, isEmail).value.email
    requires people.users[id].password == hash(ParseRegister(reg, isEmail).value.password)
    ensures Login(login, people, isEmail, compare).cookie == Some(Claim(id, people.users[id].email, people.users[id].userType))
  {
    LoginKeyMatchesRegisterKey(reg, login, isEmail);
    people.FindByEmailFinds(id);
  }
}
