/**
 * `registerSchema` and `loginSchema`. Whether a string is an e-mail address is zod's own regular
 * expression; the model takes it as the predicate `isEmail`.
 */
module UserSchema {
  import opened Wrappers
  import opened Text
  import opened Validation

  /** The validated registration body: no role field, so a registrant cannot pick `user_type`. */
  datatype RegisterInput = RegisterInput(name: string, email: string, password: string)

  datatype LoginInput = LoginInput(email: string, password: string)

  const NAME_TOO_SHORT := "Name must be at least 2 characters"
  const NAME_TOO_LONG := "Name must be at most 255 characters"
  const INVALID_EMAIL := "Invalid email address"
  const EMAIL_TOO_LONG := "Email must be at most 255 characters"
  const PASSWORD_TOO_SHORT := "Password must be at least 6 characters"
  const PASSWORD_TOO_LONG := "Password must be at most 100 characters"
  const PASSWORD_REQUIRED := "Password is required"

  /** `.trim().toLowerCase()`, the lookup key an e-mail address is stored and searched under. */
  function NormalizeEmail(s: string): (r: string)
    ensures Trim(r) == r && ToLower(r) == r
  {
    TrimLowerCommute(Trim(s));
    TrimIdempotent(s);
    ToLowerIdempotent(Trim(s));
    ToLower(Trim(s))
  }

  /** The raw string under `key` is a string whose length is in `lo..hi`. */
  predicate StringIn(body: Json, key: string, lo: nat, hi: nat) {
    body.Obj? && key in body.fields && body.fields[key].Str? && lo <= |body.fields[key].s| <= hi
  }

  /** The raw string under `key`, or the empty string when there is none. */
  function Raw(body: Json, key: string): string {
    if body.Obj? && key in body.fields && body.fields[key].Str? then body.fields[key].s else ""
  }

  /** `name`: 2 to 255 characters before trimming, then trimmed. */
  function RegisterName(v: Option<Json>): (r: Result<string, seq<Issue>>)
    ensures r.Success? <==> v.Some? && v.value.Str? && 2 <= |v.value.s| <= 255
    ensures r.Success? ==> r.value == Trim(v.value.s)
    ensures r.Failure? ==> r.error != []
  {
    match AsString("name", v)
    case Failure(e) => Failure(e)
    case Success(s) =>
      var issues := MinIssue("name", s, 2, NAME_TOO_SHORT) + MaxIssue("name", s, 255, NAME_TOO_LONG);
      if issues == [] then Success(Trim(s)) else Failure(issues)
  }

  /** Registration `email`: an address of at most 255 characters as sent, then normalised. */
  function RegisterEmail(v: Option<Json>, isEmail: string -> bool): (r: Result<string, seq<Issue>>)
    ensures r.Success? <==> v.Some? && v.value.Str? && isEmail(v.value.s) && |v.value.s| <= 255
    ensures r.Success? ==> r.value == NormalizeEmail(v.value.s)
    ensures r.Failure? ==> r.error != []
  {
    match AsString("email", v)
    case Failure(e) => Failure(e)
    case Success(s) =>
      var issues := (if isEmail(s) then [] else [Issue("email", Check(INVALID_EMAIL))]) + MaxIssue("email", s, 255, EMAIL_TOO_LONG);
      if issues == [] then Success(NormalizeEmail(s)) else Failure(issues)
  }

  /** Registration `password`: 6 to 100 characters, kept as sent. */
  function RegisterPassword(v: Option<Json>): (r: Result<string, seq<Issue>>)
    ensures r.Success? <==> v.Some? && v.value.Str? && 6 <= |v.value.s| <= 100
    ensures r.Success? ==> r.value == v.value.s
    ensures r.Failure? ==> r.error != []
  {
    match AsString("password", v)
    case Failure(e) => Failure(e)
    case Success(s) =>
      var issues := MinIssue("password", s, 6, PASSWORD_TOO_SHORT) + MaxIssue("password", s, 100, PASSWORD_TOO_LONG);
      if issues == [] then Success(s) else Failure(issues)
  }

  /** Login `email`: an address of any length, then normalised. */
  function LoginEmail(v: Option<Json>, isEmail: string -> bool): (r: Result<string, seq<Issue>>)
    ensures r.Success? <==> v.Some? && v.value.Str? && isEmail(v.value.s)
    ensures r.Success? ==> r.value == NormalizeEmail(v.value.s)
    ensures r.Failure? ==> r.error != []
  {
    match AsString("email", v)
    case Failure(e) => Failure(e)
    case Success(s) => if isEmail(s) then Success(NormalizeEmail(s)) else Failure([Issue("email", Check(INVALID_EMAIL))])
  }

  /** Login `password`: any non-empty string, kept as sent. */
  function LoginPassword(v: Option<Json>): (r: Result<string, seq<Issue>>)
    ensures r.Success? <==> v.Some? && v.value.Str? && v.value.s != ""
    ensures r.Success? ==> r.value == v.value.s
    ensures r.Failure? ==> r.error != []
  {
    match AsString("password", v)
    case Failure(e) => Failure(e)
    case Success(s) =>
      var issues := MinIssue("password", s, 1, PASSWORD_REQUIRED);
      if issues == [] then Success(s) else Failure(issues)
  }

  /** `registerSchema.safeParse(body)`: every field is checked and all issues are reported. */
  function ParseRegister(body: Json, isEmail: string -> bool): (r: Result<RegisterInput, seq<Issue>>)
    ensures r.Success? <==>
      && StringIn(body, "name", 2, 255)
      && StringIn(body, "email", 0, 255) && isEmail(Raw(body, "email"))
      && StringIn(body, "password", 6, 100)
    ensures r.Success? ==>
      && r.value.name == Trim(Raw(body, "name"))
      && r.value.email == NormalizeEmail(Raw(body, "email"))
      && r.value.password == Raw(body, "password")
    ensures r.Failure? && body.Obj? ==> r.error != []
  {
    match body
    case Obj(f) =>
      var name := RegisterName(Field(f, "name"));
      var email := RegisterEmail(Field(f, "email"), isEmail);
      var password := RegisterPassword(Field(f, "password"));
      if name.Success? && email.Success? && password.Success? then
        Success(RegisterInput(name.value, email.value, password.value))
      else Failure(Issues(name) + Issues(email) + Issues(password))
    case _ => Failure([])
  }

  /** `loginSchema.safeParse(body)`: no length bound on the e-mail, and any non-empty password. */
  function ParseLogin(body: Json, isEmail: string -> bool): (r: Result<LoginInput, seq<Issue>>)
    ensures r.Success? <==>
      && body.Obj? && "email" in body.fields && body.fields["email"].Str? && isEmail(Raw(body, "email"))
      && "password" in body.fields && body.fields["password"].Str? && Raw(body, "password") != ""
    ensures r.Success? ==>
      && r.value.email == NormalizeEmail(Raw(body, "email"))
      && r.value.password == Raw(body, "password")
    ensures r.Failure? && body.Obj? ==> r.error != []
  {
    match body
    case Obj(f) =>
      var email := LoginEmail(Field(f, "email"), isEmail);
      var password := LoginPassword(Field(f, "password"));
      if email.Success? && password.Success? then Success(LoginInput(email.value, password.value))
      else Failure(Issues(email) + Issues(password))
    case _ => Failure([])
  }

  /** A `user_type` sent with a registration is stripped: the validated input is the same without it. */
  lemma RegisterIgnoresUserType(f: map<string, Json>, v: Json, isEmail: string -> bool)
    ensures ParseRegister(Obj(f["user_type" := v]), isEmail) == ParseRegister(Obj(f), isEmail)
  {
    var g := f["user_type" := v];
    assert Field(g, "name") == Field(f, "name");
    assert Field(g, "email") == Field(f, "email");
    assert Field(g, "password") == Field(f, "password");
  }

  /**
   * Logging in with the address registered under any ASCII-case variant of it gives the same
   * lookup key that registration stored.
   */
  lemma LoginKeyMatchesRegisterKey(reg: Json, login: Json, isEmail: string -> bool)
    requires ParseRegister(reg, isEmail).Success? && ParseLogin(login, isEmail).Success?
    requires ToLower(Raw(reg, "email")) == ToLower(Raw(login, "email"))
    ensures ParseLogin(login, isEmail).value.email == ParseRegister(reg, isEmail).value.email
  {
    CaseVariantsNormaliseAlike(Raw(reg, "email"), Raw(login, "email"));
  }

  /** A login password has no upper bound: a valid address and any non-empty password pass validation. */
  lemma LoginPasswordHasNoMaximum(email: string, password: string, isEmail: string -> bool)
    requires isEmail(email) && password != []
    ensures ParseLogin(Obj(map["email" := Str(email), "password" := Str(password)]), isEmail).Success?
  {
  }
}
