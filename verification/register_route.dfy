/** `POST /api/v1/auth/register`: validate, refuse a taken address, store a hashed password. */
module RegisterRoute {
  import opened Wrappers
  import opened Identity
  import opened Validation
  import opened Http
  import opened UserSchema
  import opened Users

  const EMAIL_TAKEN := "A user with this email already exists"
  const REGISTERED := "User registered successfully"

  /**
   * The handler. `hash` stands for `hashPassword`, `isEmail` for zod's address test, `now` for
   * the row's `created_at`. Invalid input answers 400 and an address already on file 409, both
   * without writing; otherwise one row is inserted, always as a plain user, with the normalised
   * address and the hash of the password, and returned without it. Registration through this
   * handler keeps addresses unique.
   */
  method Register(body: Json, people: UserService, isEmail: string -> bool, hash: string -> string, now: nat)
    returns (r: Reply<SafeUser>)
    requires people.Valid()
    modifies people
    ensures people.Valid()
    ensures ParseRegister(body, isEmail).Failure? ==>
      r == Invalid(ParseRegister(body, isEmail).error) && people.users == old(people.users)
    ensures ParseRegister(body, isEmail).Success? && old(people.FindByEmail(ParseRegister(body, isEmail).value.email)).Some? ==>
      r == Error(409, EMAIL_TAKEN) && people.users == old(people.users)
    ensures ParseRegister(body, isEmail).Success? && old(people.FindByEmail(ParseRegister(body, isEmail).value.email)).None? ==>
      var input := ParseRegister(body, isEmail).value;
      && r.Ok? && r.status == 201 && r.message == Some(REGISTERED)
      && r.body.id !in old(people.users)
      && people.users == old(people.users)[r.body.id := User(r.body.id, UserRole, input.name, input.email, hash(input.password), now)]
      && IsRowOf(r.body, people.users)
    ensures old(people.EmailsUnique()) ==> people.EmailsUnique()
  {
    var result := ParseRegister(body, isEmail);
    if result.Failure? {
      return Invalid(result.error);
    }
    var input := result.value;
    ghost var before := people.users;
    var existing := people.FindByEmail(input.email);
    if existing.Some? {
      return Error(409, EMAIL_TAKEN);
    }
    var hashed := hash(input.password);
    var user := people.CreateUser(NewUser(input.name, input.email, hashed, None), now);
    if UniqueEmails(before) {
      InsertFreshEmail(before, User(user.id, UserRole, input.name, input.email, hashed, now));
    }
    return Ok(201, Some(REGISTERED), user);
  }
}
