/** `UserService`: the `users` table and the queries the routes run against it. */
module Users {
  import opened Wrappers
  import opened Tables
  import opened Identity

  /** A row of `users`, password hash included. */
  datatype User = User(id: Id, userType: Role, name: string, email: string, password: string, createdAt: nat)

  /** `SafeUser`: a user without the password field, the only shape the service hands out by id or in lists. */
  datatype SafeUser = SafeUser(id: Id, userType: Role, name: string, email: string, createdAt: nat)

  function Safe(u: User): SafeUser {
    SafeUser(u.id, u.userType, u.name, u.email, u.createdAt)
  }

  /** `s` is the password-free view of the row stored under its id. */
  predicate IsRowOf(s: SafeUser, users: map<Id, User>) {
    s.id in users && s == Safe(users[s.id])
  }

  /** The argument of `createUser`; `userType` absent means a plain user. */
  datatype NewUser = NewUser(name: string, email: string, password: string, userType: Option<Role>)

  /** The argument of `updateUser`: `None` is `undefined`. */
  datatype UserPatch = UserPatch(name: Option<string>, password: Option<string>)

  /** JavaScript truthiness of an optional string: defined and not empty. */
  predicate Truthy(s: Option<string>) {
    s.Some? && s.value != ""
  }

  /** The row after `updateUser`'s UPDATE: the truthy fields replaced, identity, e-mail and role kept. */
  function Patched(u: User, p: UserPatch): (r: User)
    ensures r.id == u.id && r.email == u.email && r.userType == u.userType && r.createdAt == u.createdAt
    ensures r.name == (if Truthy(p.name) then p.name.value else u.name)
    ensures r.password == (if Truthy(p.password) then p.password.value else u.password)
  {
    u.(name := if Truthy(p.name) then p.name.value else u.name,
       password := if Truthy(p.password) then p.password.value else u.password)
  }

  /** The rows of `users` without passwords, newest first. */
  function NewestUsers(users: map<Id, User>): (r: seq<SafeUser>)
    requires forall k :: k in users ==> users[k].id == k
    ensures |r| == |users|
    ensures forall i :: 0 <= i < |r| ==> IsRowOf(r[i], users)
    ensures forall k :: k in users ==> Safe(users[k]) in r
    ensures forall i, j :: 0 <= i < j < |r| ==> r[i].id != r[j].id
    ensures forall i, j :: 0 <= i < j < |r| ==> r[i].createdAt >= r[j].createdAt
  {
    var ids := NewestFirst(map k | k in users :: users[k].createdAt, users.Keys);
    var r := SafeRows(users, ids);
    ListingOrder(users, ids, r);
    r
  }

  /** The password-free rows under `ids`, in that order. */
  function SafeRows(users: map<Id, User>, ids: seq<Id>): (r: seq<SafeUser>)
    requires forall i :: 0 <= i < |ids| ==> ids[i] in users
    ensures |r| == |ids| && forall i :: 0 <= i < |ids| ==> r[i] == Safe(users[ids[i]])
  {
    seq(|ids|, i requires 0 <= i < |ids| => Safe(users[ids[i]]))
  }

  lemma ListingOrder(users: map<Id, User>, ids: seq<Id>, r: seq<SafeUser>)
    requires forall k :: k in users ==> users[k].id == k
    requires ids == NewestFirst(map k | k in users :: users[k].createdAt, users.Keys)
    requires r == SafeRows(users, ids)
    ensures |r| == |users|
    ensures forall i :: 0 <= i < |r| ==> IsRowOf(r[i], users)
    ensures forall k :: k in users ==> Safe(users[k]) in r
    ensures forall i, j :: 0 <= i < j < |r| ==> r[i].id != r[j].id
    ensures forall i, j :: 0 <= i < j < |r| ==> r[i].createdAt >= r[j].createdAt
  {
    var stamp := map k | k in users :: users[k].createdAt;
    forall i | 0 <= i < |r| ensures r[i].id == ids[i] && IsRowOf(r[i], users) {
      assert ids[i] in users;
    }
    forall i, j | 0 <= i < j < |r| ensures r[i].id != r[j].id && r[i].createdAt >= r[j].createdAt {
      assert stamp[ids[i]] >= stamp[ids[j]];
    }
    forall k | k in users ensures Safe(users[k]) in r {
      var i :| 0 <= i < |ids| && ids[i] == k;
      assert r[i] == Safe(users[k]);
    }
  }

  /** No two rows of `users` share an e-mail address. */
  ghost predicate UniqueEmails(users: map<Id, User>) {
    forall j, k :: j in users && k in users && users[j].email == users[k].email ==> j == k
  }

  /** Storing a row whose address no other row has keeps addresses unique. */
  lemma InsertFreshEmail(users: map<Id, User>, row: User)
    requires UniqueEmails(users)
    requires !exists k :: k in users && users[k].email == row.email
    ensures UniqueEmails(users[row.id := row])
  {
  }

  class UserService {
    var users: map<Id, User>
    var nextId: Id

    /** Each row is stored under its own id, and ids still to be issued are unused. */
    ghost predicate Valid()
      reads this
    {
      forall k :: k in users ==> users[k].id == k && k < nextId
    }

    /** No two users share an e-mail address. */
    ghost predicate EmailsUnique()
      reads this
    {
      UniqueEmails(users)
    }

    constructor ()
      ensures Valid() && EmailsUnique() && users == map[]
    {
      users := map[];
      nextId := 0;
    }

    /** `createUser`: inserts a row (role defaulting to `"user"`) and returns it without its password. */
    method CreateUser(data: NewUser, now: nat) returns (u: SafeUser)
      requires Valid()
      modifies this
      ensures Valid()
      ensures u.id !in old(users)
      ensures users == old(users)[u.id := User(u.id, data.userType.GetOr(UserRole), data.name, data.email, data.password, now)]
      ensures u == Safe(users[u.id])
    {
      var row := User(nextId, data.userType.GetOr(UserRole), data.name, data.email, data.password, now);
      users := users[nextId := row];
      nextId := nextId + 1;
      u := Safe(row);
    }

    /** `findByEmail`: an exact-match lookup returning the whole row, password hash included. */
    function FindByEmail(email: string): (r: Option<User>)
      reads this
      requires Valid()
      ensures r.Some? <==> exists k :: k in users && users[k].email == email
      ensures r.Some? ==> r.value.id in users && users[r.value.id] == r.value && r.value.email == email
    {
      var matches := set k | k in users && users[k].email == email;
      if matches == {} then
        assert forall k :: k in users && users[k].email == email ==> k in matches;
        None
      else Some(users[First(matches)])
    }

    /** With unique addresses the lookup finds exactly the user holding the address. */
    lemma FindByEmailFinds(id: Id)
      requires Valid() && EmailsUnique() && id in users
      ensures FindByEmail(users[id].email) == Some(users[id])
    {
    }

    /** `findById`: the password-free row with that id, or null. */
    function FindById(id: Id): (r: Option<SafeUser>)
      reads this
      ensures r.Some? <==> id in users
      ensures r.Some? ==> r.value == Safe(users[id])
    {
      if id in users then Some(Safe(users[id])) else None
    }

    /** `getAllUsers`: every user once, without passwords, newest first. */
    function GetAllUsers(): (r: seq<SafeUser>)
      reads this
      requires Valid()
      ensures |r| == |users|
      ensures forall i :: 0 <= i < |r| ==> IsRowOf(r[i], users)
      ensures forall k :: k in users ==> Safe(users[k]) in r
      ensures forall i, j :: 0 <= i < j < |r| ==> r[i].id != r[j].id
      ensures forall i, j :: 0 <= i < j < |r| ==> r[i].createdAt >= r[j].createdAt
    {
      NewestUsers(users)
    }

    /** `deleteUser`: true exactly when a row with that id existed; afterwards none does. */
    method DeleteUser(id: Id) returns (existed: bool)
      requires Valid()
      modifies this
      ensures Valid()
      ensures existed == (id in old(users))
      ensures users == old(users) - {id}
      ensures nextId == old(nextId)
    {
      existed := id in users;
      users := users - {id};
    }

    /**
     * `updateUser`. With neither field defined it answers as `findById`. Otherwise only truthy
     * fields are written, and when neither is truthy (say `name: ""` alone) nothing is written
     * and the answer is null.
     */
    method UpdateUser(id: Id, data: UserPatch) returns (r: Option<SafeUser>)
      requires Valid()
      modifies this
      ensures Valid() && nextId == old(nextId)
      ensures data.name.None? && data.password.None? ==> r == old(FindById(id)) && users == old(users)
      ensures !Truthy(data.name) && !Truthy(data.password) ==> users == old(users)
      ensures (data.name.Some? || data.password.Some?) && !Truthy(data.name) && !Truthy(data.password) ==> r == None
      ensures (Truthy(data.name) || Truthy(data.password)) && id !in old(users) ==> r == None && users == old(users)
      ensures (Truthy(data.name) || Truthy(data.password)) && id in old(users) ==>
        && users == old(users)[id := Patched(old(users)[id], data)]
        && r == Some(Safe(users[id]))
    {
      var updates: seq<string> := [];
      var values: seq<string> := [];
      if data.name.Some? {
        updates := updates + ["name"];
        values := values + [data.name.value];
      }
      if data.password.Some? {
        updates := updates + ["password"];
        values := values + [data.password.value];
      }

      if |updates| == 0 {
        return FindById(id);
      }

      if Truthy(data.name) && Truthy(data.password) {
        if id !in users {
          return None;
        }
        users := users[id := users[id].(name := data.name.value, password := data.password.value)];
        return Some(Safe(users[id]));
      } else if Truthy(data.name) {
        if id !in users {
          return None;
        }
        users := users[id := users[id].(name := data.name.value)];
        return Some(Safe(users[id]));
      } else if Truthy(data.password) {
        if id !in users {
          return None;
        }
        users := users[id := users[id].(password := data.password.value)];
        return Some(Safe(users[id]));
      }
      return None;
    }
  }
}
