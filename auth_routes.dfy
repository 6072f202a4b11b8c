/** Sign-up, log-in and log-out (server/src/routes/auth.js) over an in-memory
    user table. Password hashing, hash comparison and token signing are oracles
    passed in by the caller. */
module AuthRoutes {
  import opened Common

  datatype User = User(id: nat, username: string, email: string, passwordHash: string, avatarUrl: Option<string>)

  /** The user fields a response exposes; there is no place for the hash. */
  datatype PublicUser = PublicUser(id: nat, username: string, email: string, avatarUrl: Option<string>)

  datatype AuthReply =
    | Issued(token: string, user: PublicUser)
    | Refused(status: nat, error: string)

  /** The `user` object of a sign-up or log-in answer. */
  function Public(u: User): (shown: PublicUser)
    ensures shown.id == u.id && shown.username == u.username
    ensures shown.email == u.email && shown.avatarUrl == u.avatarUrl
  {
    PublicUser(u.id, u.username, u.email, u.avatarUrl)
  }

  /** The `findFirst` filter `OR: [{ email: a }, { username: b }]`. */
  predicate Matches(u: User, email: string, username: string) {
    u.email == email || u.username == username
  }

  /** `users[k]` is the first user the log-in field names, by e-mail or username. */
  predicate FirstNamedAt(users: seq<User>, key: string, k: int) {
    && 0 <= k < |users|
    && Matches(users[k], key, key)
    && forall j :: 0 <= j < k ==> !Matches(users[j], key, key)
  }

  /** `POST /login`: one field names the user by e-mail or by username; an
      unknown user and a wrong password get the same 401 answer, and a
      matching password gets a token for that user and its public fields. */
  function Login(users: seq<User>, emailOrUsername: string, password: string,
                 compare: (string, string) -> bool, sign: Claims -> string): (r: AuthReply)
    ensures r.Refused? ==> r == Refused(401, "Invalid credentials")
    ensures (forall k :: 0 <= k < |users| ==> !Matches(users[k], emailOrUsername, emailOrUsername)) ==> r.Refused?
    ensures forall k :: FirstNamedAt(users, emailOrUsername, k) ==>
      r == if compare(password, users[k].passwordHash)
           then Issued(sign(Claims(users[k].id, users[k].username)), Public(users[k]))
           else Refused(401, "Invalid credentials")
  {
    var found := FindFirst(users, (u: User) => Matches(u, emailOrUsername, emailOrUsername));
    if found.None? then Refused(401, "Invalid credentials")
    else
      assert FirstNamedAt(users, emailOrUsername, found.value);
      assert forall k :: FirstNamedAt(users, emailOrUsername, k) ==> k == found.value;
      var user := users[found.value];
      if !compare(password, user.passwordHash) then Refused(401, "Invalid credentials")
      else Issued(sign(Claims(user.id, user.username)), Public(user))
  }

  /** A user just added can log in with its e-mail or its username and its
      password, unless an older user already answers to that same string (an
      older user whose username equals the new user's e-mail, for instance). */
  lemma LoginAfterSignup(users: seq<User>, user: User, key: string, password: string,
                         compare: (string, string) -> bool, sign: Claims -> string)
    requires key == user.email || key == user.username
    requires forall k :: 0 <= k < |users| ==> !Matches(users[k], key, key)
    requires compare(password, user.passwordHash)
    ensures Login(users + [user], key, password, compare, sign)
         == Issued(sign(Claims(user.id, user.username)), Public(user))
  {
    var all := users + [user];
    assert forall j :: 0 <= j < |users| ==> all[j] == users[j];
    assert FirstNamedAt(all, key, |users|);
  }

  /** `POST /logout` always answers 200. */
  function Logout(): (r: (nat, string))
    ensures r.0 == 200
  {
    (200, "Logged out successfully")
  }

  class UserTable {
    var users: seq<User>
    var nextId: nat

    /** Ids are fresh, and no two users share an e-mail or a username. */
    ghost predicate Valid()
      reads this
    {
      && (forall i :: 0 <= i < |users| ==> users[i].id < nextId)
      && (forall i, j :: 0 <= i < j < |users| ==> users[i].id != users[j].id)
      && (forall i, j :: 0 <= i < j < |users| ==> users[i].email != users[j].email)
      && (forall i, j :: 0 <= i < j < |users| ==> users[i].username != users[j].username)
    }

    constructor ()
      ensures Valid() && users == []
    {
      users, nextId := [], 0;
    }

    /** `POST /signup`: a missing or empty field answers 400; an e-mail or a
        username already in use answers 409; otherwise exactly one user is added
        with the hashed password, and the answer carries a token and the user's
        public fields. */
    method Signup(username: Option<string>, email: Option<string>, password: Option<string>,
                  hash: string -> string, sign: Claims -> string) returns (r: AuthReply)
      requires Valid()
      modifies this
      ensures Valid()
      ensures !Present(username) || !Present(email) || !Present(password) ==>
        r == Refused(400, "Missing fields") && users == old(users)
      ensures (Present(username) && Present(email) && Present(password)
        && exists k :: 0 <= k < |old(users)| && Matches(old(users)[k], email.value, username.value)) ==>
        r == Refused(409, "User already exists") && users == old(users)
      ensures (Present(username) && Present(email) && Present(password)
        && forall k :: 0 <= k < |old(users)| ==> !Matches(old(users)[k], email.value, username.value)) ==>
        var user := User(old(nextId), username.value, email.value, hash(password.value), None);
        && users == old(users) + [user]
        && r == Issued(sign(Claims(user.id, user.username)), Public(user))
    {
      if !Present(username) || !Present(email) || !Present(password) {
        return Refused(400, "Missing fields");
      }
      var existing := FindFirst(users, (u: User) => Matches(u, email.value, username.value));
      if existing.Some? {
        return Refused(409, "User already exists");
      }
      var user := User(nextId, username.value, email.value, hash(password.value), None);
      users := users + [user];
      nextId := nextId + 1;
      r := Issued(sign(Claims(user.id, user.username)), Public(user));
    }
  }
}
