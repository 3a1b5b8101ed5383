/**
 * The account endpoints (server/routes/auth.js): registration and login
 * over the user collection, and the profile of the token's user. Password
 * hashing and comparison are the account library's and enter as functions.
 */
module AuthRoutes {
  import opened Common
  import opened JsString
  import opened Store

  const MinPassword: nat := 6

  const FieldsRequired: string := "Name, email and password are required."
  const PasswordTooShort: string := "Password must be at least 6 characters."
  const EmailTaken: string := "Email already registered. Please log in."
  const AccountCreated: string := "Account created successfully!"
  const CredentialsRequired: string := "Email and password are required."
  const InvalidCredentials: string := "Invalid email or password."
  const LoginSucceeded: string := "Login successful!"

  /** The user as replies show it: no password. */
  datatype PublicUser = PublicUser(id: nat, name: string, email: string)

  /** A status code, its message, and the user for the two success replies. */
  datatype AuthReply = AuthReply(status: nat, message: string, user: Option<PublicUser>)

  function Public(u: User): (p: PublicUser)
    ensures p.id == u.id && p.name == u.name && p.email == u.email
  {
    PublicUser(u.id, u.name, u.email)
  }

  /** `User.findOne({ email })`: the first user registered with exactly that email. */
  function FindByEmail(users: seq<User>, email: string): (r: Option<User>)
    ensures r.Some? ==> r.value in users && r.value.email == email
    ensures r.None? <==> forall i :: 0 <= i < |users| ==> users[i].email != email
    decreases |users|
  {
    if users == [] then None
    else if users[0].email == email then Some(users[0])
    else
      var r := FindByEmail(users[1..], email);
      assert forall i :: 1 <= i < |users| ==> users[i] == users[1..][i - 1];
      r
  }

  // ---------------------------------------------------------------------
  // POST /api/auth/register

  datatype RegisterStep = RegisterStep(reply: AuthReply, users: seq<User>)

  /**
   * Registration: the presence check, then the length check, then the
   * duplicate check; only a request passing all three adds one user, whose
   * stored secret is the hash of the password and whose reply omits it.
   */
  function RegisterSpec(users: seq<User>, nextId: nat, name: Option<string>, email: Option<string>,
                        password: Option<string>, hash: string -> string): (r: RegisterStep)
    ensures r.reply.status in {400, 409, 201}
    ensures !Truthy(name) || !Truthy(email) || !Truthy(password) ==>
      r.reply == AuthReply(400, FieldsRequired, None)
    ensures Truthy(name) && Truthy(email) && Truthy(password) && |password.value| < MinPassword ==>
      r.reply == AuthReply(400, PasswordTooShort, None)
    ensures r.reply.status == 409 <==>
      Truthy(name) && Truthy(email) && Truthy(password) && |password.value| >= MinPassword
      && FindByEmail(users, email.value).Some?
    ensures r.reply.status == 409 ==> r.reply == AuthReply(409, EmailTaken, None)
    ensures r.reply.status != 201 ==> r.users == users
    ensures r.reply.status == 201 ==>
      && r.users == users + [User(nextId, name.value, email.value, hash(password.value))]
      && r.reply == AuthReply(201, AccountCreated, Some(PublicUser(nextId, name.value, email.value)))
  {
    if !Truthy(name) || !Truthy(email) || !Truthy(password) then
      RegisterStep(AuthReply(400, FieldsRequired, None), users)
    else if |password.value| < MinPassword then
      RegisterStep(AuthReply(400, PasswordTooShort, None), users)
    else if FindByEmail(users, email.value).Some? then
      RegisterStep(AuthReply(409, EmailTaken, None), users)
    else
      var u := User(nextId, name.value, email.value, hash(password.value));
      RegisterStep(AuthReply(201, AccountCreated, Some(Public(u))), users + [u])
  }

  /** A new user with a fresh id and an unregistered email keeps the user collection well formed. */
  lemma AddUserKeepsValid(users: seq<User>, nextId: nat, u: User)
    requires UsersValid(users, nextId)
    requires u.id == nextId && FindByEmail(users, u.email).None?
    ensures UsersValid(users + [u], nextId + 1)
  {
    var r := users + [u];
    forall i, j | 0 <= i < j < |r|
      ensures r[i].id != r[j].id && r[i].email != r[j].email
    {
      assert r[i] == users[i];
      if j < |users| {
        assert r[j] == users[j];
      }
    }
  }

  /** Registration keeps ids distinct and issued and emails unique. */
  lemma RegisterKeepsValid(users: seq<User>, nextId: nat, name: Option<string>, email: Option<string>,
                           password: Option<string>, hash: string -> string)
    requires UsersValid(users, nextId)
    ensures var r := RegisterSpec(users, nextId, name, email, password, hash);
      UsersValid(r.users, if r.reply.status == 201 then nextId + 1 else nextId)
  {
    var r := RegisterSpec(users, nextId, name, email, password, hash);
    if r.reply.status == 201 {
      AddUserKeepsValid(users, nextId, User(nextId, name.value, email.value, hash(password.value)));
    }
  }

  /** The register endpoint against the database. */
  method Register(db: Db, name: Option<string>, email: Option<string>, password: Option<string>,
                  hash: string -> string) returns (reply: AuthReply)
    requires db.Valid()
    modifies db
    ensures db.Valid()
    ensures RegisterStep(reply, db.users) == RegisterSpec(old(db.users), old(db.nextId), name, email, password, hash)
    ensures db.nextId == if reply.status == 201 then old(db.nextId) + 1 else old(db.nextId)
    ensures db.tasks == old(db.tasks) && db.results == old(db.results)
  {
    if !Truthy(name) || !Truthy(email) || !Truthy(password) {
      return AuthReply(400, FieldsRequired, None);
    }
    if |password.value| < MinPassword {
      return AuthReply(400, PasswordTooShort, None);
    }
    var existing := FindByEmail(db.users, email.value);
    if existing.Some? {
      return AuthReply(409, EmailTaken, None);
    }
    var u := User(db.nextId, name.value, email.value, hash(password.value));
    AddUserKeepsValid(db.users, db.nextId, u);
    var id := db.FreshId();
    db.users := db.users + [u];
    reply := AuthReply(201, AccountCreated, Some(Public(u)));
  }

  /** The length check is "at least six": a six-character password passes it. */
  lemma SixCharactersSuffice(users: seq<User>, nextId: nat, name: string, email: string,
                             password: string, hash: string -> string)
    requires name != "" && email != "" && |password| == MinPassword
    requires FindByEmail(users, email).None?
    ensures RegisterSpec(users, nextId, Some(name), Some(email), Some(password), hash).reply.status == 201
  {
  }

  /** Registering the same email twice: the second request is refused and changes nothing. */
  lemma SecondRegistrationRejected(users: seq<User>, nextId: nat, name: string, email: string, password: string,
                                   name2: string, password2: string, hash: string -> string)
    requires name2 != "" && |password2| >= MinPassword
    requires RegisterSpec(users, nextId, Some(name), Some(email), Some(password), hash).reply.status == 201
    ensures var first := RegisterSpec(users, nextId, Some(name), Some(email), Some(password), hash);
      var second := RegisterSpec(first.users, nextId + 1, Some(name2), Some(email), Some(password2), hash);
      second.reply == AuthReply(409, EmailTaken, None) && second.users == first.users
  {
    var first := RegisterSpec(users, nextId, Some(name), Some(email), Some(password), hash);
    assert first.users[|users|].email == email;
  }

  // ---------------------------------------------------------------------
  // POST /api/auth/login

  /**
   * Login: 400 without both fields; one and the same 401 for an unknown
   * email and for a wrong password; otherwise 200 with the public user.
   * `matches(secret, password)` is the account library's password comparison.
   */
  function Login(users: seq<User>, email: Option<string>, password: Option<string>,
                 matches: (string, string) -> bool): (r: AuthReply)
    ensures r.status in {400, 401, 200}
    ensures r.status == 400 <==> !Truthy(email) || !Truthy(password)
    ensures r.status == 400 ==> r == AuthReply(400, CredentialsRequired, None)
    ensures r.status == 401 ==> r == AuthReply(401, InvalidCredentials, None)
    ensures r.status == 200 <==>
      Truthy(email) && Truthy(password) && FindByEmail(users, email.value).Some?
      && matches(FindByEmail(users, email.value).value.secret, password.value)
    ensures r.status == 200 ==>
      r == AuthReply(200, LoginSucceeded, Some(Public(FindByEmail(users, email.value).value)))
  {
    if !Truthy(email) || !Truthy(password) then AuthReply(400, CredentialsRequired, None)
    else
      match FindByEmail(users, email.value)
      case None => AuthReply(401, InvalidCredentials, None)
      case Some(u) =>
        if !matches(u.secret, password.value) then AuthReply(401, InvalidCredentials, None)
        else AuthReply(200, LoginSucceeded, Some(Public(u)))
  }

  /** A caller cannot tell an unregistered email from a wrong password. */
  lemma LoginFailuresAlike(users: seq<User>, unknown: string, known: string, guess: string, password: string,
                           matches: (string, string) -> bool)
    requires unknown != "" && known != "" && guess != "" && password != ""
    requires FindByEmail(users, unknown).None?
    requires FindByEmail(users, known).Some? && !matches(FindByEmail(users, known).value.secret, guess)
    ensures Login(users, Some(unknown), Some(password), matches) == Login(users, Some(known), Some(guess), matches)
    ensures Login(users, Some(unknown), Some(password), matches).status == 401
  {
  }

  /** A just-registered account can log in with its password, given a comparison that accepts its own hash. */
  lemma RegisteredCanLogIn(users: seq<User>, nextId: nat, name: string, email: string, password: string,
                           hash: string -> string, matches: (string, string) -> bool)
    requires matches(hash(password), password)
    requires RegisterSpec(users, nextId, Some(name), Some(email), Some(password), hash).reply.status == 201
    ensures var r := RegisterSpec(users, nextId, Some(name), Some(email), Some(password), hash);
      Login(r.users, Some(email), Some(password), matches) == AuthReply(200, LoginSucceeded, r.reply.user)
  {
    var r := RegisterSpec(users, nextId, Some(name), Some(email), Some(password), hash);
    var u := User(nextId, name, email, hash(password));
    FindByEmailAppend(users, u);
  }

  /** Looking up an unregistered email after appending its user finds that user. */
  lemma {:induction false} FindByEmailAppend(users: seq<User>, u: User)
    requires FindByEmail(users, u.email).None?
    ensures FindByEmail(users + [u], u.email) == Some(u)
    decreases |users|
  {
    if users != [] {
      assert (users + [u])[1..] == users[1..] + [u];
      assert users[1..] == users[1..];
      assert forall i :: 0 <= i < |users[1..]| ==> users[1..][i] == users[i + 1];
      FindByEmailAppend(users[1..], u);
    }
  }

  // ---------------------------------------------------------------------
  // GET /api/auth/me

  /** 404 "User not found." or the token's user without the password. */
  datatype MeReply = UserNotFound | Profile(user: PublicUser)

  function Me(users: seq<User>, id: nat): (r: MeReply)
    ensures r.UserNotFound? <==> forall i :: 0 <= i < |users| ==> users[i].id != id
    ensures r.Profile? ==> r.user.id == id && exists u :: u in users && r.user == Public(u)
    decreases |users|
  {
    if users == [] then UserNotFound
    else if users[0].id == id then Profile(Public(users[0]))
    else
      var r := Me(users[1..], id);
      assert forall i :: 1 <= i < |users| ==> users[i] == users[1..][i - 1];
      assert r.Profile? ==> exists u :: u in users[1..] && r.user == Public(u);
      r
  }

  /** A registered user's profile is found under the id registration returned. */
  lemma RegisteredProfile(users: seq<User>, nextId: nat, name: string, email: string, password: string,
                          hash: string -> string)
    requires UsersValid(users, nextId)
    requires RegisterSpec(users, nextId, Some(name), Some(email), Some(password), hash).reply.status == 201
    ensures var r := RegisterSpec(users, nextId, Some(name), Some(email), Some(password), hash);
      Me(r.users, nextId) == Profile(r.reply.user.value)
  {
    var r := RegisterSpec(users, nextId, Some(name), Some(email), Some(password), hash);
    RegisterKeepsValid(users, nextId, Some(name), Some(email), Some(password), hash);
    var u := User(nextId, name, email, hash(password));
    assert r.users[|users|] == u;
    var m := Me(r.users, nextId);
    assert m.Profile?;
    var v :| v in r.users && m.user == Public(v);
    var k :| 0 <= k < |r.users| && r.users[k] == v;
    assert r.users[|users|] == u;
    if k < |users| {
      assert users[k].id < nextId;
    }
  }
}
