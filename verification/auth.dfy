/** Registration and login (backend/app/api/v1/endpoints/auth.py). */
module Auth {
  import opened Wrappers
  import opened Http
  import opened Security
  import opened Users
  import opened Dependencies
  import Keys

  /** The registration body (`UserCreate`). `is_active` is accepted but ignored. */
  datatype UserCreate = UserCreate(
    username: string,
    email: string,
    fullName: Option<string>,
    role: string,
    password: string)

  /** The login body (`UserLogin`). */
  datatype UserLogin = UserLogin(username: string, password: string)

  datatype LoginResponse = LoginResponse(accessToken: string, tokenType: string)

  /** Some stored user already has the requested username or email. */
  predicate Taken(users: map<int, User>, username: string, email: string) {
    exists k :: k in users && (users[k].username == username || users[k].email == email)
  }

  /** `register`: 400 on a taken username or email; otherwise a new active user
      holding the password's hash. `full_name` is a NOT NULL column, so a
      registration without one fails when the row is written. */
  function Register(users: map<int, User>, hasher: Hasher, req: UserCreate): (r: Result<Keys.Stored<User>, Status>)
    ensures r.Failure? && r.error == BadRequest <==> Taken(users, req.username, req.email)
    ensures r.Failure? && r.error == InternalError <==> !Taken(users, req.username, req.email) && req.fullName.None?
    ensures r.Failure? ==> r.error in {BadRequest, InternalError}
    ensures r.Success? ==>
      && r.value.id !in users
      && r.value.table == users[r.value.id := r.value.row]
      && r.value.row.id == r.value.id
    ensures r.Success? ==>
      && r.value.row.username == req.username
      && r.value.row.email == req.email
      && r.value.row.fullName == req.fullName.value
      && r.value.row.role == req.role
      && r.value.row.isActive
      && r.value.row.hashedPassword == hasher.hash(req.password)
  {
    if Taken(users, req.username, req.email) then Failure(BadRequest)
    else if req.fullName.None? then Failure(InternalError)
    else
      var id := Keys.NextId(users.Keys);
      var row := User(id, req.username, req.email, hasher.hash(req.password), req.fullName.value, req.role, true);
      Success(Keys.Stored(users[id := row], id, row))
  }

  /** The claims a login token carries. */
  function LoginClaims(user: User): (c: Claims)
    ensures c.Keys == {"sub", "role"}
    ensures c["sub"] == Str(user.username) && c["role"] == Str(user.role)
  {
    map["sub" := Str(user.username), "role" := Str(user.role)]
  }

  /** `login`: one 401 for an unknown username and for a wrong password; the
      token is encoded without an expiry. The JWT library raises on an unset
      secret (500) but accepts an empty one. */
  function Login(settings: Settings, jwt: Jwt, hasher: Hasher, users: map<int, User>, req: UserLogin)
    : (r: Result<LoginResponse, Status>)
    ensures r.Failure? ==> r.error in {Unauthorized, InternalError}
    ensures r.Failure? && r.error == Unauthorized <==>
      var k := FirstByUsername(users, req.username);
      k.None? || !hasher.verify(req.password, users[k.value].hashedPassword)
    ensures r.Success? <==>
      && settings.jwtSecret.Some?
      && var k := FirstByUsername(users, req.username);
      && k.Some?
      && hasher.verify(req.password, users[k.value].hashedPassword)
    ensures r.Success? ==>
      && settings.jwtSecret.Some?
      && var k := FirstByUsername(users, req.username);
      && k.Some?
      && hasher.verify(req.password, users[k.value].hashedPassword)
      && r.value.accessToken == jwt.encode(LoginClaims(users[k.value]), settings.jwtSecret.value, settings.jwtAlgorithm)
      && r.value.tokenType == "bearer"
  {
    var k := FirstByUsername(users, req.username);
    if k.None? || !hasher.verify(req.password, users[k.value].hashedPassword) then Failure(Unauthorized)
    else if settings.jwtSecret.None? then Failure(InternalError)
    else
      var token := jwt.encode(LoginClaims(users[k.value]), settings.jwtSecret.value, settings.jwtAlgorithm);
      Success(LoginResponse(token, "bearer"))
  }

  /** A user who has just registered can log in with the same password, given
      a hasher that accepts the password it hashed. */
  lemma RegisteredUserCanLogIn(settings: Settings, jwt: Jwt, hasher: Hasher, users: map<int, User>, req: UserCreate)
    requires Register(users, hasher, req).Success?
    requires hasher.verify(req.password, hasher.hash(req.password))
    requires settings.jwtSecret.Some?
    ensures Login(settings, jwt, hasher, Register(users, hasher, req).value.table, UserLogin(req.username, req.password)).Success?
  {
    var s := Register(users, hasher, req).value;
    var k := FirstByUsername(s.table, req.username);
    assert s.table[s.id].username == req.username;
    assert k.Some?;
    if k.value != s.id {
      assert users[k.value].username == req.username;
      assert Taken(users, req.username, req.email);
    }
  }

  /** A login token authenticates its holder as the user who logged in, with
      the role stored for that user. */
  lemma LoginTokenAuthenticates(settings: Settings, jwt: Jwt, hasher: Hasher, users: map<int, User>, req: UserLogin)
    requires SecretConfigured(settings)
    requires Login(settings, jwt, hasher, users, req).Success?
    requires FirstByUsername(users, req.username).Some?
    requires RoundTrips(jwt, LoginClaims(users[FirstByUsername(users, req.username).value]),
                        settings.jwtSecret.value, settings.jwtAlgorithm)
    ensures GetCurrentUser(settings, jwt, users, Login(settings, jwt, hasher, users, req).value.accessToken)
            == Success(users[FirstByUsername(users, req.username).value])
  {
    var k := FirstByUsername(users, req.username).value;
    var token := Login(settings, jwt, hasher, users, req).value.accessToken;
    assert Subject(settings, jwt, token) == Some(req.username);
  }

  /** `register` as written: the duplicate check filters on `User.username`,
      an attribute the ORM's `User` class does not have, so every request
      fails with `AttributeError` (a 500) before anything is checked. */
  function RegisterAsWritten(users: map<int, User>, hasher: Hasher, req: UserCreate): (r: Result<Keys.Stored<User>, Status>)
    ensures r.Failure? && r.error == InternalError
  {
    Failure(InternalError)
  }

  /** `login` as written: the lookup filters on the missing `User.username`
      too, so every request is a 500. */
  function LoginAsWritten(settings: Settings, jwt: Jwt, hasher: Hasher, users: map<int, User>, req: UserLogin)
    : (r: Result<LoginResponse, Status>)
    ensures r.Failure? && r.error == InternalError
  {
    Failure(InternalError)
  }

  /** What a registration leaves behind: the table as committed, and the reply. */
  datatype Outcome = Outcome(users: map<int, User>, reply: Result<User, Status>)

  /** `register` with the username lookup repaired but the reply as written:
      `UserRead.created_at` is declared `str`, while the stored column loads
      as a datetime, so the reply fails response validation (a 500) after the
      new user has been committed. */
  function RegisterReplyAsWritten(users: map<int, User>, hasher: Hasher, req: UserCreate): (r: Outcome)
    ensures r.reply.Failure?
    ensures r.reply.error == BadRequest <==> Taken(users, req.username, req.email)
    ensures Register(users, hasher, req).Failure? ==> r.users == users && r.reply == Failure(Register(users, hasher, req).error)
    ensures Register(users, hasher, req).Success? ==>
      r.users == Register(users, hasher, req).value.table && r.reply == Failure(InternalError)
  {
    match Register(users, hasher, req)
    case Failure(e) => Outcome(users, Failure(e))
    case Success(s) => Outcome(s.table, Failure(InternalError))
  }

  /** A client that retries after that 500 is refused with 400: the account it
      was told had failed exists. */
  lemma RetryAfterReplyFailureRejected(users: map<int, User>, hasher: Hasher, req: UserCreate)
    requires Register(users, hasher, req).Success?
    ensures RegisterReplyAsWritten(users, hasher, req).reply == Failure(InternalError)
    ensures RegisterReplyAsWritten(RegisterReplyAsWritten(users, hasher, req).users, hasher, req).reply
            == Failure(BadRequest)
  {
    var s := Register(users, hasher, req).value;
    assert s.table[s.id].username == req.username;
  }

  /** A first registration: the corrected endpoint stores the user, the code
      as written answers 500. */
  lemma RegisterAsWrittenFails()
    ensures var hasher := Hasher((p: string) => "hash", (p: string, h: string) => h == "hash");
      var req := UserCreate("alice", "alice@example.org", Some("Alice"), "patient", "pw");
      && Register(map[], hasher, req).Success?
      && RegisterAsWritten(map[], hasher, req) == Failure(InternalError)
  {
  }

  /** That user logging in: the corrected endpoint issues a token, the code as
      written answers 500. */
  lemma LoginAsWrittenFails()
    ensures var settings := Settings(Some("secret"), "HS256");
      var jwt := Jwt((c: Claims, k: string, a: string) => "token", (t: string, k: string, a: string) => None);
      var hasher := Hasher((p: string) => "hash", (p: string, h: string) => h == "hash");
      var users := map[1 := User(1, "alice", "alice@example.org", "hash", "Alice", "patient", true)];
      && Login(settings, jwt, hasher, users, UserLogin("alice", "pw")).Success?
      && LoginAsWritten(settings, jwt, hasher, users, UserLogin("alice", "pw")) == Failure(InternalError)
  {
    var users := map[1 := User(1, "alice", "alice@example.org", "hash", "Alice", "patient", true)];
    var r := FirstByUsername(users, "alice");
    assert 1 in users && users[1].username == "alice";
    assert r.Some? && r.value in users;
    assert r.value == 1;
  }
}
