/** The `users` table (backend/app/db/models/user.py) and its lookup by login name. */
module Users {
  import opened Wrappers
  import Keys

  /** A row of `users`. The model gives it the `username` column that the
      authentication code queries. */
  datatype User = User(
    id: int,
    username: string,
    email: string,
    hashedPassword: string,
    fullName: string,
    role: string,
    isActive: bool)

  /** `query(User).filter(User.username == name).first()`: the key of the
      matching row that comes first in key order. */
  function FirstByUsername(users: map<int, User>, name: string): (r: Option<int>)
    ensures r.None? <==> forall k :: k in users ==> users[k].username != name
    ensures r.Some? ==> r.value in users && users[r.value].username == name
    ensures r.Some? ==> forall k :: k in users && users[k].username == name ==> r.value <= k
  {
    var matches := set k | k in users && users[k].username == name;
    assert forall k :: k in users && users[k].username == name ==> k in matches;
    if matches == {} then None else Some(Keys.MinOf(matches))
  }
}

/** Request authentication and the role gate (backend/app/core/dependencies.py). */
module Dependencies {
  import opened Wrappers
  import opened Http
  import opened Security
  import opened Users

  /** The login name a bearer token carries: its `sub` claim when the token
      decodes and the claim is a string. */
  function Subject(settings: Settings, jwt: Jwt, token: string): (r: Option<string>)
    requires SecretConfigured(settings)
    ensures r.Some? <==>
      var p := jwt.decode(token, settings.jwtSecret.value, settings.jwtAlgorithm);
      p.Some? && "sub" in p.value && p.value["sub"].Str?
    ensures r.Some? ==> r.value == jwt.decode(token, settings.jwtSecret.value, settings.jwtAlgorithm).value["sub"].s
  {
    var payload := jwt.decode(token, settings.jwtSecret.value, settings.jwtAlgorithm);
    if payload.None? || "sub" !in payload.value || !payload.value["sub"].Str? then None
    else Some(payload.value["sub"].s)
  }

  /** `get_current_user`: every failure is the same 401. */
  function GetCurrentUser(settings: Settings, jwt: Jwt, users: map<int, User>, token: string)
    : (r: Result<User, Status>)
    ensures r.Failure? ==> r.error == Unauthorized
    ensures !SecretConfigured(settings) ==> r.Failure?
    ensures SecretConfigured(settings) && jwt.decode(token, settings.jwtSecret.value, settings.jwtAlgorithm).None?
            ==> r.Failure?
    ensures SecretConfigured(settings) ==>
      var p := jwt.decode(token, settings.jwtSecret.value, settings.jwtAlgorithm);
      p.Some? && ("sub" !in p.value || !p.value["sub"].Str?) ==> r.Failure?
    ensures r.Success? <==>
      SecretConfigured(settings) && Subject(settings, jwt, token).Some?
      && exists k :: k in users && users[k].username == Subject(settings, jwt, token).value
    ensures r.Success? ==>
      exists k :: k in users && users[k] == r.value
        && r.value.username == Subject(settings, jwt, token).value
        && forall j :: j in users && users[j].username == r.value.username ==> k <= j
  {
    if !SecretConfigured(settings) then Failure(Unauthorized)
    else
      var name := Subject(settings, jwt, token);
      if name.None? then Failure(Unauthorized)
      else
        var key := FirstByUsername(users, name.value);
        if key.None? then Failure(Unauthorized) else Success(users[key.value])
  }

  /** `require_roles(*roles)`: exact string membership of the stored role. */
  function RequireRoles(user: User, roles: set<string>): (r: Result<User, Status>)
    ensures r.Success? <==> user.role in roles
    ensures r.Success? ==> r.value == user
    ensures r.Failure? ==> r.error == Forbidden
  {
    if user.role in roles then Success(user) else Failure(Forbidden)
  }

  /** What a route depending on `require_roles(*roles)` sees before its body runs. */
  function Authorize(settings: Settings, jwt: Jwt, users: map<int, User>, token: string, roles: set<string>)
    : (r: Result<User, Status>)
    ensures GetCurrentUser(settings, jwt, users, token).Failure? ==> r == Failure(Unauthorized)
    ensures GetCurrentUser(settings, jwt, users, token).Success? ==>
      r == RequireRoles(GetCurrentUser(settings, jwt, users, token).value, roles)
  {
    var user :- GetCurrentUser(settings, jwt, users, token);
    RequireRoles(user, roles)
  }

  /** The gate decides on the role stored for the token's subject: two tokens
      naming the same subject are treated alike, whatever `role` claim
      either of them carries. */
  lemma GateIgnoresTokenRoleClaim(settings: Settings, jwt: Jwt, users: map<int, User>,
                                  token1: string, token2: string, roles: set<string>)
    requires SecretConfigured(settings)
    requires Subject(settings, jwt, token1) == Subject(settings, jwt, token2)
    ensures Authorize(settings, jwt, users, token1, roles) == Authorize(settings, jwt, users, token2, roles)
  {
  }

  /** `get_current_user` as written: the ORM's `User` class has no `username`
      attribute, so building the lookup raises `AttributeError` (a 500) as
      soon as the token checks pass. No token ever authenticates. */
  function GetCurrentUserAsWritten(settings: Settings, jwt: Jwt, token: string): (r: Result<User, Status>)
    ensures r.Failure?
    ensures r.error == Unauthorized <==> !SecretConfigured(settings) || Subject(settings, jwt, token).None?
    ensures r.error == InternalError <==> SecretConfigured(settings) && Subject(settings, jwt, token).Some?
  {
    if !SecretConfigured(settings) then Failure(Unauthorized)
    else if Subject(settings, jwt, token).None? then Failure(Unauthorized)
    else Failure(InternalError)
  }

  /** A well-formed token for a stored user: the corrected lookup finds the
      user, the code as written answers 500. */
  lemma GetCurrentUserAsWrittenFails()
    ensures var settings := Settings(Some("secret"), "HS256");
      var jwt := Jwt((c: Claims, k: string, a: string) => "token",
                     (t: string, k: string, a: string) => Some(map["sub" := Str("alice")]));
      var alice := User(1, "alice", "alice@example.org", "h", "Alice", "patient", true);
      && GetCurrentUser(settings, jwt, map[1 := alice], "token") == Success(alice)
      && GetCurrentUserAsWritten(settings, jwt, "token") == Failure(InternalError)
  {
    var settings := Settings(Some("secret"), "HS256");
    var jwt := Jwt((c: Claims, k: string, a: string) => "token",
                   (t: string, k: string, a: string) => Some(map["sub" := Str("alice")]));
    var alice := User(1, "alice", "alice@example.org", "h", "Alice", "patient", true);
    assert Subject(settings, jwt, "token") == Some("alice");
    var r := FirstByUsername(map[1 := alice], "alice");
    assert 1 in map[1 := alice] && map[1 := alice][1].username == "alice";
    assert r.Some? && r.value in map[1 := alice];
    assert r.value == 1;
  }
}
