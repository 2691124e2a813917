/** Token issuing and checking (backend/app/core/security.py). The JWT and
    bcrypt libraries are not modelled: they are function values passed in. */
module Security {
  import opened Wrappers
  import Decimal

  /** A JSON value carried in a token's payload. */
  datatype ClaimValue = Str(s: string) | Int(i: int) | Bool(b: bool) | Null

  type Claims = map<string, ClaimValue>

  /** The settings read from the environment (backend/app/core/config.py). */
  datatype Settings = Settings(jwtSecret: Option<string>, jwtAlgorithm: string)

  /** Python's truth value of `settings.JWT_SECRET`: unset and "" are both false. */
  predicate SecretConfigured(settings: Settings) {
    settings.jwtSecret.Some? && settings.jwtSecret.value != ""
  }

  /** The JWT library: `encode(claims, key, algorithm)` and
      `decode(token, key, algorithm)`, where `None` stands for a raised
      `JWTError` (bad signature, expired `exp`, malformed token). */
  datatype Jwt = Jwt(
    encode: (Claims, string, string) -> string,
    decode: (string, string, string) -> Option<Claims>)

  /** The library decodes what it encoded with the same key. */
  predicate RoundTrips(jwt: Jwt, claims: Claims, key: string, algorithm: string) {
    jwt.decode(jwt.encode(claims, key, algorithm), key, algorithm) == Some(claims)
  }

  /** The password hashing library: `hash(plain)` and `verify(plain, hashed)`. */
  datatype Hasher = Hasher(hash: string -> string, verify: (string, string) -> bool)

  /** Lifetime of an access token created without an explicit `expires_delta`. */
  const DefaultExpiryMinutes: int := 15

  /** The claims `create_access_token` encodes: a copy of `data` with `exp` set.
      Times are whole seconds; `expiresDelta` is `None` when the argument is
      omitted. A zero `timedelta` is false in Python, so it also gets the default. */
  function TokenClaims(data: Claims, now: int, expiresDelta: Option<int>): (c: Claims)
    ensures c.Keys == data.Keys + {"exp"}
    ensures forall k :: k in data && k != "exp" ==> c[k] == data[k]
    ensures expiresDelta.None? || expiresDelta == Some(0) ==> c["exp"] == Int(now + 15 * 60)
    ensures expiresDelta.Some? && expiresDelta.value != 0 ==> c["exp"] == Int(now + expiresDelta.value)
  {
    var expire := if expiresDelta.Some? && expiresDelta.value != 0 then now + expiresDelta.value
                  else now + DefaultExpiryMinutes * 60;
    data["exp" := Int(expire)]
  }

  /** The `ValueError` raised when no secret is configured. */
  datatype ConfigError = SecretNotConfigured

  /** `create_access_token`: the claims are built first, then a missing secret
      raises before anything is encoded. */
  function CreateAccessToken(settings: Settings, jwt: Jwt, data: Claims, now: int, expiresDelta: Option<int>)
    : (r: Result<string, ConfigError>)
    ensures r.Failure? <==> !SecretConfigured(settings)
    ensures r.Success? ==>
      r.value == jwt.encode(TokenClaims(data, now, expiresDelta), settings.jwtSecret.value, settings.jwtAlgorithm)
  {
    var toEncode := TokenClaims(data, now, expiresDelta);
    if !SecretConfigured(settings) then Failure(SecretNotConfigured)
    else Success(jwt.encode(toEncode, settings.jwtSecret.value, settings.jwtAlgorithm))
  }

  /** Python's `str(v)` of a JSON value. */
  function PyStr(v: ClaimValue): (s: string)
    ensures v.Str? ==> s == v.s
    ensures v.Int? ==> s == Decimal.FromInt(v.i)
    ensures v.Bool? ==> s == (if v.b then "True" else "False")
    ensures v.Null? ==> s == "None"
  {
    match v
    case Str(s) => s
    case Int(i) => Decimal.FromInt(i)
    case Bool(b) => if b then "True" else "False"
    case Null => "None"
  }

  /** `verify_token`: the subject named by a valid token, as a string. */
  function VerifyToken(settings: Settings, jwt: Jwt, token: string): (r: Option<string>)
    ensures !SecretConfigured(settings) ==> r.None?
    ensures SecretConfigured(settings) && jwt.decode(token, settings.jwtSecret.value, settings.jwtAlgorithm).None? ==> r.None?
    ensures SecretConfigured(settings) ==>
      var p := jwt.decode(token, settings.jwtSecret.value, settings.jwtAlgorithm);
      p.Some? ==> (r.Some? <==> "sub" in p.value && p.value["sub"] != Null)
    ensures r.Some? ==>
      var p := jwt.decode(token, settings.jwtSecret.value, settings.jwtAlgorithm);
      p.Some? && "sub" in p.value && r.value == PyStr(p.value["sub"])
  {
    if !SecretConfigured(settings) then None
    else
      var payload := jwt.decode(token, settings.jwtSecret.value, settings.jwtAlgorithm);
      if payload.None? then None
      else if "sub" !in payload.value || payload.value["sub"] == Null then None
      else Some(PyStr(payload.value["sub"]))
  }

  /** A token made by `create_access_token` verifies to its subject, whatever
      the expiry, as long as the library decodes what it encoded. */
  lemma CreatedTokenVerifies(settings: Settings, jwt: Jwt, data: Claims, now: int, expiresDelta: Option<int>)
    requires SecretConfigured(settings)
    requires RoundTrips(jwt, TokenClaims(data, now, expiresDelta), settings.jwtSecret.value, settings.jwtAlgorithm)
    requires "sub" in data && data["sub"] != Null
    ensures CreateAccessToken(settings, jwt, data, now, expiresDelta).Success?
    ensures VerifyToken(settings, jwt, CreateAccessToken(settings, jwt, data, now, expiresDelta).value)
            == Some(PyStr(data["sub"]))
  {
    var c := TokenClaims(data, now, expiresDelta);
    assert c["sub"] == data["sub"];
  }
}
