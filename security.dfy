/** Token and credential resolution: the claims `create_access_token` signs and
    their expiry, the 401 that any decoding failure becomes, and the chain of
    checks `get_current_user` puts a decoded token through. The JWT signing and
    verification themselves are parameters (`encode`, `decode`).

    As written the module reads `settings.JWT_SECRET_KEY`, `settings.JWT_ALGORITHM`
    and `settings.JWT_ACCESS_TOKEN_EXPIRE_MINUTES`, none of which the `Settings`
    class declares, so every signing and every decoding raises `AttributeError`
    (`...AsWritten` below). The rest of the model reads the declared fields
    `secret_key`, `algorithm` and `access_token_expire_minutes`. */
module Security {
  import opened Domain
  import opened Queries

  /** A claim value: the routers put text (the user id in "sub"); "exp" is a time; a
      JSON `null` is `Null`. */
  datatype ClaimValue = Text(s: string) | Time(t: Instant) | Null

  type Claims = map<string, ClaimValue>

  /** The configured default lifetime, `access_token_expire_minutes` in the settings. */
  const DefaultExpireMinutes: nat := 30

  /** The fields the `Settings` class declares. */
  const SettingsFields: set<string> := {"database_url", "secret_key", "access_token_expire_minutes", "algorithm"}

  /** The settings names the token functions read as written. */
  const ReadAsWritten: set<string> := {"JWT_SECRET_KEY", "JWT_ALGORITHM", "JWT_ACCESS_TOKEN_EXPIRE_MINUTES"}

  /** Reading every one of `names` from the settings succeeds; reading an undeclared
      name raises `AttributeError`. */
  predicate SettingsDeclare(names: set<string>) {
    names <= SettingsFields
  }

  /** `expires_delta or timedelta(minutes=default)`: a zero delta is falsy, so it
      falls back to the default like a missing one; any other delta, negative
      ones included, is used as given. */
  function Lifetime(delta: Option<int>, defaultMinutes: nat): (r: int)
    ensures delta.Some? && delta.value != 0 ==> r == delta.value
    ensures delta.None? || delta.value == 0 ==> r == defaultMinutes * 60
  {
    if delta.Some? && delta.value != 0 then delta.value else defaultMinutes * 60
  }

  /** `to_encode`: a copy of `data` with "exp" set to now plus the lifetime. The
      caller's map is a value, so it cannot be changed. */
  function TokenClaims(data: Claims, now: Instant, delta: Option<int>, defaultMinutes: nat): (r: Claims)
    ensures r.Keys == data.Keys + {"exp"}
    ensures r["exp"] == Time(now + Lifetime(delta, defaultMinutes))
    ensures forall k :: k in data && k != "exp" ==> r[k] == data[k]
  {
    data["exp" := Time(now + Lifetime(delta, defaultMinutes))]
  }

  /** `create_access_token`: the signed form of `TokenClaims`. */
  function CreateAccessToken(encode: Claims -> string, data: Claims, now: Instant,
                             delta: Option<int>, defaultMinutes: nat): string
  {
    encode(TokenClaims(data, now, delta, defaultMinutes))
  }

  /** `create_access_token` as written: reading the undeclared settings names raises
      before anything is signed, so no token is ever issued. */
  function CreateAccessTokenAsWritten(encode: Claims -> string, data: Claims, now: Instant,
                                      delta: Option<int>): (r: Result<string>)
    ensures r == Err(InternalError)
  {
    if !SettingsDeclare(ReadAsWritten) then Err(InternalError)
    else Ok(CreateAccessToken(encode, data, now, delta, DefaultExpireMinutes))
  }

  /** `decode_access_token` as written: the settings are read inside the `try`, but
      only `JWTError` is caught, so the `AttributeError` leaves as a 500 whatever
      the token is. */
  function DecodeAccessTokenAsWritten(decode: string -> Option<Claims>, token: string): (r: Result<Claims>)
    ensures r == Err(InternalError)
  {
    if !SettingsDeclare({"JWT_SECRET_KEY", "JWT_ALGORITHM"}) then Err(InternalError)
    else DecodeAccessToken(decode, token)
  }

  /** `decode_access_token` reading the declared fields: every failure of
      `jwt.decode` (bad signature, expired, malformed) is a 401; `decode` stands
      for `jwt.decode` at the current time. */
  function DecodeAccessToken(decode: string -> Option<Claims>, token: string): (r: Result<Claims>)
    ensures r.Ok? <==> decode(token).Some?
    ensures r.Ok? ==> r.value == decode(token).value
    ensures r.Err? ==> r.error == Unauthorized
  {
    match decode(token)
    case Some(c) => Ok(c)
    case None => Err(Unauthorized)
  }

  /** The subject as the id the users query compares with: text that does not parse
      as a UUID makes the query itself fail. python-jose's `jwt.decode` already
      refuses a non-text "sub" with a `JWTClaimsError` (a 401), so the non-text
      branches are reached only with a decoder that yields non-text subjects. */
  function SubjectId(parseUuid: string -> Option<Uuid>, v: ClaimValue): Option<Uuid> {
    match v
    case Text(s) => parseUuid(s)
    case Time(_) => None
    case Null => None
  }

  /** `payload.get("sub") is not None`: the claim is there and is not `null`. */
  predicate HasSubject(c: Claims) {
    "sub" in c && !c["sub"].Null?
  }

  /** The id a decoded token's "sub" names, when it has one that parses. */
  function Subject(decode: string -> Option<Claims>, parseUuid: string -> Option<Uuid>, token: string): Option<Uuid> {
    if decode(token).Some? && HasSubject(decode(token).value)
    then SubjectId(parseUuid, decode(token).value["sub"])
    else None
  }

  /** The checks after decoding: 401 without a subject; a subject the query cannot
      bind is a 500; 404 without that user; 403 when the user is inactive. */
  function ResolveClaims(parseUuid: string -> Option<Uuid>, users: seq<User>, decoded: Result<Claims>): Result<User> {
    match decoded
    case Err(e) => Err(e)
    case Ok(payload) =>
      if !HasSubject(payload) then Err(Unauthorized)
      else match SubjectId(parseUuid, payload["sub"])
        case None => Err(InternalError)
        case Some(id) =>
          match FirstUser(users, ById(id))
          case None => Err(NotFound)
          case Some(i) => if !users[i].isActive then Err(Forbidden) else Ok(users[i])
  }

  /** `get_current_user`. `decode_access_token` never returns `None` (it raises), so
      the `payload is None` test cannot fire; the model folds it into the 401. */
  function GetCurrentUser(decode: string -> Option<Claims>, parseUuid: string -> Option<Uuid>,
                          users: seq<User>, token: string): (r: Result<User>)
    ensures decode(token).None? ==> r == Err(Unauthorized)
    ensures decode(token).Some? && !HasSubject(decode(token).value) ==> r == Err(Unauthorized)
    ensures r == Err(InternalError) <==>
      (decode(token).Some? && HasSubject(decode(token).value) && Subject(decode, parseUuid, token).None?)
    ensures r == Err(NotFound) <==>
      (Subject(decode, parseUuid, token).Some?
       && FirstUser(users, ById(Subject(decode, parseUuid, token).value)).None?)
    ensures r == Err(Forbidden) <==>
      (Subject(decode, parseUuid, token).Some?
       && FirstUser(users, ById(Subject(decode, parseUuid, token).value)).Some?
       && !users[FirstUser(users, ById(Subject(decode, parseUuid, token).value)).value].isActive)
    ensures r.Ok? ==> r.value in users && r.value.isActive
    ensures r.Ok? ==> Subject(decode, parseUuid, token) == Some(r.value.id)
    ensures r.Ok? <==>
      (Subject(decode, parseUuid, token).Some?
       && FirstUser(users, ById(Subject(decode, parseUuid, token).value)).Some?
       && users[FirstUser(users, ById(Subject(decode, parseUuid, token).value)).value].isActive)
    ensures r.Ok? ==> r.value == users[FirstUser(users, ById(Subject(decode, parseUuid, token).value)).value]
    ensures r.Err? ==> r.error in {Unauthorized, InternalError, NotFound, Forbidden}
  {
    ResolveClaims(parseUuid, users, DecodeAccessToken(decode, token))
  }

  /** `get_current_user` as written: since decoding always raises, every request that
      needs a user is a 500. */
  function GetCurrentUserAsWritten(decode: string -> Option<Claims>, parseUuid: string -> Option<Uuid>,
                                   users: seq<User>, token: string): (r: Result<User>)
    ensures r == Err(InternalError)
  {
    ResolveClaims(parseUuid, users, DecodeAccessTokenAsWritten(decode, token))
  }

  /** A token issued for a user's id resolves to that user when it is active and is a
      403 when it is not, provided `decode` undoes `encode` on the issued claims and
      the id's text parses back to the id. */
  lemma {:induction false} IssuedTokenResolves(
    encode: Claims -> string, decode: string -> Option<Claims>, parseUuid: string -> Option<Uuid>,
    users: seq<User>, i: nat, idText: string, now: Instant, delta: Option<int>)
    requires i < |users| && (forall j :: 0 <= j < i ==> users[j].id != users[i].id)
    requires parseUuid(idText) == Some(users[i].id)
    requires var c := TokenClaims(map["sub" := Text(idText)], now, delta, DefaultExpireMinutes);
             decode(encode(c)) == Some(c)
    ensures var token := CreateAccessToken(encode, map["sub" := Text(idText)], now, delta, DefaultExpireMinutes);
            GetCurrentUser(decode, parseUuid, users, token)
              == if users[i].isActive then Ok(users[i]) else Err(Forbidden)
  {
    var c := TokenClaims(map["sub" := Text(idText)], now, delta, DefaultExpireMinutes);
    assert "sub" in c && c["sub"] == Text(idText);
    var f := FirstUser(users, ById(users[i].id));
    assert UserMatches(ById(users[i].id), users[i]);
    assert f == Some(i);
  }

  /** The settings names as written are not declared, so a token issued for an active
      user, which the declared fields resolve to that user, is refused with a 500. */
  lemma {:induction false} IssuedTokenRefusedAsWritten(
    encode: Claims -> string, decode: string -> Option<Claims>, parseUuid: string -> Option<Uuid>,
    users: seq<User>, i: nat, idText: string, now: Instant, delta: Option<int>)
    requires i < |users| && users[i].isActive && (forall j :: 0 <= j < i ==> users[j].id != users[i].id)
    requires parseUuid(idText) == Some(users[i].id)
    requires var c := TokenClaims(map["sub" := Text(idText)], now, delta, DefaultExpireMinutes);
             decode(encode(c)) == Some(c)
    ensures !SettingsDeclare(ReadAsWritten)
    ensures var token := CreateAccessToken(encode, map["sub" := Text(idText)], now, delta, DefaultExpireMinutes);
            && GetCurrentUser(decode, parseUuid, users, token) == Ok(users[i])
            && GetCurrentUserAsWritten(decode, parseUuid, users, token) == Err(InternalError)
  {
    assert "JWT_SECRET_KEY" in ReadAsWritten;
    IssuedTokenResolves(encode, decode, parseUuid, users, i, idText, now, delta);
  }
}
