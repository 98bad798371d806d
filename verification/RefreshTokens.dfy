/**
  The refresh_tokens table and the queries of RefreshTokenService, as functions on values, and the three
  requests that AuthController composes out of them: login (or register), refresh and logout.

  A signed token is its payload. The signing secret is represented by the set of payloads signed so far:
  verification succeeds exactly on those, until they expire. Nothing is assumed about bcrypt beyond the
  fact that a token matches its own hash.
*/
module RefreshTokens {
  import opened Basics

  type Uuid = nat

  /** exp is in seconds, as section 4.1.4 of RFC 7519 has it; all other instants are in milliseconds. */
  datatype Jwt = Jwt(id: nat, userId: int, familyId: Uuid, exp: int)

  datatype Row = Row(userId: int, familyId: Uuid, tokenHash: Option<string>, used: bool,
                     revokedAt: Option<int>, expiresAt: int)

  /** nextId is the serial counter of the table: it only grows, also when rows are deleted. */
  datatype Store = Store(rows: map<nat, Row>, nextId: nat, issued: set<Jwt>)

  const EMPTY_STORE := Store(map[], 0, {})

  /** What a request takes from outside: the clock, the two expiry instants computed from the configuration,
      bcrypt's salt and a random UUID. */
  datatype Env = Env(now: int, expiresAt: int, exp: int, salt: nat, uuid: Uuid)

  datatype Grant = Grant(userId: int, familyId: Uuid)

  // ---------------------------------------------------------------- single queries

  function InsertRow(s: Store, userId: int, familyId: Uuid, expiresAt: int): Store {
    s.(rows := s.rows[s.nextId := Row(userId, familyId, None, false, None, expiresAt)], nextId := s.nextId + 1)
  }

  function Sign(s: Store, t: Jwt): Store {
    s.(issued := s.issued + {t})
  }

  function SetHash(s: Store, id: nat, hash: string): Store {
    if id in s.rows then s.(rows := s.rows[id := s.rows[id].(tokenHash := Some(hash))]) else s
  }

  function MarkUsed(s: Store, id: nat): Store {
    if id in s.rows then s.(rows := s.rows[id := s.rows[id].(used := true)]) else s
  }

  function RevokeFamily(s: Store, f: Uuid, now: int): Store {
    s.(rows := map id | id in s.rows ::
         if s.rows[id].familyId == f then s.rows[id].(revokedAt := Some(now)) else s.rows[id])
  }

  function DeleteFamily(s: Store, f: Uuid): Store {
    s.(rows := map id | id in s.rows && s.rows[id].familyId != f :: s.rows[id])
  }

  function FamilyIds(s: Store, f: Uuid): set<nat> {
    set id | id in s.rows && s.rows[id].familyId == f
  }

  /** Looks at one row of the family only, whichever the database lists first. */
  function IsRevoked(s: Store, f: Uuid, first: set<nat> -> nat): bool {
    var ids := FamilyIds(s, f);
    if ids == {} then false
    else var id := first(ids); id in s.rows && s.rows[id].revokedAt.Some?
  }

  // ---------------------------------------------------------------- tokens and requests

  predicate Verifies(s: Store, t: Jwt, now: int) {
    t in s.issued && now / 1000 < t.exp
  }

  function CreateRefreshToken(s: Store, userId: int, familyId: Option<Uuid>, bcrypt: Bcrypt<Jwt>, env: Env)
    : (Store, Jwt)
  {
    var f := if familyId.Some? then familyId.value else env.uuid;
    var t := Jwt(s.nextId, userId, f, env.exp);
    (SetHash(Sign(InsertRow(s, userId, f, env.expiresAt), t), t.id, bcrypt.hash(t, env.salt)), t)
  }

  /** The checks in the order the code makes them; a token found used revokes its family, but only after the
      row has been found unexpired. */
  function Validate(s: Store, t: Jwt, bcrypt: Bcrypt<Jwt>, first: set<nat> -> nat, now: int): (Store, Result<Grant>) {
    if !Verifies(s, t, now) then (s, Failure(Unauthorized))
    else if t.id !in s.rows then (s, Failure(Unauthorized))
    else
      var row := s.rows[t.id];
      if row.userId != t.userId || row.familyId != t.familyId then (s, Failure(Unauthorized))
      else if row.tokenHash.None? then (s, Failure(Internal))    // bcrypt throws on a missing hash
      else if !bcrypt.compare(t, row.tokenHash.value) then (s, Failure(Unauthorized))
      else if IsRevoked(s, t.familyId, first) then (s, Failure(Unauthorized))
      else if row.expiresAt < now then (s, Failure(Unauthorized))
      else if row.used then (RevokeFamily(s, t.familyId, now), Failure(Unauthorized))
      else (MarkUsed(s, t.id), Success(Grant(t.userId, t.familyId)))
  }

  datatype Request =
    | Login(userId: int)
    | Refresh(cookie: Option<Jwt>)
    | Logout(cookie: Option<Jwt>)

  datatype Reply = Issued(token: Jwt) | LoggedOut | Refused(error: Error)

  function Serve(s: Store, req: Request, bcrypt: Bcrypt<Jwt>, first: set<nat> -> nat, env: Env): (Store, Reply) {
    match req
    case Login(userId) =>
      var (s', t) := CreateRefreshToken(s, userId, None, bcrypt, env);
      (s', Issued(t))
    case Refresh(cookie) =>
      if cookie.None? then (s, Refused(Unauthorized))
      else
        var (s1, grant) := Validate(s, cookie.value, bcrypt, first, env.now);
        if grant.Failure? then (s1, Refused(grant.error))
        else
          var (s2, t) := CreateRefreshToken(s1, grant.value.userId, Some(grant.value.familyId), bcrypt, env);
          (s2, Issued(t))
    case Logout(cookie) =>
      if cookie.None? || !Verifies(s, cookie.value, env.now) then (s, Refused(Unauthorized))
      else (DeleteFamily(s, cookie.value.familyId), LoggedOut)
  }
}
