/**
  What a login, a refresh and a logout answer and leave in the table, row by row, for a table in which every family is
  a chain; and that no request touches the rows of any family but its own.
*/
module RefreshTokenOutcomes {
  import opened Basics
  import opened RefreshTokens
  import opened RefreshTokenRuns
  import opened Runs

  /** A login issues a token of a new family for the user, with a live row under the next id. */
  lemma LoginServed(s: Store, userId: int, bcrypt: Bcrypt<Jwt>, first: set<nat> -> nat, env: Env)
    ensures var (s2, reply) := Serve(s, Login(userId), bcrypt, first, env);
            var t := Jwt(s.nextId, userId, env.uuid, env.exp);
            && reply == Issued(t)
            && s2.rows == s.rows[s.nextId :=
                            Row(userId, env.uuid, Some(bcrypt.hash(t, env.salt)), false, None, env.expiresAt)]
            && s2.nextId == s.nextId + 1 && s2.issued == s.issued + {t}
  {
  }

  /** The token is genuine, unexpired, and its row is there, unexpired and unrevoked. */
  ghost predicate Presentable(s: Store, t: Jwt, now: int) {
    && t in s.issued && now / 1000 < t.exp
    && t.id in s.rows && s.rows[t.id].revokedAt.None? && now <= s.rows[t.id].expiresAt
  }

  /** An unused token buys the next one of its user and family: its own row is marked, one row is added. A used one has
      exactly the rows of its family revoked. Any other token is refused and nothing changes; so is a missing cookie. */
  lemma RefreshServed(s: Store, t: Jwt, bcrypt: Bcrypt<Jwt>, first: set<nat> -> nat, env: Env)
    requires Chains(s, bcrypt) && IsChoice(first)
    ensures var (s2, reply) := Serve(s, Refresh(Some(t)), bcrypt, first, env);
            if Presentable(s, t, env.now) && !s.rows[t.id].used then
              var u := Jwt(s.nextId, t.userId, t.familyId, env.exp);
              && reply == Issued(u)
              && s2.rows == s.rows[t.id := s.rows[t.id].(used := true)][s.nextId :=
                              Row(t.userId, t.familyId, Some(bcrypt.hash(u, env.salt)), false, None, env.expiresAt)]
              && s2.nextId == s.nextId + 1 && s2.issued == s.issued + {u}
            else if Presentable(s, t, env.now) then
              && reply == Refused(Unauthorized)
              && s2 == s.(rows := map id | id in s.rows ::
                            if s.rows[id].familyId == t.familyId then s.rows[id].(revokedAt := Some(env.now))
                            else s.rows[id])
            else
              reply == Refused(Unauthorized) && s2 == s
    ensures Serve(s, Refresh(None), bcrypt, first, env) == (s, Refused(Unauthorized))
  {
    AcceptedExactlyWhen(s, t, bcrypt, first, env.now);
    if t in s.issued && t.id in s.rows {
      RevokedIsUniform(s, bcrypt, first, t.id);
    }
  }

  /** A logout with a token that verifies, used or revoked as it may be, deletes exactly the rows of its family. */
  lemma LogoutServed(s: Store, t: Jwt, bcrypt: Bcrypt<Jwt>, first: set<nat> -> nat, env: Env)
    ensures var (s2, reply) := Serve(s, Logout(Some(t)), bcrypt, first, env);
            if t in s.issued && env.now / 1000 < t.exp then
              && reply == LoggedOut
              && s2 == s.(rows := map id | id in s.rows && s.rows[id].familyId != t.familyId :: s.rows[id])
            else
              reply == Refused(Unauthorized) && s2 == s
    ensures Serve(s, Logout(None), bcrypt, first, env) == (s, Refused(Unauthorized))
  {
  }

  /** On any table, a chain or not: what a validation asks of the token, of its row, of its hash, and of the row of the
      family that is looked at. */
  lemma ValidatedExactlyWhen(s: Store, t: Jwt, bcrypt: Bcrypt<Jwt>, first: set<nat> -> nat, now: int)
    requires IsChoice(first)
    ensures Validate(s, t, bcrypt, first, now).1.Success? <==>
              && t in s.issued && now / 1000 < t.exp && t.id in s.rows
              && var row, family := s.rows[t.id], set id | id in s.rows && s.rows[id].familyId == t.familyId;
                 && row.userId == t.userId && row.familyId == t.familyId
                 && row.tokenHash.Some? && bcrypt.compare(t, row.tokenHash.value)
                 && (family != {} ==> first(family) in s.rows && s.rows[first(family)].revokedAt.None?)
                 && now <= row.expiresAt && !row.used
    ensures Validate(s, t, bcrypt, first, now).1.Success? ==>
              Validate(s, t, bcrypt, first, now) == (s.(rows := s.rows[t.id := s.rows[t.id].(used := true)]),
                                                     Success(Grant(t.userId, t.familyId)))
  {
    assert FamilyIds(s, t.familyId) == set id | id in s.rows && s.rows[id].familyId == t.familyId;
    if t.id in s.rows && s.rows[t.id].familyId == t.familyId {
      assert t.id in FamilyIds(s, t.familyId);
    }
  }

  // ---------------------------------------------------------------- families do not touch each other

  /** The call is about family f: it presents a token of f, or draws f. */
  predicate About(call: Call, f: Uuid) {
    match call.req
    case Login(_) => call.env.uuid == f
    case Refresh(cookie) => cookie.Some? && cookie.value.familyId == f
    case Logout(cookie) => cookie.Some? && cookie.value.familyId == f
  }

  function FamilyRows(s: Store, f: Uuid): map<nat, Row> {
    map id | id in s.rows && s.rows[id].familyId == f :: s.rows[id]
  }

  lemma RowsElsewhere(s: Store, s2: Store, f: Uuid)
    requires forall id :: id in s.rows && s.rows[id].familyId == f ==> id in s2.rows && s2.rows[id] == s.rows[id]
    requires forall id :: id in s2.rows && s2.rows[id].familyId == f ==> id in s.rows && s.rows[id].familyId == f
    ensures FamilyRows(s2, f) == FamilyRows(s, f)
  {
  }

  lemma LoginElsewhere(s: Store, userId: int, env: Env, bcrypt: Bcrypt<Jwt>, first: set<nat> -> nat, f: Uuid)
    requires Chains(s, bcrypt) && env.uuid != f
    ensures FamilyRows(Serve(s, Login(userId), bcrypt, first, env).0, f) == FamilyRows(s, f)
  {
    LoginServed(s, userId, bcrypt, first, env);
    RowsElsewhere(s, Serve(s, Login(userId), bcrypt, first, env).0, f);
  }

  lemma RefreshElsewhere(s: Store, t: Jwt, env: Env, bcrypt: Bcrypt<Jwt>, first: set<nat> -> nat, f: Uuid)
    requires Chains(s, bcrypt) && IsChoice(first) && t.familyId != f
    ensures FamilyRows(Serve(s, Refresh(Some(t)), bcrypt, first, env).0, f) == FamilyRows(s, f)
  {
    RefreshServed(s, t, bcrypt, first, env);
    RowsElsewhere(s, Serve(s, Refresh(Some(t)), bcrypt, first, env).0, f);
  }

  /** Rows of a family the call is not about are the same after it. */
  lemma OthersUntouched(s: Store, call: Call, f: Uuid, bcrypt: Bcrypt<Jwt>)
    requires Chains(s, bcrypt) && CanMake(s, call) && !About(call, f)
    ensures FamilyRows(Serve(s, call.req, bcrypt, call.first, call.env).0, f) == FamilyRows(s, f)
  {
    match call.req
    case Login(userId) => LoginElsewhere(s, userId, call.env, bcrypt, call.first, f);
    case Refresh(cookie) =>
      if cookie.Some? {
        RefreshElsewhere(s, cookie.value, call.env, bcrypt, call.first, f);
      }
    case Logout(cookie) =>
  }

  lemma TokensKept(s: Store, call: Call, bcrypt: Bcrypt<Jwt>)
    ensures s.issued <= Serve(s, call.req, bcrypt, call.first, call.env).0.issued
  {
  }

  /** However long the others are busy, the rows of a family that no call is about stay as they are. */
  lemma FamilyStays(calls: seq<Call>, i: nat, j: nat, f: Uuid, bcrypt: Bcrypt<Jwt>)
    requires IsRun(calls, bcrypt) && i <= j <= |calls| && forall k :: i <= k < j ==> !About(calls[k], f)
    ensures FamilyRows(Before(calls, j, bcrypt), f) == FamilyRows(Before(calls, i, bcrypt), f)
    ensures Before(calls, i, bcrypt).issued <= Before(calls, j, bcrypt).issued
    decreases j - i
  {
    if i < j {
      ReachableChains(calls, i, bcrypt);
      AfterOneMore(Next(bcrypt), EMPTY_STORE, calls, i);
      assert Legal()(Before(calls, i, bcrypt), calls[i]);
      OthersUntouched(Before(calls, i, bcrypt), calls[i], f, bcrypt);
      TokensKept(Before(calls, i, bcrypt), calls[i], bcrypt);
      FamilyStays(calls, i + 1, j, f, bcrypt);
    }
  }

  /** A token that would be accepted is accepted at any later point, as long as no call is about its family, exactly
      until one of its two expiry instants has passed. */
  lemma TokenStaysGood(calls: seq<Call>, i: nat, j: nat, t: Jwt, now: int, later: int, bcrypt: Bcrypt<Jwt>,
                       first: set<nat> -> nat)
    requires IsRun(calls, bcrypt) && IsChoice(first) && i <= j <= |calls|
    requires forall k :: i <= k < j ==> !About(calls[k], t.familyId)
    requires Validate(Before(calls, i, bcrypt), t, bcrypt, first, now).1.Success?
    ensures t.id in Before(calls, i, bcrypt).rows
    ensures Validate(Before(calls, j, bcrypt), t, bcrypt, first, later).1.Success? <==>
              later / 1000 < t.exp && later <= Before(calls, i, bcrypt).rows[t.id].expiresAt
  {
    FamilyStays(calls, i, j, t.familyId, bcrypt);
    ReachableChains(calls, i, bcrypt);
    ReachableChains(calls, j, bcrypt);
    var s, s2 := Before(calls, i, bcrypt), Before(calls, j, bcrypt);
    AcceptedExactlyWhen(s, t, bcrypt, first, now);
    AcceptedExactlyWhen(s2, t, bcrypt, first, later);
    assert s.rows[t.id].familyId == t.familyId;
    assert t.id in FamilyRows(s, t.familyId) && FamilyRows(s, t.familyId)[t.id] == s.rows[t.id];
    assert t.id in FamilyRows(s2, t.familyId) && FamilyRows(s2, t.familyId)[t.id] == s2.rows[t.id];
  }
}
