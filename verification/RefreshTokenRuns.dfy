/**
  Whole runs of logins, refreshes and logouts served one at a time: each family is a chain of rows, a token is
  accepted at most once, reuse kills the family, and so does logout. Random UUIDs are assumed not to repeat; bcrypt
  may accept anything besides a token's own hash.
*/
module RefreshTokenRuns {
  import opened Basics
  import opened RefreshTokens
  import opened Runs

  /** first is the row that SELECT revoked_at lists first for this call. */
  datatype Call = Call(req: Request, env: Env, first: set<nat> -> nat)

  ghost predicate Unused(s: Store, f: Uuid) {
    forall t: Jwt :: t in s.issued ==> t.familyId != f
  }

  ghost predicate CanMake(s: Store, call: Call) {
    IsChoice(call.first) && (call.req.Login? ==> Unused(s, call.env.uuid))
  }

  ghost function Legal(): (Store, Call) -> bool {
    (s, call) => CanMake(s, call)
  }

  function Next(bcrypt: Bcrypt<Jwt>): (Store, Call) -> Store {
    (s: Store, call: Call) => Serve(s, call.req, bcrypt, call.first, call.env).0
  }

  /** The table before the k-th call of a run that starts on an empty table. */
  function Before(calls: seq<Call>, k: nat, bcrypt: Bcrypt<Jwt>): Store
    requires k <= |calls|
  {
    After(Next(bcrypt), EMPTY_STORE, calls[..k])
  }

  function ReplyTo(calls: seq<Call>, k: nat, bcrypt: Bcrypt<Jwt>): Reply
    requires k < |calls|
  {
    Serve(Before(calls, k, bcrypt), calls[k].req, bcrypt, calls[k].first, calls[k].env).1
  }

  ghost predicate IsRun(calls: seq<Call>, bcrypt: Bcrypt<Jwt>) {
    Honest(bcrypt) && LegalRun(Next(bcrypt), Legal(), EMPTY_STORE, calls)
  }

  // ---------------------------------------------------------------- the invariant

  ghost predicate IdsBelowCounter(s: Store) {
    && (forall id :: id in s.rows ==> id < s.nextId)
    && (forall t: Jwt :: t in s.issued ==> t.id < s.nextId)
  }

  ghost predicate OneTokenPerId(s: Store) {
    forall t: Jwt, u: Jwt :: t in s.issued && u in s.issued && t.id == u.id ==> t == u
  }

  ghost predicate HasToken(s: Store, id: nat) {
    exists t: Jwt :: t in s.issued && t.id == id
  }

  /** Every row was signed for, and agrees with its token. */
  ghost predicate RowsMatchTokens(s: Store, bcrypt: Bcrypt<Jwt>) {
    && (forall id :: id in s.rows ==> HasToken(s, id))
    && (forall t: Jwt :: t in s.issued && t.id in s.rows ==>
          var row := s.rows[t.id];
          && row.userId == t.userId && row.familyId == t.familyId
          && row.tokenHash.Some? && bcrypt.compare(t, row.tokenHash.value))
  }

  ghost predicate OneUserPerFamily(s: Store) {
    forall t: Jwt, u: Jwt :: t in s.issued && u in s.issued && t.familyId == u.familyId ==> t.userId == u.userId
  }

  /** In a family, every row but the newest is used. */
  ghost predicate OlderRowsUsed(s: Store) {
    forall i, j :: i in s.rows && j in s.rows && i < j && s.rows[i].familyId == s.rows[j].familyId ==> s.rows[i].used
  }

  ghost predicate OneStatusPerFamily(s: Store) {
    forall i, j :: i in s.rows && j in s.rows && s.rows[i].familyId == s.rows[j].familyId ==>
      s.rows[i].revokedAt.Some? == s.rows[j].revokedAt.Some?
  }

  /** Rows disappear by whole families. */
  ghost predicate FamiliesWhole(s: Store) {
    forall t: Jwt, id :: t in s.issued && t.id !in s.rows && id in s.rows ==> s.rows[id].familyId != t.familyId
  }

  ghost predicate Chains(s: Store, bcrypt: Bcrypt<Jwt>) {
    && IdsBelowCounter(s) && OneTokenPerId(s) && RowsMatchTokens(s, bcrypt) && OneUserPerFamily(s)
    && OlderRowsUsed(s) && OneStatusPerFamily(s) && FamiliesWhole(s)
  }

  /** s2 is s with one more row, live and signed for by t. */
  ghost predicate Extends(s: Store, s2: Store, t: Jwt, bcrypt: Bcrypt<Jwt>) {
    && t.id == s.nextId && s2.nextId == s.nextId + 1 && s2.issued == s.issued + {t}
    && s2.rows.Keys == s.rows.Keys + {t.id}
    && (forall id :: id in s.rows && id != t.id ==> s2.rows[id] == s.rows[id])
    && var row := s2.rows[t.id];
    && row.userId == t.userId && row.familyId == t.familyId && !row.used && row.revokedAt.None?
    && row.tokenHash.Some? && bcrypt.compare(t, row.tokenHash.value)
  }

  /** The family of t is new, or it is whole, belongs to the same user, and has no revoked and no unused row. */
  ghost predicate MayJoin(s: Store, t: Jwt) {
    && (forall u: Jwt :: u in s.issued && u.familyId == t.familyId ==> u.userId == t.userId && u.id in s.rows)
    && (forall id :: id in s.rows && s.rows[id].familyId == t.familyId ==>
          s.rows[id].used && s.rows[id].revokedAt.None?)
  }

  lemma CreateExtends(s: Store, userId: int, familyId: Option<Uuid>, bcrypt: Bcrypt<Jwt>, env: Env)
    requires Honest(bcrypt)
    ensures var (s2, t) := CreateRefreshToken(s, userId, familyId, bcrypt, env); Extends(s, s2, t, bcrypt)
  {
  }

  lemma ExtensionKeepsIds(s: Store, s2: Store, t: Jwt, bcrypt: Bcrypt<Jwt>)
    requires IdsBelowCounter(s) && OneTokenPerId(s) && Extends(s, s2, t, bcrypt)
    ensures IdsBelowCounter(s2) && OneTokenPerId(s2)
  {
  }

  lemma ExtensionKeepsMatches(s: Store, s2: Store, t: Jwt, bcrypt: Bcrypt<Jwt>)
    requires IdsBelowCounter(s) && RowsMatchTokens(s, bcrypt) && Extends(s, s2, t, bcrypt)
    ensures RowsMatchTokens(s2, bcrypt)
  {
    forall id | id in s2.rows ensures HasToken(s2, id) {
      if id == t.id {
        assert t in s2.issued;
      } else {
        var u: Jwt :| u in s.issued && u.id == id;
        assert u in s2.issued;
      }
    }
  }

  lemma ExtensionKeepsFamilies(s: Store, s2: Store, t: Jwt, bcrypt: Bcrypt<Jwt>)
    requires Chains(s, bcrypt) && Extends(s, s2, t, bcrypt) && MayJoin(s, t)
    ensures OneUserPerFamily(s2) && OlderRowsUsed(s2) && OneStatusPerFamily(s2) && FamiliesWhole(s2)
  {
  }

  lemma NewFamilyMayJoin(s: Store, t: Jwt, bcrypt: Bcrypt<Jwt>)
    requires Chains(s, bcrypt) && Unused(s, t.familyId)
    ensures MayJoin(s, t)
  {
    forall id | id in s.rows ensures s.rows[id].familyId != t.familyId {
      assert HasToken(s, id);
    }
  }

  lemma MarkKeepsChains(s: Store, t: Jwt, bcrypt: Bcrypt<Jwt>)
    requires Chains(s, bcrypt)
    ensures Chains(MarkUsed(s, t.id), bcrypt)
  {
    forall id | id in s.rows ensures HasToken(MarkUsed(s, t.id), id) {
      assert HasToken(s, id);
    }
  }

  lemma RevokeKeepsChains(s: Store, f: Uuid, now: int, bcrypt: Bcrypt<Jwt>)
    requires Chains(s, bcrypt)
    ensures Chains(RevokeFamily(s, f, now), bcrypt)
  {
    forall id | id in s.rows ensures HasToken(RevokeFamily(s, f, now), id) {
      assert HasToken(s, id);
    }
  }

  lemma DeleteKeepsChains(s: Store, f: Uuid, bcrypt: Bcrypt<Jwt>)
    requires Chains(s, bcrypt)
    ensures Chains(DeleteFamily(s, f), bcrypt)
  {
    forall id | id in DeleteFamily(s, f).rows ensures HasToken(DeleteFamily(s, f), id) {
      assert HasToken(s, id);
    }
  }

  /** Under the invariant the one row the code looks at speaks for the whole family. */
  lemma RevokedIsUniform(s: Store, bcrypt: Bcrypt<Jwt>, first: set<nat> -> nat, id: nat)
    requires Chains(s, bcrypt) && IsChoice(first) && id in s.rows
    ensures IsRevoked(s, s.rows[id].familyId, first) == s.rows[id].revokedAt.Some?
  {
    assert id in FamilyIds(s, s.rows[id].familyId);
  }

  /** Validation decides by the row of the token alone, and a genuine token with a live row is accepted. */
  lemma AcceptedExactlyWhen(s: Store, t: Jwt, bcrypt: Bcrypt<Jwt>, first: set<nat> -> nat, now: int)
    requires Chains(s, bcrypt) && IsChoice(first)
    ensures Validate(s, t, bcrypt, first, now).1.Success? <==>
              && t in s.issued && now / 1000 < t.exp
              && t.id in s.rows && !s.rows[t.id].used && s.rows[t.id].revokedAt.None? && now <= s.rows[t.id].expiresAt
  {
    if t in s.issued && t.id in s.rows {
      RevokedIsUniform(s, bcrypt, first, t.id);
    }
  }

  /** Once its newest token is marked, a live family may be continued. */
  lemma MarkedMayJoin(s: Store, t: Jwt, u: Jwt, bcrypt: Bcrypt<Jwt>)
    requires Chains(s, bcrypt) && t in s.issued && t.id in s.rows
    requires !s.rows[t.id].used && s.rows[t.id].revokedAt.None?
    requires u.userId == t.userId && u.familyId == t.familyId
    ensures MayJoin(MarkUsed(s, t.id), u)
  {
  }

  lemma ContinueKeepsChains(s: Store, userId: int, familyId: Option<Uuid>, env: Env, bcrypt: Bcrypt<Jwt>)
    requires Honest(bcrypt) && Chains(s, bcrypt)
    requires MayJoin(s, CreateRefreshToken(s, userId, familyId, bcrypt, env).1)
    ensures Chains(CreateRefreshToken(s, userId, familyId, bcrypt, env).0, bcrypt)
  {
    var (s2, u) := CreateRefreshToken(s, userId, familyId, bcrypt, env);
    CreateExtends(s, userId, familyId, bcrypt, env);
    ExtensionKeepsIds(s, s2, u, bcrypt);
    ExtensionKeepsMatches(s, s2, u, bcrypt);
    ExtensionKeepsFamilies(s, s2, u, bcrypt);
  }

  lemma RefusalKeepsChains(s: Store, t: Jwt, now: int, bcrypt: Bcrypt<Jwt>, first: set<nat> -> nat)
    requires Chains(s, bcrypt) && Validate(s, t, bcrypt, first, now).1.Failure?
    ensures Chains(Validate(s, t, bcrypt, first, now).0, bcrypt)
  {
    RevokeKeepsChains(s, t.familyId, now, bcrypt);
  }

  lemma RotationKeepsChains(s: Store, t: Jwt, env: Env, bcrypt: Bcrypt<Jwt>)
    requires Honest(bcrypt) && Chains(s, bcrypt) && t in s.issued && t.id in s.rows
    requires !s.rows[t.id].used && s.rows[t.id].revokedAt.None?
    ensures Chains(CreateRefreshToken(MarkUsed(s, t.id), t.userId, Some(t.familyId), bcrypt, env).0, bcrypt)
  {
    var s1 := MarkUsed(s, t.id);
    MarkKeepsChains(s, t, bcrypt);
    MarkedMayJoin(s, t, CreateRefreshToken(s1, t.userId, Some(t.familyId), bcrypt, env).1, bcrypt);
    ContinueKeepsChains(s1, t.userId, Some(t.familyId), env, bcrypt);
  }

  lemma RefreshKeepsChains(s: Store, t: Jwt, env: Env, bcrypt: Bcrypt<Jwt>, first: set<nat> -> nat)
    requires Honest(bcrypt) && IsChoice(first) && Chains(s, bcrypt)
    ensures Chains(Serve(s, Refresh(Some(t)), bcrypt, first, env).0, bcrypt)
  {
    if Validate(s, t, bcrypt, first, env.now).1.Success? {
      AcceptedExactlyWhen(s, t, bcrypt, first, env.now);
      RotationKeepsChains(s, t, env, bcrypt);
    } else {
      RefusalKeepsChains(s, t, env.now, bcrypt, first);
    }
  }

  lemma ServeKeepsChains(s: Store, call: Call, bcrypt: Bcrypt<Jwt>)
    requires Honest(bcrypt) && Chains(s, bcrypt) && CanMake(s, call)
    ensures Chains(Serve(s, call.req, bcrypt, call.first, call.env).0, bcrypt)
  {
    match call.req
    case Login(userId) =>
      NewFamilyMayJoin(s, CreateRefreshToken(s, userId, None, bcrypt, call.env).1, bcrypt);
      ContinueKeepsChains(s, userId, None, call.env, bcrypt);
    case Logout(cookie) =>
      if cookie.Some? {
        DeleteKeepsChains(s, cookie.value.familyId, bcrypt);
      }
    case Refresh(cookie) =>
      if cookie.Some? {
        RefreshKeepsChains(s, cookie.value, call.env, bcrypt, call.first);
      }
  }

  ghost function ChainsOf(bcrypt: Bcrypt<Jwt>): Store -> bool {
    s => Chains(s, bcrypt)
  }

  lemma ChainsKept(bcrypt: Bcrypt<Jwt>)
    requires Honest(bcrypt)
    ensures Keeps(Next(bcrypt), Legal(), ChainsOf(bcrypt)) && ChainsOf(bcrypt)(EMPTY_STORE)
  {
    forall s: Store, call: Call | ChainsOf(bcrypt)(s) && Legal()(s, call)
      ensures ChainsOf(bcrypt)(Next(bcrypt)(s, call))
    {
      ServeKeepsChains(s, call, bcrypt);
    }
  }

  /** In every reachable state each family is a chain. */
  lemma ReachableChains(calls: seq<Call>, k: nat, bcrypt: Bcrypt<Jwt>)
    requires IsRun(calls, bcrypt) && k <= |calls|
    ensures Chains(Before(calls, k, bcrypt), bcrypt)
  {
    ChainsKept(bcrypt);
    PrefixLegal(Next(bcrypt), Legal(), EMPTY_STORE, calls, k);
    InvariantAlong(Next(bcrypt), Legal(), ChainsOf(bcrypt), EMPTY_STORE, calls[..k]);
  }

  /** At most one token of a family would be accepted, whatever the times at which they are presented. */
  lemma OneLiveTokenPerFamily(calls: seq<Call>, k: nat, t: Jwt, u: Jwt, now: int, later: int,
                              bcrypt: Bcrypt<Jwt>, first: set<nat> -> nat, other: set<nat> -> nat)
    requires IsChoice(first) && IsChoice(other)
    requires IsRun(calls, bcrypt) && k <= |calls| && t.familyId == u.familyId
    requires Validate(Before(calls, k, bcrypt), t, bcrypt, first, now).1.Success?
    requires Validate(Before(calls, k, bcrypt), u, bcrypt, other, later).1.Success?
    ensures t == u
  {
    ReachableChains(calls, k, bcrypt);
    AcceptedExactlyWhen(Before(calls, k, bcrypt), t, bcrypt, first, now);
    AcceptedExactlyWhen(Before(calls, k, bcrypt), u, bcrypt, other, later);
  }

  // ---------------------------------------------------------------- facts that never change back

  /** The token's row is used or gone. */
  ghost predicate Spent(s: Store, t: Jwt) {
    t.id < s.nextId && (t.id in s.rows ==> s.rows[t.id].used)
  }

  /** No row of the family is unrevoked, and the family cannot be drawn again. */
  ghost predicate Dead(s: Store, f: Uuid) {
    && !Unused(s, f)
    && (forall id :: id in s.rows && s.rows[id].familyId == f ==> s.rows[id].revokedAt.Some?)
  }

  ghost function SpentOf(t: Jwt): Store -> bool {
    s => Spent(s, t)
  }

  ghost function DeadOf(f: Uuid): Store -> bool {
    s => Dead(s, f)
  }

  lemma DeadIsRefused(s: Store, t: Jwt, bcrypt: Bcrypt<Jwt>, first: set<nat> -> nat, now: int)
    requires Chains(s, bcrypt) && IsChoice(first) && Dead(s, t.familyId)
    ensures Validate(s, t, bcrypt, first, now).1.Failure?
  {
    AcceptedExactlyWhen(s, t, bcrypt, first, now);
  }

  lemma SpentStep(s: Store, call: Call, bcrypt: Bcrypt<Jwt>, t: Jwt)
    requires Spent(s, t)
    ensures Spent(Serve(s, call.req, bcrypt, call.first, call.env).0, t)
  {
  }

  lemma DeadStep(s: Store, call: Call, bcrypt: Bcrypt<Jwt>, f: Uuid)
    requires Chains(s, bcrypt) && CanMake(s, call) && Dead(s, f)
    ensures Dead(Serve(s, call.req, bcrypt, call.first, call.env).0, f)
  {
    var u: Jwt :| u in s.issued && u.familyId == f;
    var s2 := Serve(s, call.req, bcrypt, call.first, call.env).0;
    assert u in s2.issued;
    if call.req.Refresh? && call.req.cookie.Some? {
      var t := call.req.cookie.value;
      if t.familyId == f {
        DeadIsRefused(s, t, bcrypt, call.first, call.env.now);
      }
    }
  }

  lemma SpentForever(calls: seq<Call>, k: nat, j: nat, t: Jwt, bcrypt: Bcrypt<Jwt>)
    requires IsRun(calls, bcrypt) && k <= j <= |calls| && Spent(Before(calls, k, bcrypt), t)
    ensures Spent(Before(calls, j, bcrypt), t)
  {
    ChainsKept(bcrypt);
    forall s: Store, call: Call | ChainsOf(bcrypt)(s) && SpentOf(t)(s) && Legal()(s, call)
      ensures SpentOf(t)(Next(bcrypt)(s, call))
    {
      SpentStep(s, call, bcrypt, t);
    }
    PrefixLegal(Next(bcrypt), Legal(), EMPTY_STORE, calls, j);
    assert calls[..j][..k] == calls[..k];
    OnceTrueStaysTrue(Next(bcrypt), Legal(), ChainsOf(bcrypt), SpentOf(t), EMPTY_STORE, calls[..j], k);
  }

  lemma DeadForever(calls: seq<Call>, k: nat, j: nat, f: Uuid, bcrypt: Bcrypt<Jwt>)
    requires IsRun(calls, bcrypt) && k <= j <= |calls| && Dead(Before(calls, k, bcrypt), f)
    ensures Dead(Before(calls, j, bcrypt), f)
  {
    ChainsKept(bcrypt);
    forall s: Store, call: Call | ChainsOf(bcrypt)(s) && DeadOf(f)(s) && Legal()(s, call)
      ensures DeadOf(f)(Next(bcrypt)(s, call))
    {
      DeadStep(s, call, bcrypt, f);
    }
    PrefixLegal(Next(bcrypt), Legal(), EMPTY_STORE, calls, j);
    assert calls[..j][..k] == calls[..k];
    OnceTrueStaysTrue(Next(bcrypt), Legal(), ChainsOf(bcrypt), DeadOf(f), EMPTY_STORE, calls[..j], k);
  }

  // ---------------------------------------------------------------- the three promises

  lemma SpentOnceAccepted(s: Store, t: Jwt, bcrypt: Bcrypt<Jwt>, first: set<nat> -> nat, env: Env)
    requires Chains(s, bcrypt) && IsChoice(first) && Serve(s, Refresh(Some(t)), bcrypt, first, env).1.Issued?
    ensures Spent(Serve(s, Refresh(Some(t)), bcrypt, first, env).0, t)
  {
    AcceptedExactlyWhen(s, t, bcrypt, first, env.now);
  }

  /** A token that bought a new one is never accepted again in the run. */
  lemma AcceptedAtMostOnce(calls: seq<Call>, i: nat, j: nat, t: Jwt, bcrypt: Bcrypt<Jwt>)
    requires IsRun(calls, bcrypt)
    requires i < j < |calls| && calls[i].req == calls[j].req == Refresh(Some(t))
    requires ReplyTo(calls, i, bcrypt).Issued?
    ensures ReplyTo(calls, j, bcrypt).Refused?
  {
    ReachableChains(calls, i, bcrypt);
    SpentOnceAccepted(Before(calls, i, bcrypt), t, bcrypt, calls[i].first, calls[i].env);
    AfterOneMore(Next(bcrypt), EMPTY_STORE, calls, i);
    SpentForever(calls, i + 1, j, t, bcrypt);
    ReachableChains(calls, j, bcrypt);
    AcceptedExactlyWhen(Before(calls, j, bcrypt), t, bcrypt, calls[j].first, calls[j].env.now);
  }

  /** A family dead before step k: nothing of it is accepted from then on. */
  lemma DeadMeansRefusedLater(calls: seq<Call>, k: nat, j: nat, u: Jwt, bcrypt: Bcrypt<Jwt>)
    requires IsRun(calls, bcrypt)
    requires k <= j < |calls| && calls[j].req == Refresh(Some(u))
    requires Dead(Before(calls, k, bcrypt), u.familyId)
    ensures ReplyTo(calls, j, bcrypt).Refused?
  {
    DeadForever(calls, k, j, u.familyId, bcrypt);
    ReachableChains(calls, j, bcrypt);
    DeadIsRefused(Before(calls, j, bcrypt), u, bcrypt, calls[j].first, calls[j].env.now);
  }

  /** A token that reuse detection catches: genuine, unexpired both as a signed token and as a row, and used. */
  ghost predicate Reused(s: Store, t: Jwt, now: int) {
    Verifies(s, t, now) && t.id in s.rows && s.rows[t.id].used && now <= s.rows[t.id].expiresAt
  }

  lemma ReuseRevokes(s: Store, t: Jwt, bcrypt: Bcrypt<Jwt>, first: set<nat> -> nat, env: Env)
    requires Chains(s, bcrypt) && IsChoice(first) && Reused(s, t, env.now)
    ensures var (s2, reply) := Serve(s, Refresh(Some(t)), bcrypt, first, env); reply.Refused? && Dead(s2, t.familyId)
  {
    RevokedIsUniform(s, bcrypt, first, t.id);
    assert t in RevokeFamily(s, t.familyId, env.now).issued;
  }

  /** A refresh revokes a live family exactly when it presents such a token. A used token whose row has expired does
      not count as reuse, because the expiry is checked first. */
  lemma RevokesExactlyOnReuse(s: Store, t: Jwt, bcrypt: Bcrypt<Jwt>, first: set<nat> -> nat, env: Env, id: nat)
    requires Chains(s, bcrypt) && IsChoice(first)
    requires id in s.rows && s.rows[id].familyId == t.familyId && s.rows[id].revokedAt.None?
    ensures Serve(s, Refresh(Some(t)), bcrypt, first, env).0.rows[id].revokedAt.Some? <==> Reused(s, t, env.now)
  {
    if t in s.issued && t.id in s.rows {
      RevokedIsUniform(s, bcrypt, first, t.id);
    }
  }

  const FIRST_TOKEN := Jwt(0, 1, 7, 100)
  const SECOND_TOKEN := Jwt(1, 1, 7, 100)

  /** The first row expires at 10, the second at 1000; the third call presents the first token again at 50. */
  function ExpiredReuse(first: set<nat> -> nat): seq<Call> {
    [Call(Login(1), Env(0, 10, 100, 0, 7), first), Call(Refresh(Some(FIRST_TOKEN)), Env(0, 1000, 100, 0, 0), first),
     Call(Refresh(Some(FIRST_TOKEN)), Env(50, 1000, 100, 0, 0), first)]
  }

  lemma ExpiredReuseStates(bcrypt: Bcrypt<Jwt>, first: set<nat> -> nat) returns (s1: Store, s2: Store)
    requires Honest(bcrypt) && IsChoice(first)
    ensures IsRun(ExpiredReuse(first), bcrypt)
    ensures Before(ExpiredReuse(first), 1, bcrypt) == s1 && Before(ExpiredReuse(first), 2, bcrypt) == s2
    ensures var row := Row(1, 7, Some(bcrypt.hash(FIRST_TOKEN, 0)), false, None, 10);
            && s1 == Store(map[0 := row], 1, {FIRST_TOKEN})
            && s2 == Store(map[0 := row.(used := true),
                               1 := Row(1, 7, Some(bcrypt.hash(SECOND_TOKEN, 0)), false, None, 1000)],
                           2, {FIRST_TOKEN, SECOND_TOKEN})
  {
    var next, calls := Next(bcrypt), ExpiredReuse(first);
    s1 := next(EMPTY_STORE, calls[0]);
    assert FamilyIds(s1, 7) == {0};
    s2 := next(s1, calls[1]);
    assert calls[..0] == [] && Before(calls, 0, bcrypt) == EMPTY_STORE;
    AfterOneMore(next, EMPTY_STORE, calls, 0);
    AfterOneMore(next, EMPTY_STORE, calls, 1);
    forall k | 0 <= k < |calls| ensures Legal()(After(next, EMPTY_STORE, calls[..k]), calls[k]) {}
  }

  /** The documented rule, a token presented a second time revokes its family, fails in this run: the first token
      verifies and has bought the second, but it is refused for its expired row, nothing changes, and the second token
      is accepted. */
  lemma ExpiredReuseGoesUnnoticed(bcrypt: Bcrypt<Jwt>, first: set<nat> -> nat)
    requires Honest(bcrypt) && IsChoice(first)
    ensures IsRun(ExpiredReuse(first), bcrypt)
    ensures ReplyTo(ExpiredReuse(first), 1, bcrypt) == Issued(SECOND_TOKEN)
    ensures Verifies(Before(ExpiredReuse(first), 2, bcrypt), FIRST_TOKEN, 50)
    ensures ReplyTo(ExpiredReuse(first), 2, bcrypt).Refused?
    ensures Before(ExpiredReuse(first), 3, bcrypt) == Before(ExpiredReuse(first), 2, bcrypt)
    ensures Validate(Before(ExpiredReuse(first), 3, bcrypt), SECOND_TOKEN, bcrypt, first, 50).1.Success?
  {
    var s1, s2 := ExpiredReuseStates(bcrypt, first);
    assert FamilyIds(s1, 7) == {0};
    assert FamilyIds(s2, 7) == {0, 1};
    AfterOneMore(Next(bcrypt), EMPTY_STORE, ExpiredReuse(first), 2);
  }

  /** Presenting such a token is refused and kills the family: no token of it, the newest included, is accepted
      at any later call. */
  lemma ReuseKillsFamily(calls: seq<Call>, i: nat, j: nat, t: Jwt, u: Jwt, bcrypt: Bcrypt<Jwt>)
    requires IsRun(calls, bcrypt)
    requires i < j < |calls| && calls[i].req == Refresh(Some(t)) && calls[j].req == Refresh(Some(u))
    requires u.familyId == t.familyId && Reused(Before(calls, i, bcrypt), t, calls[i].env.now)
    ensures ReplyTo(calls, i, bcrypt).Refused? && ReplyTo(calls, j, bcrypt).Refused?
  {
    ReachableChains(calls, i, bcrypt);
    ReuseRevokes(Before(calls, i, bcrypt), t, bcrypt, calls[i].first, calls[i].env);
    AfterOneMore(Next(bcrypt), EMPTY_STORE, calls, i);
    DeadMeansRefusedLater(calls, i + 1, j, u, bcrypt);
  }

  lemma LogoutKills(s: Store, t: Jwt, bcrypt: Bcrypt<Jwt>, first: set<nat> -> nat, env: Env)
    requires Serve(s, Logout(Some(t)), bcrypt, first, env).1.LoggedOut?
    ensures Dead(Serve(s, Logout(Some(t)), bcrypt, first, env).0, t.familyId)
  {
    assert t in DeleteFamily(s, t.familyId).issued;
  }

  /** After a logout no token of the family is accepted at any later call. */
  lemma LogoutIsFinal(calls: seq<Call>, i: nat, j: nat, t: Jwt, u: Jwt, bcrypt: Bcrypt<Jwt>)
    requires IsRun(calls, bcrypt)
    requires i < j < |calls| && calls[i].req == Logout(Some(t)) && calls[j].req == Refresh(Some(u))
    requires u.familyId == t.familyId && ReplyTo(calls, i, bcrypt).LoggedOut?
    ensures ReplyTo(calls, j, bcrypt).Refused?
  {
    LogoutKills(Before(calls, i, bcrypt), t, bcrypt, calls[i].first, calls[i].env);
    AfterOneMore(Next(bcrypt), EMPTY_STORE, calls, i);
    DeadMeansRefusedLater(calls, i + 1, j, u, bcrypt);
  }

  lemma NewTokenRow(s: Store, req: Request, bcrypt: Bcrypt<Jwt>, first: set<nat> -> nat, env: Env)
    requires Serve(s, req, bcrypt, first, env).1.Issued?
    ensures var (s2, reply) := Serve(s, req, bcrypt, first, env);
            && reply.token in s2.issued && reply.token.exp == env.exp && reply.token.id in s2.rows
            && !s2.rows[reply.token.id].used && s2.rows[reply.token.id].revokedAt.None?
            && s2.rows[reply.token.id].expiresAt == env.expiresAt
  {
  }

  /** The other side of the three refusals: right after a login or a refresh the token handed out is accepted,
      exactly until one of its two expiry instants has passed. */
  lemma NewTokenIsAccepted(calls: seq<Call>, i: nat, bcrypt: Bcrypt<Jwt>, first: set<nat> -> nat, now: int)
    requires IsChoice(first) && IsRun(calls, bcrypt) && i < |calls| && ReplyTo(calls, i, bcrypt).Issued?
    ensures Validate(Before(calls, i + 1, bcrypt), ReplyTo(calls, i, bcrypt).token,
                     bcrypt, first, now).1.Success?
            <==> now / 1000 < calls[i].env.exp && now <= calls[i].env.expiresAt
  {
    ReachableChains(calls, i + 1, bcrypt);
    AfterOneMore(Next(bcrypt), EMPTY_STORE, calls, i);
    NewTokenRow(Before(calls, i, bcrypt), calls[i].req, bcrypt, calls[i].first, calls[i].env);
    AcceptedExactlyWhen(Before(calls, i + 1, bcrypt), ReplyTo(calls, i, bcrypt).token,
                        bcrypt, first, now);
  }
}
