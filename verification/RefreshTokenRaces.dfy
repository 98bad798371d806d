/**
  The same protocol with requests in flight together: every step is one query of one request, chosen freely, and a
  request may stop at any point (a failed query, a lost process). What is proved here survives every schedule. Accepting
  a token at most once, and the finality of logout and of reuse detection, are not among it: RefreshTokenRaceLimits says
  exactly when each of them fails.
*/
module RefreshTokenRaces {
  import opened Basics
  import opened RefreshTokens
  import opened Runs

  /** Where a request stands: the query it issues next, with the local variables it still needs. */
  datatype Flight =
    | Presented(t: Jwt)                         // SELECT the row of the token
    | RowRead(t: Jwt, row: Row)                 // SELECT revoked_at
    | Revoking(familyId: Uuid)                  // UPDATE revoked_at
    | Marking(t: Jwt)                           // UPDATE used
    | Reserving(userId: int, familyId: Uuid)    // INSERT
    | Hashing(t: Jwt)                           // UPDATE token_hash
    | Deleting(familyId: Uuid)                  // DELETE
    | Ended

  /** owners, accepted and inserted are history: who drew each family, which flight had which token accepted,
      and how many rows each family was ever given. */
  datatype World = World(store: Store, flights: map<nat, Flight>,
                         owners: map<Uuid, int>, accepted: map<nat, Jwt>, inserted: multiset<Uuid>)

  const QUIET := World(EMPTY_STORE, map[], map[], map[], multiset{})

  datatype Action =
    | StartLogin(flight: nat, userId: int, uuid: Uuid)
    | StartRefresh(flight: nat, t: Jwt, now: int)
    | StartLogout(flight: nat, t: Jwt, now: int)
    | Advance(flight: nat, env: Env, looked: nat)   // looked: the row of the family that SELECT revoked_at lists first
    | Drop(flight: nat)

  ghost predicate Possible(w: World, a: Action) {
    match a
    case StartLogin(i, _, f) => i !in w.flights && f !in w.owners
    case StartRefresh(i, _, _) => i !in w.flights
    case StartLogout(i, _, _) => i !in w.flights
    case Drop(i) => i in w.flights
    case Advance(i, _, looked) =>
      && i in w.flights
      && (w.flights[i].RowRead? && FamilyIds(w.store, w.flights[i].t.familyId) != {} ==>
            looked in FamilyIds(w.store, w.flights[i].t.familyId))
  }

  function Put(w: World, i: nat, flight: Flight): World {
    w.(flights := w.flights[i := flight])
  }

  function ReadRow(s: Store, t: Jwt, bcrypt: Bcrypt<Jwt>): Flight {
    if t.id !in s.rows then Ended
    else
      var row := s.rows[t.id];
      if row.userId != t.userId || row.familyId != t.familyId || row.tokenHash.None?
         || !bcrypt.compare(t, row.tokenHash.value)
      then Ended else RowRead(t, row)
  }

  function ReadRevoked(s: Store, t: Jwt, row: Row, looked: nat, now: int): Flight {
    if IsRevoked(s, t.familyId, (ids: set<nat>) => looked) then Ended
    else if row.expiresAt < now then Ended
    else if row.used then Revoking(t.familyId)
    else Marking(t)
  }

  function Move(w: World, i: nat, env: Env, looked: nat, bcrypt: Bcrypt<Jwt>): World
    requires i in w.flights
  {
    match w.flights[i]
    case Presented(t) => Put(w, i, ReadRow(w.store, t, bcrypt))
    case RowRead(t, row) => Put(w, i, ReadRevoked(w.store, t, row, looked, env.now))
    case Revoking(f) => Put(w, i, Ended).(store := RevokeFamily(w.store, f, env.now))
    case Marking(t) =>
      Put(w, i, Reserving(t.userId, t.familyId)).(store := MarkUsed(w.store, t.id), accepted := w.accepted[i := t])
    case Reserving(userId, f) =>
      var t := Jwt(w.store.nextId, userId, f, env.exp);
      Put(w, i, Hashing(t)).(store := Sign(InsertRow(w.store, userId, f, env.expiresAt), t),
                             inserted := w.inserted[f := w.inserted[f] + 1])
    case Hashing(t) => Put(w, i, Ended).(store := SetHash(w.store, t.id, bcrypt.hash(t, env.salt)))
    case Deleting(f) => Put(w, i, Ended).(store := DeleteFamily(w.store, f))
    case Ended => w
  }

  function Act(w: World, a: Action, bcrypt: Bcrypt<Jwt>): World {
    match a
    case StartLogin(i, userId, f) => Put(w, i, Reserving(userId, f)).(owners := w.owners[f := userId])
    case StartRefresh(i, t, now) => Put(w, i, if Verifies(w.store, t, now) then Presented(t) else Ended)
    case StartLogout(i, t, now) => Put(w, i, if Verifies(w.store, t, now) then Deleting(t.familyId) else Ended)
    case Advance(i, env, looked) => if i in w.flights then Move(w, i, env, looked, bcrypt) else w
    case Drop(i) => Put(w, i, Ended)
  }

  function Next(bcrypt: Bcrypt<Jwt>): (World, Action) -> World {
    (w: World, a: Action) => Act(w, a, bcrypt)
  }

  ghost function Legal(): (World, Action) -> bool {
    (w, a) => Possible(w, a)
  }

  ghost predicate IsRun(actions: seq<Action>, bcrypt: Bcrypt<Jwt>) {
    LegalRun(Next(bcrypt), Legal(), QUIET, actions)
  }

  function At(actions: seq<Action>, k: nat, bcrypt: Bcrypt<Jwt>): World
    requires k <= |actions|
  {
    After(Next(bcrypt), QUIET, actions[..k])
  }

  // ---------------------------------------------------------------- what every schedule keeps

  ghost predicate OwnedBy(owners: map<Uuid, int>, f: Uuid, userId: int) {
    f in owners && owners[f] == userId
  }

  /** Rows, tokens and requests agree with the history on whose family each is. */
  ghost predicate StoreOwned(s: Store, owners: map<Uuid, int>) {
    && (forall id :: id in s.rows ==> id < s.nextId)
    && (forall id :: id in s.rows ==> OwnedBy(owners, s.rows[id].familyId, s.rows[id].userId))
    && (forall t: Jwt :: t in s.issued ==> t.id < s.nextId && OwnedBy(owners, t.familyId, t.userId))
  }

  ghost predicate FlightOwned(flight: Flight, issued: set<Jwt>, owners: map<Uuid, int>) {
    match flight
    case Presented(t) => t in issued
    case RowRead(t, _) => t in issued
    case Marking(t) => t in issued
    case Reserving(userId, f) => OwnedBy(owners, f, userId)
    case _ => true
  }

  ghost predicate Paired(w: World) {
    && StoreOwned(w.store, w.owners)
    && (forall i :: i in w.flights ==> FlightOwned(w.flights[i], w.store.issued, w.owners))
  }

  /** A request is on the list of accepted ones only once it has got past its mark. */
  ghost predicate AcceptedFlew(w: World) {
    forall i :: i in w.accepted ==>
      i in w.flights && (w.flights[i].Reserving? || w.flights[i].Hashing? || w.flights[i].Ended?)
  }

  predicate IsReserving(flight: Flight, f: Uuid) {
    flight.Reserving? && flight.familyId == f
  }

  function ReservingFor(flights: map<nat, Flight>, f: Uuid): set<nat> {
    set i | i in flights && IsReserving(flights[i], f)
  }

  function AcceptedFor(accepted: map<nat, Jwt>, f: Uuid): set<nat> {
    set i | i in accepted && accepted[i].familyId == f
  }

  /** Every row ever inserted, and every insert about to happen, is paid for by the login or by an acceptance. */
  ghost predicate PaidFor(w: World, f: Uuid) {
    w.inserted[f] + |ReservingFor(w.flights, f)| <= (if f in w.owners then 1 else 0) + |AcceptedFor(w.accepted, f)|
  }

  ghost predicate Sound(w: World) {
    Paired(w) && AcceptedFlew(w) && forall f: Uuid :: PaidFor(w, f)
  }

  lemma InsertOwned(s: Store, owners: map<Uuid, int>, t: Jwt, expiresAt: int)
    requires StoreOwned(s, owners) && t.id == s.nextId && OwnedBy(owners, t.familyId, t.userId)
    ensures StoreOwned(Sign(InsertRow(s, t.userId, t.familyId, expiresAt), t), owners)
  {
  }

  lemma UpdatesOwned(s: Store, owners: map<Uuid, int>, id: nat, f: Uuid, now: int, hash: string)
    requires StoreOwned(s, owners)
    ensures StoreOwned(MarkUsed(s, id), owners) && StoreOwned(SetHash(s, id, hash), owners)
    ensures StoreOwned(RevokeFamily(s, f, now), owners) && StoreOwned(DeleteFamily(s, f), owners)
  {
  }

  /** What a step may do to the rest of the world while it moves flight i. */
  lemma PutOwned(w: World, w2: World, i: nat, flight: Flight)
    requires Paired(w) && StoreOwned(w2.store, w2.owners) && w2.flights == w.flights[i := flight]
    requires w.store.issued <= w2.store.issued
    requires forall f :: f in w.owners ==> f in w2.owners && w2.owners[f] == w.owners[f]
    requires FlightOwned(flight, w2.store.issued, w2.owners)
    ensures Paired(w2)
  {
  }

  lemma PairedMove(w: World, i: nat, env: Env, looked: nat, bcrypt: Bcrypt<Jwt>)
    requires Paired(w) && i in w.flights
    ensures Paired(Move(w, i, env, looked, bcrypt))
  {
    var w2 := Move(w, i, env, looked, bcrypt);
    match w.flights[i]
    case Presented(t) => PutOwned(w, w2, i, w2.flights[i]);
    case RowRead(t, row) => PutOwned(w, w2, i, w2.flights[i]);
    case Revoking(f) => UpdatesOwned(w.store, w.owners, 0, f, env.now, ""); PutOwned(w, w2, i, Ended);
    case Marking(t) => UpdatesOwned(w.store, w.owners, t.id, 0, 0, ""); PutOwned(w, w2, i, w2.flights[i]);
    case Reserving(userId, f) =>
      InsertOwned(w.store, w.owners, Jwt(w.store.nextId, userId, f, env.exp), env.expiresAt);
      PutOwned(w, w2, i, w2.flights[i]);
    case Hashing(t) =>
      UpdatesOwned(w.store, w.owners, t.id, 0, 0, bcrypt.hash(t, env.salt));
      PutOwned(w, w2, i, Ended);
    case Deleting(f) => UpdatesOwned(w.store, w.owners, 0, f, 0, ""); PutOwned(w, w2, i, Ended);
    case Ended =>
  }

  lemma PairedStep(w: World, a: Action, bcrypt: Bcrypt<Jwt>)
    requires Paired(w) && Possible(w, a)
    ensures Paired(Act(w, a, bcrypt))
  {
    if a.Advance? {
      PairedMove(w, a.flight, a.env, a.looked, bcrypt);
    } else {
      var w2 := Act(w, a, bcrypt);
      assert StoreOwned(w.store, w2.owners);
      PutOwned(w, w2, a.flight, w2.flights[a.flight]);
    }
  }

  lemma AcceptedFlewStep(w: World, a: Action, bcrypt: Bcrypt<Jwt>)
    requires AcceptedFlew(w) && Possible(w, a)
    ensures AcceptedFlew(Act(w, a, bcrypt))
  {
  }

  lemma CountWithout(i: nat, s: set<nat>)
    ensures |s| == |s - {i}| + (if i in s then 1 else 0)
  {
    if i !in s {
      assert s - {i} == s;
    }
  }

  lemma ReservingPut(flights: map<nat, Flight>, i: nat, flight: Flight, f: Uuid)
    ensures |ReservingFor(flights[i := flight], f)| ==
              |ReservingFor(flights, f)|
              + (if IsReserving(flight, f) then 1 else 0)
              - (if i in flights && IsReserving(flights[i], f) then 1 else 0)
  {
    var before, after := ReservingFor(flights, f), ReservingFor(flights[i := flight], f);
    assert after - {i} == before - {i};
    CountWithout(i, before);
    CountWithout(i, after);
  }

  lemma AcceptedPut(accepted: map<nat, Jwt>, i: nat, t: Jwt, f: Uuid)
    requires i !in accepted
    ensures |AcceptedFor(accepted[i := t], f)| == |AcceptedFor(accepted, f)| + (if t.familyId == f then 1 else 0)
  {
    var before, after := AcceptedFor(accepted, f), AcceptedFor(accepted[i := t], f);
    if t.familyId == f {
      assert after == before + {i};
    } else {
      assert after == before;
    }
  }

  lemma AcceptedOther(accepted: map<nat, Jwt>, i: nat, t: Jwt, f: Uuid)
    requires i !in accepted && t.familyId != f
    ensures AcceptedFor(accepted[i := t], f) == AcceptedFor(accepted, f)
  {
  }

  /** Moving one flight from was to now pays for the rows it inserts. */
  lemma PaidPut(w: World, w2: World, i: nat, flight: Flight, f: Uuid)
    requires PaidFor(w, f) && w2.flights == w.flights[i := flight]
    requires w2.inserted[f] + (if IsReserving(flight, f) then 1 else 0) + (if f in w.owners then 1 else 0)
             + |AcceptedFor(w.accepted, f)|
             <= w.inserted[f] + (if i in w.flights && IsReserving(w.flights[i], f) then 1 else 0)
                + (if f in w2.owners then 1 else 0) + |AcceptedFor(w2.accepted, f)|
    ensures PaidFor(w2, f)
  {
    ReservingPut(w.flights, i, flight, f);
  }

  lemma PaidMove(w: World, i: nat, env: Env, looked: nat, bcrypt: Bcrypt<Jwt>, f: Uuid)
    requires AcceptedFlew(w) && PaidFor(w, f) && i in w.flights
    ensures PaidFor(Move(w, i, env, looked, bcrypt), f)
  {
    var w2 := Move(w, i, env, looked, bcrypt);
    if w.flights[i].Marking? {
      AcceptedPut(w.accepted, i, w.flights[i].t, f);
    }
    PaidPut(w, w2, i, w2.flights[i], f);
  }

  lemma PaidStep(w: World, a: Action, bcrypt: Bcrypt<Jwt>, f: Uuid)
    requires AcceptedFlew(w) && PaidFor(w, f) && Possible(w, a)
    ensures PaidFor(Act(w, a, bcrypt), f)
  {
    if a.Advance? {
      PaidMove(w, a.flight, a.env, a.looked, bcrypt, f);
    } else {
      PaidPut(w, Act(w, a, bcrypt), a.flight, Act(w, a, bcrypt).flights[a.flight], f);
    }
  }

  ghost function SoundOf(): World -> bool {
    w => Sound(w)
  }

  lemma SoundKept(bcrypt: Bcrypt<Jwt>)
    ensures Keeps(Next(bcrypt), Legal(), SoundOf()) && SoundOf()(QUIET)
  {
    forall w: World, a: Action | SoundOf()(w) && Legal()(w, a) ensures SoundOf()(Next(bcrypt)(w, a)) {
      PairedStep(w, a, bcrypt);
      AcceptedFlewStep(w, a, bcrypt);
      forall f: Uuid ensures PaidFor(Act(w, a, bcrypt), f) {
        PaidStep(w, a, bcrypt, f);
      }
    }
    forall f: Uuid ensures PaidFor(QUIET, f) {
      assert ReservingFor(QUIET.flights, f) == {};
    }
  }

  lemma ReachableSound(actions: seq<Action>, k: nat, bcrypt: Bcrypt<Jwt>)
    requires IsRun(actions, bcrypt) && k <= |actions|
    ensures Sound(At(actions, k, bcrypt))
  {
    SoundKept(bcrypt);
    PrefixLegal(Next(bcrypt), Legal(), QUIET, actions, k);
    InvariantAlong(Next(bcrypt), Legal(), SoundOf(), QUIET, actions[..k]);
  }

  /** Rows ever inserted in a family never exceed one plus the validations accepted in it. */
  lemma InsertsNeverExceedAcceptances(actions: seq<Action>, k: nat, f: Uuid, bcrypt: Bcrypt<Jwt>)
    requires IsRun(actions, bcrypt) && k <= |actions|
    ensures At(actions, k, bcrypt).inserted[f] <= 1 + |AcceptedFor(At(actions, k, bcrypt).accepted, f)|
  {
    ReachableSound(actions, k, bcrypt);
    assert PaidFor(At(actions, k, bcrypt), f);
  }

  /** What holds at step i of a run, and is kept by the steps, holds at every later step j. */
  lemma StaysTrue(actions: seq<Action>, i: nat, j: nat, fact: World -> bool, bcrypt: Bcrypt<Jwt>)
    requires IsRun(actions, bcrypt) && i <= j <= |actions| && fact(At(actions, i, bcrypt))
    requires KeepsUnder(Next(bcrypt), Legal(), SoundOf(), fact)
    ensures fact(At(actions, j, bcrypt))
  {
    SoundKept(bcrypt);
    PrefixLegal(Next(bcrypt), Legal(), QUIET, actions, j);
    assert actions[..j][..i] == actions[..i];
    OnceTrueStaysTrue(Next(bcrypt), Legal(), SoundOf(), fact, QUIET, actions[..j], i);
  }

  // ---------------------------------------------------------------- rows never go back

  /** Row id is gone for good, or still as old said, or further on. */
  ghost predicate NotBefore(s: Store, id: nat, was: Row) {
    && id < s.nextId
    && (id in s.rows ==>
          && s.rows[id].userId == was.userId && s.rows[id].familyId == was.familyId
          && (was.used ==> s.rows[id].used)
          && (was.revokedAt.Some? ==> s.rows[id].revokedAt.Some?))
  }

  lemma NotBeforeStep(w: World, a: Action, id: nat, was: Row, bcrypt: Bcrypt<Jwt>)
    requires NotBefore(w.store, id, was)
    ensures NotBefore(Act(w, a, bcrypt).store, id, was)
  {
  }

  /** Under every schedule: used never reverts, revoked_at never returns to null, and a row keeps its family and
      its user for as long as it exists. */
  lemma RowsNeverGoBack(actions: seq<Action>, i: nat, j: nat, id: nat, bcrypt: Bcrypt<Jwt>)
    requires IsRun(actions, bcrypt) && i <= j <= |actions| && id in At(actions, i, bcrypt).store.rows
    ensures NotBefore(At(actions, j, bcrypt).store, id, At(actions, i, bcrypt).store.rows[id])
  {
    var was := At(actions, i, bcrypt).store.rows[id];
    ReachableSound(actions, i, bcrypt);
    var fact := (w: World) => NotBefore(w.store, id, was);
    forall w: World, a: Action | SoundOf()(w) && fact(w) && Legal()(w, a) ensures fact(Next(bcrypt)(w, a)) {
      NotBeforeStep(w, a, id, was, bcrypt);
    }
    StaysTrue(actions, i, j, fact, bcrypt);
  }

  lemma AbsentStep(w: World, a: Action, id: nat, bcrypt: Bcrypt<Jwt>)
    requires id < w.store.nextId && id !in w.store.rows
    ensures id < Act(w, a, bcrypt).store.nextId && id !in Act(w, a, bcrypt).store.rows
  {
  }

  /** A deleted row never comes back: ids are not used twice. */
  lemma DeletedRowsStayDeleted(actions: seq<Action>, i: nat, j: nat, id: nat, bcrypt: Bcrypt<Jwt>)
    requires IsRun(actions, bcrypt) && i <= j <= |actions|
    requires id < At(actions, i, bcrypt).store.nextId && id !in At(actions, i, bcrypt).store.rows
    ensures id !in At(actions, j, bcrypt).store.rows
  {
    var fact := (w: World) => id < w.store.nextId && id !in w.store.rows;
    forall w: World, a: Action | SoundOf()(w) && fact(w) && Legal()(w, a) ensures fact(Next(bcrypt)(w, a)) {
      AbsentStep(w, a, id, bcrypt);
    }
    StaysTrue(actions, i, j, fact, bcrypt);
  }

  lemma OwnedByStep(w: World, a: Action, f: Uuid, userId: int, bcrypt: Bcrypt<Jwt>)
    requires Possible(w, a) && OwnedBy(w.owners, f, userId)
    ensures OwnedBy(Act(w, a, bcrypt).owners, f, userId)
  {
  }

  /** A family and its user stay paired: two rows of one family, at any two moments, belong to one user. */
  lemma FamilyKeepsUser(actions: seq<Action>, i: nat, j: nat, id: nat, id2: nat, bcrypt: Bcrypt<Jwt>)
    requires IsRun(actions, bcrypt) && i <= j <= |actions|
    requires id in At(actions, i, bcrypt).store.rows && id2 in At(actions, j, bcrypt).store.rows
    requires At(actions, i, bcrypt).store.rows[id].familyId == At(actions, j, bcrypt).store.rows[id2].familyId
    ensures At(actions, i, bcrypt).store.rows[id].userId == At(actions, j, bcrypt).store.rows[id2].userId
  {
    var row := At(actions, i, bcrypt).store.rows[id];
    ReachableSound(actions, i, bcrypt);
    ReachableSound(actions, j, bcrypt);
    var fact := (w: World) => OwnedBy(w.owners, row.familyId, row.userId);
    forall w: World, a: Action | SoundOf()(w) && fact(w) && Legal()(w, a) ensures fact(Next(bcrypt)(w, a)) {
      OwnedByStep(w, a, row.familyId, row.userId, bcrypt);
    }
    StaysTrue(actions, i, j, fact, bcrypt);
  }

  // ---------------------------------------------------------------- late readers

  /** The request has not been accepted and cannot be any more: it ended, or it will find, or has found, the row
      used or gone. */
  ghost predicate Doomed(w: World, i: nat) {
    && i in w.flights && i !in w.accepted
    && match w.flights[i]
       case Presented(t) => t.id in w.store.rows ==> w.store.rows[t.id].used
       case RowRead(_, row) => row.used
       case Revoking(_) => true
       case Ended => true
       case _ => false
  }

  ghost predicate UsedOrGone(s: Store, id: nat) {
    id < s.nextId && (id in s.rows ==> s.rows[id].used)
  }

  lemma UsedOrGoneStep(w: World, a: Action, id: nat, bcrypt: Bcrypt<Jwt>)
    requires UsedOrGone(w.store, id)
    ensures UsedOrGone(Act(w, a, bcrypt).store, id)
  {
  }

  lemma DoomedMove(w: World, i: nat, env: Env, looked: nat, bcrypt: Bcrypt<Jwt>)
    requires Doomed(w, i)
    ensures Doomed(Move(w, i, env, looked, bcrypt), i)
  {
  }

  lemma DoomedStep(w: World, a: Action, i: nat, bcrypt: Bcrypt<Jwt>)
    requires Sound(w) && Possible(w, a) && Doomed(w, i)
    ensures Doomed(Act(w, a, bcrypt), i)
  {
    if a.flight != i {
      if w.flights[i].Presented? {
        assert FlightOwned(w.flights[i], w.store.issued, w.owners);
        UsedOrGoneStep(w, a, w.flights[i].t.id, bcrypt);
      }
    } else if a.Advance? {
      DoomedMove(w, i, a.env, a.looked, bcrypt);
    }
  }

  /** A validation that reads its row after the mark, or after the deletion, is never accepted. */
  lemma LateReaderNeverAccepted(actions: seq<Action>, k: nat, j: nat, i: nat, bcrypt: Bcrypt<Jwt>)
    requires IsRun(actions, bcrypt) && k <= j <= |actions|
    requires var w := At(actions, k, bcrypt);
             && i in w.flights && w.flights[i].Presented?
             && (w.flights[i].t.id in w.store.rows ==> w.store.rows[w.flights[i].t.id].used)
    ensures i !in At(actions, j, bcrypt).accepted
  {
    ReachableSound(actions, k, bcrypt);
    var fact := (w: World) => Doomed(w, i);
    forall w: World, a: Action | SoundOf()(w) && fact(w) && Legal()(w, a) ensures fact(Next(bcrypt)(w, a)) {
      DoomedStep(w, a, i, bcrypt);
    }
    StaysTrue(actions, k, j, fact, bcrypt);
  }

  // ---------------------------------------------------------------- when a family is finished

  /** A request of family f that may still insert a row in it. */
  ghost predicate Carrying(flight: Flight, f: Uuid) {
    match flight
    case RowRead(t, row) => t.familyId == f && !row.used
    case Marking(t) => t.familyId == f
    case Reserving(_, g) => g == f
    case _ => false
  }

  /** The family was drawn, has no row, and no request that may still insert one. */
  ghost predicate Gone(w: World, f: Uuid) {
    && f in w.owners
    && (forall id :: id in w.store.rows ==> w.store.rows[id].familyId != f)
    && (forall i :: i in w.flights ==> !Carrying(w.flights[i], f))
  }

  lemma GoneMove(w: World, i: nat, env: Env, looked: nat, f: Uuid, bcrypt: Bcrypt<Jwt>)
    requires AcceptedFlew(w) && i in w.flights && Gone(w, f)
    ensures var w2 := Move(w, i, env, looked, bcrypt);
            Gone(w2, f) && AcceptedFor(w2.accepted, f) == AcceptedFor(w.accepted, f)
  {
    assert !Carrying(w.flights[i], f);
  }

  lemma GoneStep(w: World, a: Action, f: Uuid, bcrypt: Bcrypt<Jwt>)
    requires AcceptedFlew(w) && Possible(w, a) && Gone(w, f)
    ensures Gone(Act(w, a, bcrypt), f) && AcceptedFor(Act(w, a, bcrypt).accepted, f) == AcceptedFor(w.accepted, f)
  {
    if a.Advance? {
      GoneMove(w, a.flight, a.env, a.looked, f, bcrypt);
    }
  }

  /** Logout under interleaving: once the family's rows are deleted and no request caught between reading its row
      and inserting the next one is left, nothing of the family is accepted in any continuation. */
  lemma DeletedQuietFamilyStaysGone(actions: seq<Action>, k: nat, j: nat, f: Uuid, bcrypt: Bcrypt<Jwt>)
    requires IsRun(actions, bcrypt) && k <= j <= |actions| && Gone(At(actions, k, bcrypt), f)
    ensures Gone(At(actions, j, bcrypt), f)
    ensures AcceptedFor(At(actions, j, bcrypt).accepted, f) == AcceptedFor(At(actions, k, bcrypt).accepted, f)
  {
    var before := AcceptedFor(At(actions, k, bcrypt).accepted, f);
    var fact := (w: World) => Gone(w, f) && AcceptedFor(w.accepted, f) == before;
    forall w: World, a: Action | SoundOf()(w) && fact(w) && Legal()(w, a) ensures fact(Next(bcrypt)(w, a)) {
      GoneStep(w, a, f, bcrypt);
    }
    StaysTrue(actions, k, j, fact, bcrypt);
  }

  /** The family has rows, and all are revoked. */
  ghost predicate RowsBarred(s: Store, f: Uuid) {
    && (exists id :: id in s.rows && s.rows[id].familyId == f)
    && (forall id :: id in s.rows && s.rows[id].familyId == f ==> s.rows[id].revokedAt.Some?)
  }

  /** The request is neither past the checks with a token of f nor about to delete f. */
  predicate BarredFlight(flight: Flight, f: Uuid) {
    match flight
    case Marking(t) => t.familyId != f
    case Reserving(_, g) => g != f
    case Deleting(g) => g != f
    case _ => true
  }

  ghost predicate Barred(w: World, f: Uuid) {
    && f in w.owners && RowsBarred(w.store, f)
    && (forall i :: i in w.flights ==> BarredFlight(w.flights[i], f))
  }

  lemma UpdatesBarred(s: Store, f: Uuid, id: nat, g: Uuid, now: int, hash: string)
    requires RowsBarred(s, f)
    ensures RowsBarred(MarkUsed(s, id), f) && RowsBarred(SetHash(s, id, hash), f)
    ensures RowsBarred(RevokeFamily(s, g, now), f)
  {
    var j :| j in s.rows && s.rows[j].familyId == f;
    assert MarkUsed(s, id).rows[j].familyId == SetHash(s, id, hash).rows[j].familyId == f;
    assert RevokeFamily(s, g, now).rows[j].familyId == f;
  }

  lemma InsertAndDeleteBarred(s: Store, f: Uuid, userId: int, g: Uuid, expiresAt: int)
    requires RowsBarred(s, f) && f != g && s.nextId !in s.rows
    ensures RowsBarred(InsertRow(s, userId, g, expiresAt), f) && RowsBarred(DeleteFamily(s, g), f)
  {
    var j :| j in s.rows && s.rows[j].familyId == f;
    assert InsertRow(s, userId, g, expiresAt).rows[j].familyId == DeleteFamily(s, g).rows[j].familyId == f;
  }

  /** Every row that SELECT revoked_at can look at says revoked. */
  lemma BarredReadsRevoked(s: Store, t: Jwt, row: Row, looked: nat, now: int)
    requires RowsBarred(s, t.familyId) && looked in FamilyIds(s, t.familyId)
    ensures ReadRevoked(s, t, row, looked, now) == Ended
  {
  }

  lemma BarredMove(w: World, i: nat, env: Env, looked: nat, f: Uuid, bcrypt: Bcrypt<Jwt>)
    requires Paired(w) && Possible(w, Advance(i, env, looked)) && RowsBarred(w.store, f)
    requires BarredFlight(w.flights[i], f)
    ensures var w2 := Move(w, i, env, looked, bcrypt); RowsBarred(w2.store, f) && BarredFlight(w2.flights[i], f)
  {
    match w.flights[i]
    case Presented(t) =>
    case RowRead(t, row) =>
      if t.familyId == f {
        var j :| j in w.store.rows && w.store.rows[j].familyId == f;
        assert j in FamilyIds(w.store, f);
        BarredReadsRevoked(w.store, t, row, looked, env.now);
      }
    case Revoking(g) => UpdatesBarred(w.store, f, 0, g, env.now, "");
    case Marking(t) => UpdatesBarred(w.store, f, t.id, 0, 0, "");
    case Reserving(userId, g) =>
      assert BarredFlight(w.flights[i], f);
      InsertAndDeleteBarred(w.store, f, userId, g, env.expiresAt);
    case Hashing(t) => UpdatesBarred(w.store, f, t.id, 0, 0, bcrypt.hash(t, env.salt));
    case Deleting(g) =>
      assert BarredFlight(w.flights[i], f);
      InsertAndDeleteBarred(w.store, f, 0, g, 0);
    case Ended =>
  }

  lemma AcceptedStaysOther(w: World, i: nat, env: Env, looked: nat, f: Uuid, bcrypt: Bcrypt<Jwt>)
    requires AcceptedFlew(w) && i in w.flights && BarredFlight(w.flights[i], f)
    ensures AcceptedFor(Move(w, i, env, looked, bcrypt).accepted, f) == AcceptedFor(w.accepted, f)
  {
    if w.flights[i].Marking? {
      AcceptedOther(w.accepted, i, w.flights[i].t, f);
    }
  }

  lemma BarredStep(w: World, a: Action, f: Uuid, bcrypt: Bcrypt<Jwt>)
    requires Sound(w) && Possible(w, a) && Barred(w, f) && !(a.StartLogout? && a.t.familyId == f)
    ensures Barred(Act(w, a, bcrypt), f) && AcceptedFor(Act(w, a, bcrypt).accepted, f) == AcceptedFor(w.accepted, f)
  {
    if a.Advance? {
      assert BarredFlight(w.flights[a.flight], f);
      BarredMove(w, a.flight, a.env, a.looked, f, bcrypt);
      AcceptedStaysOther(w, a.flight, a.env, a.looked, f, bcrypt);
    }
  }

  /** Reuse detection under interleaving: a revoked family stays revoked, and nothing of it is accepted, for as long
      as no logout names it, provided no request got past the checks before the revocation. */
  lemma RevokedFamilyStaysBarred(actions: seq<Action>, k: nat, f: Uuid, bcrypt: Bcrypt<Jwt>)
    requires IsRun(actions, bcrypt) && k <= |actions| && Barred(At(actions, k, bcrypt), f)
    requires forall n :: k <= n < |actions| ==> !(actions[n].StartLogout? && actions[n].t.familyId == f)
    ensures Barred(At(actions, |actions|, bcrypt), f)
    ensures AcceptedFor(At(actions, |actions|, bcrypt).accepted, f) == AcceptedFor(At(actions, k, bcrypt).accepted, f)
    decreases |actions| - k
  {
    if k < |actions| {
      ReachableSound(actions, k, bcrypt);
      AfterOneMore(Next(bcrypt), QUIET, actions, k);
      assert Legal()(At(actions, k, bcrypt), actions[k]);
      BarredStep(At(actions, k, bcrypt), actions[k], f, bcrypt);
      RevokedFamilyStaysBarred(actions, k + 1, f, bcrypt);
    }
  }
}
