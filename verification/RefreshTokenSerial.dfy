/**
  Requests served one at a time, as schedules of single queries. Left to finish, each does what it does in one go; and
  with each of them stopped at any query, a token is still accepted at most once, and logout and reuse detection are
  still final.
*/
module RefreshTokenSerial {
  import opened Basics
  import opened RefreshTokens
  import opened RefreshTokenRaces
  import opened RefreshTokenContinuations
  import opened Runs
  import RefreshTokenRuns

  // ---------------------------------------------------------------- one request, left to finish

  /** Nothing but request i moves, at one instant. */
  function Alone(i: nat, c: int): Action -> bool {
    (a: Action) => a.flight == i && Happens(a, c)
  }

  /** All that request i can do at c is admitted. */
  ghost predicate Lets(ok: Action -> bool, i: nat, c: int) {
    forall a: Action :: a.flight == i && Happens(a, c) ==> ok(a)
  }

  /** The request i has ended, and done to the store what s2 says. */
  ghost predicate Finished(w: World, w2: World, i: nat, s2: Store, ok: Action -> bool, bcrypt: Bcrypt<Jwt>) {
    Leads(w, w2, ok, bcrypt) && w2.store == s2 && w2.flights == w.flights[i := Ended]
  }

  lemma PutTwice(w: World, i: nat, flight: Flight, later: Flight)
    ensures Put(w, i, flight).flights[i := later] == w.flights[i := later]
    ensures Put(Put(w, i, flight), i, later) == Put(w, i, later)
  {
  }

  lemma MovesOn(w: World, w1: World, i: nat, env: Env, looked: nat, ok: Action -> bool, bcrypt: Bcrypt<Jwt>)
    returns (w2: World)
    requires Lets(ok, i, env.now) && Leads(w, w1, ok, bcrypt) && Possible(w1, Advance(i, env, looked))
    ensures Leads(w, w2, ok, bcrypt) && w2 == Move(w1, i, env, looked, bcrypt)
  {
    LeadsOn(w, w1, Advance(i, env, looked), ok, bcrypt);
    w2 := Move(w1, i, env, looked, bcrypt);
  }

  lemma StartsOn(w: World, a: Action, c: int, ok: Action -> bool, bcrypt: Bcrypt<Jwt>)
    requires Lets(ok, a.flight, c) && Happens(a, c) && Possible(w, a)
    ensures Leads(w, Act(w, a, bcrypt), ok, bcrypt)
  {
    LeadsNowhere(w, ok, bcrypt);
    LeadsOn(w, w, a, ok, bcrypt);
  }

  lemma InsertMoves(w: World, i: nat, env: Env, bcrypt: Bcrypt<Jwt>)
    requires i in w.flights && w.flights[i].Reserving?
    ensures var f, w2 := w.flights[i], Move(w, i, env, 0, bcrypt);
            var t := Jwt(w.store.nextId, f.userId, f.familyId, env.exp);
            && w2.flights == w.flights[i := Hashing(t)] && w2.owners == w.owners && w2.accepted == w.accepted
            && w2.store == Sign(InsertRow(w.store, f.userId, f.familyId, env.expiresAt), t)
  {
  }

  lemma HashMoves(w: World, i: nat, env: Env, bcrypt: Bcrypt<Jwt>)
    requires i in w.flights && w.flights[i].Hashing?
    ensures var t, w2 := w.flights[i].t, Move(w, i, env, 0, bcrypt);
            && w2.flights == w.flights[i := Ended] && w2.owners == w.owners && w2.accepted == w.accepted
            && w2.store == SetHash(w.store, t.id, bcrypt.hash(t, env.salt))
  {
  }

  /** The insert and the hash. */
  lemma CreationIsSchedule(w: World, w0: World, i: nat, env: Env, ok: Action -> bool, bcrypt: Bcrypt<Jwt>)
    returns (w2: World)
    requires Lets(ok, i, env.now) && Leads(w, w0, ok, bcrypt) && i in w0.flights && w0.flights[i].Reserving?
    ensures Leads(w, w2, ok, bcrypt) && w2.flights == w0.flights[i := Ended]
    ensures var f := w0.flights[i];
            w2.store == CreateRefreshToken(w0.store, f.userId, Some(f.familyId), bcrypt, env).0
    ensures w2.owners == w0.owners && w2.accepted == w0.accepted
  {
    var w1 := MovesOn(w, w0, i, env, 0, ok, bcrypt);
    InsertMoves(w0, i, env, bcrypt);
    w2 := MovesOn(w, w1, i, env, 0, ok, bcrypt);
    HashMoves(w1, i, env, bcrypt);
  }

  lemma LoginIsSchedule(w: World, i: nat, userId: int, env: Env, ok: Action -> bool, bcrypt: Bcrypt<Jwt>,
                        first: set<nat> -> nat)
    returns (w2: World)
    requires Lets(ok, i, env.now) && i !in w.flights && env.uuid !in w.owners
    ensures Finished(w, w2, i, Serve(w.store, Login(userId), bcrypt, first, env).0, ok, bcrypt)
    ensures w2.owners == w.owners[env.uuid := userId] && w2.accepted == w.accepted
  {
    var start := StartLogin(i, userId, env.uuid);
    StartsOn(w, start, env.now, ok, bcrypt);
    PutTwice(w, i, Reserving(userId, env.uuid), Ended);
    w2 := CreationIsSchedule(w, Act(w, start, bcrypt), i, env, ok, bcrypt);
  }

  lemma StartsLogout(w: World, i: nat, t: Jwt, now: int, ok: Action -> bool, bcrypt: Bcrypt<Jwt>) returns (w1: World)
    requires Lets(ok, i, now) && i !in w.flights
    ensures Leads(w, w1, ok, bcrypt)
    ensures w1 == Put(w, i, if Verifies(w.store, t, now) then Deleting(t.familyId) else Ended)
  {
    StartsOn(w, StartLogout(i, t, now), now, ok, bcrypt);
    w1 := Act(w, StartLogout(i, t, now), bcrypt);
  }

  lemma StartsRefresh(w: World, i: nat, t: Jwt, now: int, ok: Action -> bool, bcrypt: Bcrypt<Jwt>) returns (w1: World)
    requires Lets(ok, i, now) && i !in w.flights
    ensures Leads(w, w1, ok, bcrypt)
    ensures w1 == Put(w, i, if Verifies(w.store, t, now) then Presented(t) else Ended)
  {
    StartsOn(w, StartRefresh(i, t, now), now, ok, bcrypt);
    w1 := Act(w, StartRefresh(i, t, now), bcrypt);
  }

  lemma DeleteMoves(w: World, i: nat, env: Env, bcrypt: Bcrypt<Jwt>)
    requires i in w.flights && w.flights[i].Deleting?
    ensures Move(w, i, env, 0, bcrypt) == Put(w, i, Ended).(store := DeleteFamily(w.store, w.flights[i].familyId))
  {
  }

  lemma LogoutIsSchedule(w: World, i: nat, t: Jwt, env: Env, ok: Action -> bool, bcrypt: Bcrypt<Jwt>,
                         first: set<nat> -> nat)
    returns (w2: World)
    requires Lets(ok, i, env.now) && i !in w.flights
    ensures Finished(w, w2, i, Serve(w.store, Logout(Some(t)), bcrypt, first, env).0, ok, bcrypt)
    ensures w2.owners == w.owners && w2.accepted == w.accepted
  {
    w2 := StartsLogout(w, i, t, env.now, ok, bcrypt);
    if Verifies(w.store, t, env.now) {
      w2 := Deletes(w, w2, i, env, ok, bcrypt);
      PutTwice(w, i, Deleting(t.familyId), Ended);
    }
  }

  lemma Deletes(w: World, w1: World, i: nat, env: Env, ok: Action -> bool, bcrypt: Bcrypt<Jwt>) returns (w2: World)
    requires Lets(ok, i, env.now) && Leads(w, w1, ok, bcrypt) && i in w1.flights && w1.flights[i].Deleting?
    ensures Leads(w, w2, ok, bcrypt)
    ensures w2 == Put(w1, i, Ended).(store := DeleteFamily(w1.store, w1.flights[i].familyId))
  {
    w2 := MovesOn(w, w1, i, env, 0, ok, bcrypt);
    DeleteMoves(w1, i, env, bcrypt);
  }

  /** The flight after the two reads, as the checks of a validation decide it. */
  function Decided(s: Store, t: Jwt, bcrypt: Bcrypt<Jwt>, first: set<nat> -> nat, now: int): Flight {
    if !Verifies(s, t, now) then Ended
    else
      match ReadRow(s, t, bcrypt)
      case RowRead(_, row) => ReadRevoked(s, t, row, first(FamilyIds(s, t.familyId)), now)
      case flight => flight
  }

  lemma DecidedIsValidate(s: Store, t: Jwt, bcrypt: Bcrypt<Jwt>, first: set<nat> -> nat, now: int)
    requires IsChoice(first)
    ensures Validate(s, t, bcrypt, first, now).0 ==
              match Decided(s, t, bcrypt, first, now)
              case Marking(_) => MarkUsed(s, t.id)
              case Revoking(_) => RevokeFamily(s, t.familyId, now)
              case _ => s
    ensures Validate(s, t, bcrypt, first, now).1.Success? <==> Decided(s, t, bcrypt, first, now) == Marking(t)
    ensures Validate(s, t, bcrypt, first, now).1.Success? ==>
              Validate(s, t, bcrypt, first, now).1.value == Grant(t.userId, t.familyId)
    ensures var d := Decided(s, t, bcrypt, first, now);
            d == Ended || d == Marking(t) || d == Revoking(t.familyId)
  {
    if t.id in s.rows && s.rows[t.id].familyId == t.familyId {
      assert t.id in FamilyIds(s, t.familyId);
    }
  }

  lemma Reads(w: World, w1: World, i: nat, env: Env, ok: Action -> bool, bcrypt: Bcrypt<Jwt>) returns (w2: World)
    requires Lets(ok, i, env.now) && Leads(w, w1, ok, bcrypt) && i in w1.flights && w1.flights[i].Presented?
    ensures Leads(w, w2, ok, bcrypt) && w2 == Put(w1, i, ReadRow(w1.store, w1.flights[i].t, bcrypt))
  {
    w2 := MovesOn(w, w1, i, env, 0, ok, bcrypt);
  }

  lemma Looks(w: World, w1: World, i: nat, env: Env, looked: nat, ok: Action -> bool, bcrypt: Bcrypt<Jwt>)
    returns (w2: World)
    requires Lets(ok, i, env.now) && Leads(w, w1, ok, bcrypt) && i in w1.flights && w1.flights[i].RowRead?
    requires looked in FamilyIds(w1.store, w1.flights[i].t.familyId)
    ensures Leads(w, w2, ok, bcrypt)
    ensures w2 == Put(w1, i, ReadRevoked(w1.store, w1.flights[i].t, w1.flights[i].row, looked, env.now))
  {
    w2 := MovesOn(w, w1, i, env, looked, ok, bcrypt);
  }

  lemma MarksUsed(w: World, w1: World, i: nat, env: Env, ok: Action -> bool, bcrypt: Bcrypt<Jwt>) returns (w2: World)
    requires Lets(ok, i, env.now) && Leads(w, w1, ok, bcrypt) && i in w1.flights && w1.flights[i].Marking?
    ensures Leads(w, w2, ok, bcrypt)
    ensures var t := w1.flights[i].t;
            w2 == Put(w1, i, Reserving(t.userId, t.familyId)).(store := MarkUsed(w1.store, t.id),
                                                               accepted := w1.accepted[i := t])
  {
    w2 := MovesOn(w, w1, i, env, 0, ok, bcrypt);
  }

  lemma Revokes(w: World, w1: World, i: nat, env: Env, ok: Action -> bool, bcrypt: Bcrypt<Jwt>) returns (w2: World)
    requires Lets(ok, i, env.now) && Leads(w, w1, ok, bcrypt) && i in w1.flights && w1.flights[i].Revoking?
    ensures Leads(w, w2, ok, bcrypt)
    ensures w2 == Put(w1, i, Ended).(store := RevokeFamily(w1.store, w1.flights[i].familyId, env.now))
  {
    w2 := MovesOn(w, w1, i, env, 0, ok, bcrypt);
  }

  /** The start and the two reads of a validation. */
  lemma ReadsAreSchedule(w: World, i: nat, t: Jwt, env: Env, ok: Action -> bool, bcrypt: Bcrypt<Jwt>,
                         first: set<nat> -> nat)
    returns (w2: World)
    requires Lets(ok, i, env.now) && i !in w.flights && IsChoice(first)
    ensures Leads(w, w2, ok, bcrypt) && w2 == Put(w, i, Decided(w.store, t, bcrypt, first, env.now))
  {
    w2 := StartsRefresh(w, i, t, env.now, ok, bcrypt);
    if Verifies(w.store, t, env.now) {
      var row := ReadRow(w.store, t, bcrypt);
      var read := Reads(w, w2, i, env, ok, bcrypt);
      PutTwice(w, i, Presented(t), row);
      assert read == Put(w, i, row);
      w2 := read;
      if row.RowRead? {
        var ids := FamilyIds(w.store, t.familyId);
        assert t.id in ids;
        w2 := Looks(w, read, i, env, first(ids), ok, bcrypt);
        PutTwice(w, i, row, ReadRevoked(w.store, t, row.row, first(ids), env.now));
      }
    }
  }

  /** A refresh, and whether a new token is issued. */
  lemma RefreshIsSchedule(w: World, i: nat, t: Jwt, env: Env, ok: Action -> bool, bcrypt: Bcrypt<Jwt>,
                          first: set<nat> -> nat)
    returns (w2: World)
    requires Lets(ok, i, env.now) && i !in w.flights && IsChoice(first)
    ensures var (s2, reply) := Serve(w.store, Refresh(Some(t)), bcrypt, first, env);
            && Finished(w, w2, i, s2, ok, bcrypt) && w2.owners == w.owners
            && w2.accepted == (if reply.Issued? then w.accepted[i := t] else w.accepted)
  {
    DecidedIsValidate(w.store, t, bcrypt, first, env.now);
    var read := ReadsAreSchedule(w, i, t, env, ok, bcrypt, first);
    w2 := read;
    if read.flights[i].Marking? {
      var marked := MarksUsed(w, read, i, env, ok, bcrypt);
      PutTwice(w, i, Marking(t), Reserving(t.userId, t.familyId));
      PutTwice(w, i, Reserving(t.userId, t.familyId), Ended);
      w2 := CreationIsSchedule(w, marked, i, env, ok, bcrypt);
    } else if read.flights[i].Revoking? {
      w2 := Revokes(w, read, i, env, ok, bcrypt);
      PutTwice(w, i, Revoking(t.familyId), Ended);
    }
  }

  // ---------------------------------------------------------------- whole runs of requests

  ghost predicate Quiet(w: World) {
    forall i :: i in w.flights ==> w.flights[i] == Ended
  }

  /** Only families with a token have been drawn. */
  ghost predicate FamiliesIssued(w: World) {
    forall f :: f in w.owners ==> exists t: Jwt :: t in w.store.issued && t.familyId == f
  }

  lemma FinishedIsRun(actions: seq<Action>, w2: World, i: nat, s2: Store, c: int, bcrypt: Bcrypt<Jwt>)
    returns (longer: seq<Action>)
    requires IsRun(actions, bcrypt) && Quiet(End(actions, bcrypt))
    requires Finished(End(actions, bcrypt), w2, i, s2, Alone(i, c), bcrypt)
    ensures IsRun(longer, bcrypt) && End(longer, bcrypt) == w2 && Quiet(w2)
  {
    var more := LeadsToRun(actions, w2, Alone(i, c), bcrypt);
    longer := actions + more;
  }

  lemma CallIsSchedule(w: World, call: RefreshTokenRuns.Call, bcrypt: Bcrypt<Jwt>) returns (w2: World, i: nat)
    requires Sound(w) && FamiliesIssued(w) && RefreshTokenRuns.CanMake(w.store, call)
    requires call.req.Login? || call.req.cookie.Some?
    ensures Finished(w, w2, i, Serve(w.store, call.req, bcrypt, call.first, call.env).0,
                     Alone(i, call.env.now), bcrypt)
    ensures FamiliesIssued(w2)
  {
    i := FreeFlight(w);
    var ok := Alone(i, call.env.now);
    match call.req
    case Login(userId) =>
      w2 := LoginIsSchedule(w, i, userId, call.env, ok, bcrypt, call.first);
      assert CreateRefreshToken(w.store, userId, None, bcrypt, call.env).1 in w2.store.issued;
    case Refresh(cookie) => w2 := RefreshIsSchedule(w, i, cookie.value, call.env, ok, bcrypt, call.first);
    case Logout(cookie) => w2 := LogoutIsSchedule(w, i, cookie.value, call.env, ok, bcrypt, call.first);
  }

  /** Every run of requests served in one go is a run of single queries with the same store after every request. */
  lemma {:induction false} SerialRunIsSchedule(calls: seq<RefreshTokenRuns.Call>, k: nat, bcrypt: Bcrypt<Jwt>)
    returns (actions: seq<Action>)
    requires RefreshTokenRuns.IsRun(calls, bcrypt) && k <= |calls|
    ensures IsRun(actions, bcrypt) && Quiet(End(actions, bcrypt)) && FamiliesIssued(End(actions, bcrypt))
    ensures End(actions, bcrypt).store == RefreshTokenRuns.Before(calls, k, bcrypt)
  {
    if k == 0 {
      actions := [];
    } else {
      var before := SerialRunIsSchedule(calls, k - 1, bcrypt);
      var w, call := End(before, bcrypt), calls[k - 1];
      EndSound(before, bcrypt);
      AfterOneMore(RefreshTokenRuns.Next(bcrypt), EMPTY_STORE, calls, k - 1);
      assert RefreshTokenRuns.Legal()(RefreshTokenRuns.Before(calls, k - 1, bcrypt), call);
      actions := before;
      if call.req.Login? || call.req.cookie.Some? {
        var w2, i := CallIsSchedule(w, call, bcrypt);
        actions := FinishedIsRun(before, w2, i, w2.store, call.env.now, bcrypt);
      }
    }
  }

  // ---------------------------------------------------------------- one at a time, stopped anywhere

  predicate Starts(a: Action) {
    a.StartLogin? || a.StartRefresh? || a.StartLogout?
  }

  /** No request starts before the others have ended; dropping one ends it at any query. */
  ghost predicate Serial(w: World, a: Action) {
    Possible(w, a) && (Starts(a) ==> Quiet(w))
  }

  ghost function SerialLegal(): (World, Action) -> bool {
    (w: World, a: Action) => Serial(w, a)
  }

  ghost predicate IsSerialRun(actions: seq<Action>, bcrypt: Bcrypt<Jwt>) {
    LegalRun(Next(bcrypt), SerialLegal(), QUIET, actions)
  }

  /** At most one request is under way. */
  ghost predicate OneAtATime(w: World) {
    forall i, j :: i in w.flights && j in w.flights && w.flights[i] != Ended && w.flights[j] != Ended ==> i == j
  }

  ghost predicate Kept(w: World) {
    Sound(w) && OneAtATime(w)
  }

  ghost function KeptOf(): World -> bool {
    w => Kept(w)
  }

  lemma OneAtATimeMove(w: World, i: nat, env: Env, looked: nat, bcrypt: Bcrypt<Jwt>)
    requires OneAtATime(w) && i in w.flights
    ensures OneAtATime(Move(w, i, env, looked, bcrypt))
  {
    assert w.flights[i] == Ended ==> Move(w, i, env, looked, bcrypt) == w;
  }

  lemma OneAtATimeStep(w: World, a: Action, bcrypt: Bcrypt<Jwt>)
    requires OneAtATime(w) && Serial(w, a)
    ensures OneAtATime(Act(w, a, bcrypt))
  {
    if a.Advance? {
      OneAtATimeMove(w, a.flight, a.env, a.looked, bcrypt);
    }
  }

  lemma KeptSerially(bcrypt: Bcrypt<Jwt>)
    ensures Keeps(Next(bcrypt), SerialLegal(), KeptOf()) && KeptOf()(QUIET)
  {
    SoundKept(bcrypt);
    forall w: World, a: Action | KeptOf()(w) && SerialLegal()(w, a) ensures KeptOf()(Next(bcrypt)(w, a)) {
      assert SoundOf()(w) && Legal()(w, a);
      assert SoundOf()(Next(bcrypt)(w, a));
      OneAtATimeStep(w, a, bcrypt);
    }
  }

  /** What holds at step i of a serial run, and is kept by the steps, holds at every later step j. */
  lemma StaysSerially(actions: seq<Action>, i: nat, j: nat, fact: World -> bool, bcrypt: Bcrypt<Jwt>)
    requires IsSerialRun(actions, bcrypt) && i <= j <= |actions| && fact(At(actions, i, bcrypt))
    requires KeepsUnder(Next(bcrypt), SerialLegal(), KeptOf(), fact)
    ensures fact(At(actions, j, bcrypt))
  {
    KeptSerially(bcrypt);
    PrefixLegal(Next(bcrypt), SerialLegal(), QUIET, actions, j);
    assert actions[..j][..i] == actions[..i];
    OnceTrueStaysTrue(Next(bcrypt), SerialLegal(), KeptOf(), fact, QUIET, actions[..j], i);
  }

  /** A token that has been accepted has its row used or gone, no request holds it, and only one was accepted with
      it. */
  ghost predicate Spent(w: World) {
    && (forall i :: i in w.accepted ==> UsedOrGone(w.store, w.accepted[i].id))
    && (forall i, j :: i in w.accepted && j in w.flights ==> !HoldsUnused(w.flights[j], w.accepted[i]))
    && (forall i, j :: i in w.accepted && j in w.accepted && w.accepted[i] == w.accepted[j] ==> i == j)
  }

  predicate HoldsUnused(flight: Flight, t: Jwt) {
    flight == Marking(t) || (flight.RowRead? && flight.t == t && !flight.row.used)
  }

  lemma SpentMark(w: World, i: nat, env: Env, looked: nat, bcrypt: Bcrypt<Jwt>)
    requires Kept(w) && Spent(w) && i in w.flights && w.flights[i].Marking?
    ensures Spent(Move(w, i, env, looked, bcrypt))
  {
    assert FlightOwned(w.flights[i], w.store.issued, w.owners);
  }

  lemma SpentMove(w: World, i: nat, env: Env, looked: nat, bcrypt: Bcrypt<Jwt>)
    requires Kept(w) && Spent(w) && i in w.flights && !w.flights[i].Marking?
    ensures Spent(Move(w, i, env, looked, bcrypt))
  {
    var w2 := Move(w, i, env, looked, bcrypt);
    forall k | k in w.accepted ensures UsedOrGone(w2.store, w.accepted[k].id) {
      assert UsedOrGone(w.store, w.accepted[k].id);
    }
    forall k | k in w.accepted ensures !HoldsUnused(w2.flights[i], w.accepted[k]) {
      assert UsedOrGone(w.store, w.accepted[k].id) && !HoldsUnused(w.flights[i], w.accepted[k]);
    }
  }

  lemma SpentStep(w: World, a: Action, bcrypt: Bcrypt<Jwt>)
    requires Kept(w) && Serial(w, a) && Spent(w)
    ensures Spent(Act(w, a, bcrypt))
  {
    if a.Advance? && w.flights[a.flight].Marking? {
      SpentMark(w, a.flight, a.env, a.looked, bcrypt);
    } else if a.Advance? {
      SpentMove(w, a.flight, a.env, a.looked, bcrypt);
    }
  }

  /** One at a time, stopped anywhere: no two requests are accepted with one token. */
  lemma AcceptedAtMostOnce(actions: seq<Action>, i: nat, j: nat, bcrypt: Bcrypt<Jwt>)
    requires IsSerialRun(actions, bcrypt)
    requires var accepted := At(actions, |actions|, bcrypt).accepted;
             i in accepted && j in accepted && accepted[i] == accepted[j]
    ensures i == j
  {
    var fact := (w: World) => Spent(w);
    forall w: World, a: Action | KeptOf()(w) && fact(w) && SerialLegal()(w, a) ensures fact(Next(bcrypt)(w, a)) {
      SpentStep(w, a, bcrypt);
    }
    StaysSerially(actions, 0, |actions|, fact, bcrypt);
  }

  lemma SerialIsRun(actions: seq<Action>, bcrypt: Bcrypt<Jwt>)
    requires IsSerialRun(actions, bcrypt)
    ensures IsRun(actions, bcrypt)
  {
    forall k | 0 <= k < |actions| ensures Legal()(After(Next(bcrypt), QUIET, actions[..k]), actions[k]) {
      assert SerialLegal()(After(Next(bcrypt), QUIET, actions[..k]), actions[k]);
    }
  }

  lemma SerialSound(actions: seq<Action>, k: nat, bcrypt: Bcrypt<Jwt>)
    requires IsSerialRun(actions, bcrypt) && k <= |actions|
    ensures Kept(At(actions, k, bcrypt))
  {
    KeptSerially(bcrypt);
    PrefixLegal(Next(bcrypt), SerialLegal(), QUIET, actions, k);
    InvariantAlong(Next(bcrypt), SerialLegal(), KeptOf(), QUIET, actions[..k]);
  }

  lemma DeletionGone(w: World, a: Action, f: Uuid, bcrypt: Bcrypt<Jwt>)
    requires Kept(w) && a.Advance? && a.flight in w.flights && w.flights[a.flight] == Deleting(f) && f in w.owners
    ensures Gone(Act(w, a, bcrypt), f)
  {
  }

  /** Once the DELETE of a logout has run, the family has no row and no token of it is accepted, ever. */
  lemma LogoutIsFinal(actions: seq<Action>, k: nat, j: nat, f: Uuid, bcrypt: Bcrypt<Jwt>)
    requires IsSerialRun(actions, bcrypt) && k < j <= |actions| && actions[k].Advance?
    requires var w := At(actions, k, bcrypt);
             f in w.owners && actions[k].flight in w.flights && w.flights[actions[k].flight] == Deleting(f)
    ensures Gone(At(actions, j, bcrypt), f)
    ensures AcceptedFor(At(actions, j, bcrypt).accepted, f) == AcceptedFor(At(actions, k + 1, bcrypt).accepted, f)
  {
    SerialIsRun(actions, bcrypt);
    SerialSound(actions, k, bcrypt);
    AfterOneMore(Next(bcrypt), QUIET, actions, k);
    DeletionGone(At(actions, k, bcrypt), actions[k], f, bcrypt);
    DeletedQuietFamilyStaysGone(actions, k + 1, j, f, bcrypt);
  }

  /** The family is gone, or it is revoked and at most a logout of it is under way. */
  ghost predicate Closed(w: World, f: Uuid) {
    || Gone(w, f)
    || (f in w.owners && RowsBarred(w.store, f)
        && forall i :: i in w.flights ==> BarredFlight(w.flights[i], f) || w.flights[i] == Deleting(f))
  }

  lemma EndedStep(w: World, a: Action, f: Uuid, bcrypt: Bcrypt<Jwt>)
    requires Kept(w) && Serial(w, a) && Closed(w, f)
    ensures Closed(Act(w, a, bcrypt), f)
    ensures AcceptedFor(Act(w, a, bcrypt).accepted, f) == AcceptedFor(w.accepted, f)
  {
    if Gone(w, f) {
      GoneStep(w, a, f, bcrypt);
    } else if a.Advance? && w.flights[a.flight] == Deleting(f) {
      DeletionGone(w, a, f, bcrypt);
    } else {
      RevokedStep(w, a, f, bcrypt);
    }
  }

  lemma RevokedStep(w: World, a: Action, f: Uuid, bcrypt: Bcrypt<Jwt>)
    requires Kept(w) && Serial(w, a) && Closed(w, f) && !Gone(w, f)
    requires !(a.Advance? && w.flights[a.flight] == Deleting(f))
    ensures Closed(Act(w, a, bcrypt), f)
    ensures AcceptedFor(Act(w, a, bcrypt).accepted, f) == AcceptedFor(w.accepted, f)
  {
    AcceptedStep(w, a, f, bcrypt);
    if a.Advance? {
      assert BarredFlight(w.flights[a.flight], f);
      BarredMove(w, a.flight, a.env, a.looked, f, bcrypt);
    }
  }

  /** Once the UPDATE of reuse detection has run, no token of the family is accepted, ever: logouts included. */
  lemma ReuseIsFinal(actions: seq<Action>, k: nat, j: nat, f: Uuid, bcrypt: Bcrypt<Jwt>)
    requires IsSerialRun(actions, bcrypt) && k < j <= |actions| && actions[k].Advance?
    requires var w := At(actions, k, bcrypt);
             f in w.owners && actions[k].flight in w.flights && w.flights[actions[k].flight] == Revoking(f)
    ensures AcceptedFor(At(actions, j, bcrypt).accepted, f) == AcceptedFor(At(actions, k + 1, bcrypt).accepted, f)
  {
    SerialSound(actions, k, bcrypt);
    AfterOneMore(Next(bcrypt), QUIET, actions, k);
    RevocationEnds(At(actions, k, bcrypt), actions[k], f, bcrypt);
    var before := AcceptedFor(At(actions, k + 1, bcrypt).accepted, f);
    var fact := (w: World) => Closed(w, f) && AcceptedFor(w.accepted, f) == before;
    forall w: World, a: Action | KeptOf()(w) && fact(w) && SerialLegal()(w, a) ensures fact(Next(bcrypt)(w, a)) {
      EndedStep(w, a, f, bcrypt);
    }
    StaysSerially(actions, k + 1, j, fact, bcrypt);
  }

  lemma RevocationEnds(w: World, a: Action, f: Uuid, bcrypt: Bcrypt<Jwt>)
    requires Kept(w) && a.Advance? && a.flight in w.flights && w.flights[a.flight] == Revoking(f) && f in w.owners
    ensures Closed(Act(w, a, bcrypt), f)
  {
    var w2 := Act(w, a, bcrypt);
    if id :| id in w.store.rows && w.store.rows[id].familyId == f {
      assert w2.store.rows[id].familyId == f;
    }
  }
}
