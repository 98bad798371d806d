/**
  What interleaving breaks, and exactly when. Served one at a time, a token is accepted at most once, a logout ends its
  family, and so does reuse detection. With requests in flight together each of the three can fail. The theorems give,
  for every run and every instant c, the condition on the state under which a continuation from c on makes it fail.
  Time counts: from the expiry of a row on its readers are refused, and an expired token can neither be presented nor
  log out.
*/
module RefreshTokenRaceLimits {
  import opened Basics
  import opened RefreshTokens
  import opened RefreshTokenRaces
  import opened RefreshTokenContinuations
  import opened Runs

  // ---------------------------------------------------------------- families that reject every reader

  /** The request is past the checks with a token of f and has not yet inserted the next row. */
  predicate PastChecks(flight: Flight, f: Uuid) {
    (flight.Marking? && flight.t.familyId == f) || (flight.Reserving? && flight.familyId == f)
  }

  /** From c on every reader of the family finds it revoked: it has rows, all are revoked, no request will add one or
      delete them, and no token of it can log out any more. */
  ghost predicate Sealed(w: World, f: Uuid, c: int) {
    Barred(w, f) && forall t: Jwt :: t in w.store.issued && t.familyId == f ==> t.exp <= c / 1000
  }

  lemma LateLogoutFails(w: World, i: nat, t: Jwt, now: int, c: int, bcrypt: Bcrypt<Jwt>)
    requires c <= now && Sealed(w, t.familyId, c)
    ensures Act(w, StartLogout(i, t, now), bcrypt) == Put(w, i, Ended)
  {
    assert c / 1000 <= now / 1000;
  }

  lemma SealedStep(w: World, a: Action, f: Uuid, c: int, bcrypt: Bcrypt<Jwt>)
    requires Sound(w) && Possible(w, a) && NoEarlier(a, c) && Sealed(w, f, c)
    ensures Sealed(Act(w, a, bcrypt), f, c) && !Marks(w, a, f)
  {
    if a.StartLogout? && a.t.familyId == f {
      LateLogoutFails(w, a.flight, a.t, a.now, c, bcrypt);
    } else {
      BarredStep(w, a, f, bcrypt);
      if a.Advance? {
        assert BarredFlight(w.flights[a.flight], f);
      }
    }
  }

  lemma SealedWhereItLeads(w: World, w2: World, f: Uuid, c: int, ok: Action -> bool, bcrypt: Bcrypt<Jwt>)
    requires Sound(w) && Sealed(w, f, c) && Clock(ok, c) && Leads(w, w2, ok, bcrypt)
    ensures AcceptedFor(w2.accepted, f) == AcceptedFor(w.accepted, f)
    ensures forall t: Jwt :: t.familyId == f ==> AcceptedWith(w2.accepted, t) == AcceptedWith(w.accepted, t)
  {
    var before := AcceptedFor(w.accepted, f);
    var fact := (v: World) =>
      Sealed(v, f, c) && AcceptedFor(v.accepted, f) == before
      && forall t: Jwt :: t.familyId == f ==> AcceptedWith(v.accepted, t) == AcceptedWith(w.accepted, t);
    forall v: World, a: Action | SoundOf()(v) && fact(v) && Allowed(ok)(v, a) ensures fact(Next(bcrypt)(v, a)) {
      SealedStep(v, a, f, c, bcrypt);
      AcceptedStep(v, a, f, bcrypt);
      forall t: Jwt | t.familyId == f
        ensures AcceptedWith(Act(v, a, bcrypt).accepted, t) == AcceptedWith(w.accepted, t)
      {
        AcceptedWithStep(v, a, t, bcrypt);
      }
    }
    KeptWhereItLeads(w, w2, ok, fact, bcrypt);
  }

  /** w2 has every row of f that w has, with its revocation, and every request and token that can unseal f. */
  ghost predicate KeepsUnsealed(w: World, w2: World, f: Uuid) {
    && w2.owners == w.owners && w.store.issued <= w2.store.issued
    && w2.store.rows.Keys == w.store.rows.Keys
    && (forall id :: id in w.store.rows ==>
          w2.store.rows[id].familyId == w.store.rows[id].familyId
          && w2.store.rows[id].revokedAt == w.store.rows[id].revokedAt)
    && (forall i :: i in w.flights && !BarredFlight(w.flights[i], f) ==>
          i in w2.flights && w2.flights[i] == w.flights[i])
  }

  lemma StaysUnsealed(w: World, w2: World, f: Uuid, c: int)
    requires KeepsUnsealed(w, w2, f) && !Sealed(w, f, c)
    ensures !Sealed(w2, f, c)
  {
    if Sealed(w2, f, c) {
      var id :| id in w2.store.rows && w2.store.rows[id].familyId == f;
      assert id in w.store.rows && w.store.rows[id].familyId == f;
      assert RowsBarred(w.store, f);
    }
  }

  /** The request has read the row of a token of f unused, and the row has not expired at c. */
  predicate ReadInTime(flight: Flight, f: Uuid, c: int) {
    flight.RowRead? && flight.t.familyId == f && !flight.row.used && c <= flight.row.expiresAt
  }

  lemma PassesAfterInsert(w: World, i: nat, j: nat, c: int, ok: Action -> bool, bcrypt: Bcrypt<Jwt>) returns (w2: World)
    requires Sound(w) && Admits(ok, c) && i in w.flights && j in w.flights && i != j
    requires w.flights[i].RowRead? && ReadInTime(w.flights[i], w.flights[i].t.familyId, c)
    requires w.flights[j].Reserving? && w.flights[j].familyId == w.flights[i].t.familyId
    ensures Leads(w, w2, ok, bcrypt) && i in w2.flights && w2.flights[i] == Marking(w.flights[i].t)
  {
    var inserted, u := ReservingInserts(w, j, c, ok, bcrypt);
    assert u.id in FamilyIds(inserted.store, u.familyId);
    w2 := ReaderPasses(inserted, i, u.id, c, ok, bcrypt);
    LeadsFurther(w, inserted, w2, ok, bcrypt);
  }

  lemma PassesAfterMark(w: World, i: nat, j: nat, c: int, ok: Action -> bool, bcrypt: Bcrypt<Jwt>) returns (w2: World)
    requires Sound(w) && Admits(ok, c) && i in w.flights && j in w.flights
    requires w.flights[i].RowRead? && ReadInTime(w.flights[i], w.flights[i].t.familyId, c)
    requires PastChecks(w.flights[j], w.flights[i].t.familyId)
    ensures Leads(w, w2, ok, bcrypt) && i in w2.flights && w2.flights[i] == Marking(w.flights[i].t)
  {
    if w.flights[j].Marking? {
      var marked := MarkingIsAccepted(w, j, c, ok, bcrypt);
      StaysSound(w, marked, ok, bcrypt);
      w2 := PassesAfterInsert(marked, i, j, c, ok, bcrypt);
      LeadsFurther(w, marked, w2, ok, bcrypt);
    } else {
      w2 := PassesAfterInsert(w, i, j, c, ok, bcrypt);
    }
  }

  lemma PassesAfterDelete(w: World, i: nat, j: nat, c: int, ok: Action -> bool, bcrypt: Bcrypt<Jwt>) returns (w2: World)
    requires Admits(ok, c) && i in w.flights && j in w.flights
    requires w.flights[i].RowRead? && ReadInTime(w.flights[i], w.flights[i].t.familyId, c)
    requires w.flights[j] == Deleting(w.flights[i].t.familyId)
    ensures Leads(w, w2, ok, bcrypt) && i in w2.flights && w2.flights[i] == Marking(w.flights[i].t)
  {
    var emptied := DeletingEmpties(w, j, c, ok, bcrypt);
    w2 := ReaderPasses(emptied, i, 0, c, ok, bcrypt);
    LeadsFurther(w, emptied, w2, ok, bcrypt);
  }

  lemma PassesAfterLogout(w: World, i: nat, u: Jwt, c: int, ok: Action -> bool, bcrypt: Bcrypt<Jwt>) returns (w2: World)
    requires Clock(ok, c) && i in w.flights && Verifies(w.store, u, c)
    requires w.flights[i].RowRead? && ReadInTime(w.flights[i], w.flights[i].t.familyId, c)
    requires u.familyId == w.flights[i].t.familyId
    ensures Leads(w, w2, ok, bcrypt) && i in w2.flights && w2.flights[i] == Marking(w.flights[i].t)
  {
    var emptied := LogoutEmpties(w, u, c, ok, bcrypt);
    w2 := ReaderPasses(emptied, i, 0, c, ok, bcrypt);
    LeadsFurther(w, emptied, w2, ok, bcrypt);
  }

  /** A reader in time of a family that is not sealed gets past its checks at once. */
  lemma PassesUnlessSealed(w: World, i: nat, f: Uuid, c: int, ok: Action -> bool, bcrypt: Bcrypt<Jwt>)
    returns (w2: World)
    requires Sound(w) && Clock(ok, c) && i in w.flights && ReadInTime(w.flights[i], f, c) && !Sealed(w, f, c)
    ensures Leads(w, w2, ok, bcrypt) && i in w2.flights && w2.flights[i] == Marking(w.flights[i].t)
  {
    assert FlightOwned(w.flights[i], w.store.issued, w.owners);
    if FamilyIds(w.store, f) == {} {
      w2 := ReaderPasses(w, i, 0, c, ok, bcrypt);
    } else if id :| id in FamilyIds(w.store, f) && w.store.rows[id].revokedAt.None? {
      w2 := ReaderPasses(w, i, id, c, ok, bcrypt);
    } else if j :| j in w.flights && w.flights[j] == Deleting(f) {
      w2 := PassesAfterDelete(w, i, j, c, ok, bcrypt);
    } else if j :| j in w.flights && PastChecks(w.flights[j], f) {
      w2 := PassesAfterMark(w, i, j, c, ok, bcrypt);
    } else {
      var u :| u in w.store.issued && u.familyId == f && c / 1000 < u.exp by { UnsealedByToken(w, f, c); }
      w2 := PassesAfterLogout(w, i, u, c, ok, bcrypt);
    }
  }

  lemma UnsealedByToken(w: World, f: Uuid, c: int)
    requires f in w.owners && FamilyIds(w.store, f) != {} && !Sealed(w, f, c)
    requires forall id :: id in FamilyIds(w.store, f) ==> w.store.rows[id].revokedAt.Some?
    requires forall i :: i in w.flights ==> w.flights[i] != Deleting(f) && !PastChecks(w.flights[i], f)
    ensures exists u: Jwt :: u in w.store.issued && u.familyId == f && c / 1000 < u.exp
  {
    var id :| id in FamilyIds(w.store, f);
    assert id in w.store.rows && w.store.rows[id].familyId == f;
    forall id | id in w.store.rows && w.store.rows[id].familyId == f ensures w.store.rows[id].revokedAt.Some? {
      assert id in FamilyIds(w.store, f);
    }
    assert RowsBarred(w.store, f);
  }

  lemma ReaderGetsAccepted(w: World, i: nat, f: Uuid, c: int, ok: Action -> bool, bcrypt: Bcrypt<Jwt>)
    returns (w2: World)
    requires Sound(w) && Clock(ok, c) && i in w.flights && ReadInTime(w.flights[i], f, c) && !Sealed(w, f, c)
    ensures Leads(w, w2, ok, bcrypt) && i in w2.accepted && w2.accepted[i] == w.flights[i].t && i !in w.accepted
  {
    var past := PassesUnlessSealed(w, i, f, c, ok, bcrypt);
    StaysSound(w, past, ok, bcrypt);
    w2 := MarkingIsAccepted(past, i, c, ok, bcrypt);
    LeadsFurther(w, past, w2, ok, bcrypt);
  }

  // ---------------------------------------------------------------- at most once

  /** The request holds t, found unused: it is about to mark it, or it has read the row in time. */
  predicate Holds(flight: Flight, t: Jwt, c: int) {
    flight == Marking(t) || (flight.RowRead? && flight.t == t && !flight.row.used && c <= flight.row.expiresAt)
  }

  /** The row of t is used or gone, and no request holds t. */
  ghost predicate Settled(w: World, t: Jwt, c: int) {
    UsedOrGone(w.store, t.id) && forall i :: i in w.flights ==> !Holds(w.flights[i], t, c)
  }

  lemma SettledStep(w: World, a: Action, t: Jwt, c: int, bcrypt: Bcrypt<Jwt>)
    requires AcceptedFlew(w) && Possible(w, a) && NoEarlier(a, c) && Settled(w, t, c)
    ensures Settled(Act(w, a, bcrypt), t, c)
    ensures AcceptedWith(Act(w, a, bcrypt).accepted, t) == AcceptedWith(w.accepted, t)
  {
    UsedOrGoneStep(w, a, t.id, bcrypt);
    if a.Advance? {
      assert !Holds(w.flights[a.flight], t, c);
    }
    AcceptedWithStep(w, a, t, bcrypt);
  }

  lemma SettledWhereItLeads(w: World, w2: World, t: Jwt, c: int, ok: Action -> bool, bcrypt: Bcrypt<Jwt>)
    requires Sound(w) && Settled(w, t, c) && Clock(ok, c) && Leads(w, w2, ok, bcrypt)
    ensures AcceptedWith(w2.accepted, t) == AcceptedWith(w.accepted, t)
  {
    var before := AcceptedWith(w.accepted, t);
    var fact := (v: World) => Settled(v, t, c) && AcceptedWith(v.accepted, t) == before;
    forall v: World, a: Action | SoundOf()(v) && fact(v) && Allowed(ok)(v, a) ensures fact(Next(bcrypt)(v, a)) {
      SettledStep(v, a, t, c, bcrypt);
    }
    KeptWhereItLeads(w, w2, ok, fact, bcrypt);
  }

  /** Some request can still be accepted with t from c on. */
  ghost predicate StillHeld(w: World, t: Jwt, c: int) {
    exists i :: i in w.flights && Holds(w.flights[i], t, c) && (w.flights[i].Marking? || !Sealed(w, t.familyId, c))
  }

  lemma HeldGetsAccepted(w: World, t: Jwt, c: int, ok: Action -> bool, bcrypt: Bcrypt<Jwt>) returns (w2: World)
    requires Sound(w) && Clock(ok, c) && StillHeld(w, t, c)
    ensures Leads(w, w2, ok, bcrypt) && AcceptedWith(w2.accepted, t) != AcceptedWith(w.accepted, t)
  {
    var i :| i in w.flights && Holds(w.flights[i], t, c) && (w.flights[i].Marking? || !Sealed(w, t.familyId, c));
    if w.flights[i].Marking? {
      w2 := MarkingIsAccepted(w, i, c, ok, bcrypt);
    } else {
      w2 := ReaderGetsAccepted(w, i, t.familyId, c, ok, bcrypt);
    }
    assert i in AcceptedWith(w2.accepted, t) && i !in AcceptedWith(w.accepted, t);
  }

  /** A token whose row is used or gone can be accepted again from c on if and only if some request read its row unused
      and has not marked it yet, and, if it has still to look for a revocation, the row has not expired at c and the
      family is not sealed. */
  lemma AcceptedAgainExactlyWhen(actions: seq<Action>, t: Jwt, c: int, ok: Action -> bool, bcrypt: Bcrypt<Jwt>)
    requires IsRun(actions, bcrypt) && Clock(ok, c) && UsedOrGone(End(actions, bcrypt).store, t.id)
    ensures var w := End(actions, bcrypt);
            (exists w2 :: Leads(w, w2, ok, bcrypt) && AcceptedWith(w2.accepted, t) != AcceptedWith(w.accepted, t))
            <==> StillHeld(w, t, c)
  {
    EndSound(actions, bcrypt);
    var w := End(actions, bcrypt);
    if StillHeld(w, t, c) {
      var w2 := HeldGetsAccepted(w, t, c, ok, bcrypt);
    } else {
      forall w2 | Leads(w, w2, ok, bcrypt) ensures AcceptedWith(w2.accepted, t) == AcceptedWith(w.accepted, t) {
        if Sealed(w, t.familyId, c) {
          SealedWhereItLeads(w, w2, t.familyId, c, ok, bcrypt);
        } else {
          assert Settled(w, t, c);
          SettledWhereItLeads(w, w2, t, c, ok, bcrypt);
        }
      }
    }
  }

  /** Every token accepted so far has its row used or gone. */
  ghost predicate AcceptedSpent(w: World) {
    forall i :: i in w.accepted ==> UsedOrGone(w.store, w.accepted[i].id)
  }

  lemma AcceptedSpentStep(w: World, a: Action, bcrypt: Bcrypt<Jwt>)
    requires Sound(w) && Possible(w, a) && AcceptedSpent(w)
    ensures AcceptedSpent(Act(w, a, bcrypt))
  {
    var w2 := Act(w, a, bcrypt);
    forall i | i in w2.accepted ensures UsedOrGone(w2.store, w2.accepted[i].id) {
      if i in w.accepted && w2.accepted[i] == w.accepted[i] {
        UsedOrGoneStep(w, a, w.accepted[i].id, bcrypt);
      } else {
        assert FlightOwned(w.flights[i], w.store.issued, w.owners);
      }
    }
  }

  /** So the condition decides about a second acceptance of every token accepted once. */
  lemma AcceptedIsUsedOrGone(actions: seq<Action>, i: nat, bcrypt: Bcrypt<Jwt>)
    requires IsRun(actions, bcrypt) && i in End(actions, bcrypt).accepted
    ensures UsedOrGone(End(actions, bcrypt).store, End(actions, bcrypt).accepted[i].id)
  {
    SoundKept(bcrypt);
    var fact := (w: World) => AcceptedSpent(w);
    forall w: World, a: Action | SoundOf()(w) && fact(w) && Legal()(w, a) ensures fact(Next(bcrypt)(w, a)) {
      AcceptedSpentStep(w, a, bcrypt);
    }
    assert actions[..0] == [];
    OnceTrueStaysTrue(Next(bcrypt), Legal(), SoundOf(), fact, QUIET, actions, 0);
  }

  // ---------------------------------------------------------------- logout

  ghost predicate HasRow(s: Store, f: Uuid) {
    exists id :: id in s.rows && s.rows[id].familyId == f
  }

  /** A request of f that may still insert a row in it from c on. */
  predicate CarriesFrom(flight: Flight, f: Uuid, c: int) {
    PastChecks(flight, f) || ReadInTime(flight, f, c)
  }

  /** The family was drawn, has no row, and from c on no request that may still insert one. */
  ghost predicate GoneFrom(w: World, f: Uuid, c: int) {
    && f in w.owners && !HasRow(w.store, f)
    && (forall i :: i in w.flights ==> !CarriesFrom(w.flights[i], f, c))
  }

  lemma GoneFromMove(w: World, i: nat, env: Env, looked: nat, f: Uuid, c: int, bcrypt: Bcrypt<Jwt>)
    requires i in w.flights && c <= env.now && GoneFrom(w, f, c)
    ensures GoneFrom(Move(w, i, env, looked, bcrypt), f, c)
  {
    assert !CarriesFrom(w.flights[i], f, c);
    var w2 := Move(w, i, env, looked, bcrypt);
    assert forall id :: id in w.store.rows ==> w.store.rows[id].familyId != f;
    assert forall id :: id in w2.store.rows ==> w2.store.rows[id].familyId != f;
  }

  lemma GoneFromStep(w: World, a: Action, f: Uuid, c: int, bcrypt: Bcrypt<Jwt>)
    requires Possible(w, a) && NoEarlier(a, c) && GoneFrom(w, f, c)
    ensures GoneFrom(Act(w, a, bcrypt), f, c) && !Marks(w, a, f)
  {
    if a.Advance? {
      assert !CarriesFrom(w.flights[a.flight], f, c);
      GoneFromMove(w, a.flight, a.env, a.looked, f, c, bcrypt);
    }
  }

  lemma GoneWhereItLeads(w: World, w2: World, f: Uuid, c: int, ok: Action -> bool, bcrypt: Bcrypt<Jwt>)
    requires Sound(w) && GoneFrom(w, f, c) && Clock(ok, c) && Leads(w, w2, ok, bcrypt)
    ensures !HasRow(w2.store, f) && AcceptedFor(w2.accepted, f) == AcceptedFor(w.accepted, f)
  {
    var before := AcceptedFor(w.accepted, f);
    var fact := (v: World) => GoneFrom(v, f, c) && AcceptedFor(v.accepted, f) == before;
    forall v: World, a: Action | SoundOf()(v) && fact(v) && Allowed(ok)(v, a) ensures fact(Next(bcrypt)(v, a)) {
      GoneFromStep(v, a, f, c, bcrypt);
      AcceptedStep(v, a, f, bcrypt);
    }
    KeptWhereItLeads(w, w2, ok, fact, bcrypt);
  }

  lemma CarrierReserves(w: World, i: nat, f: Uuid, c: int, ok: Action -> bool, bcrypt: Bcrypt<Jwt>)
    returns (w2: World)
    requires Sound(w) && Admits(ok, c) && i in w.flights && CarriesFrom(w.flights[i], f, c) && !HasRow(w.store, f)
    ensures Leads(w, w2, ok, bcrypt) && Sound(w2)
    ensures i in w2.flights && w2.flights[i].Reserving? && w2.flights[i].familyId == f
  {
    LeadsNowhere(w, ok, bcrypt);
    var past := w;
    if w.flights[i].RowRead? {
      forall id ensures id !in FamilyIds(w.store, f) {}
      past := ReaderPasses(w, i, 0, c, ok, bcrypt);
    }
    StaysSound(w, past, ok, bcrypt);
    w2 := past;
    if past.flights[i].Marking? {
      w2 := MarkingIsAccepted(past, i, c, ok, bcrypt);
      LeadsFurther(w, past, w2, ok, bcrypt);
    }
    StaysSound(w, w2, ok, bcrypt);
  }

  lemma CarrierRevives(w: World, i: nat, f: Uuid, c: int, ok: Action -> bool, bcrypt: Bcrypt<Jwt>)
    returns (inserted: World, accepted: World)
    requires Honest(bcrypt) && Sound(w) && Admits(ok, c)
    requires i in w.flights && CarriesFrom(w.flights[i], f, c) && !HasRow(w.store, f)
    ensures Leads(w, inserted, ok, bcrypt) && HasRow(inserted.store, f)
    ensures Leads(w, accepted, ok, bcrypt) && AcceptedFor(accepted.accepted, f) != AcceptedFor(w.accepted, f)
  {
    var about := CarrierReserves(w, i, f, c, ok, bcrypt);
    var u;
    inserted, u := ReservingInserts(about, i, c, ok, bcrypt);
    LeadsFurther(w, about, inserted, ok, bcrypt);
    accepted := ReservingRevives(about, i, c, ok, bcrypt);
    LeadsFurther(w, about, accepted, ok, bcrypt);
    AcceptedOnlyGrows(w, about, f, ok, bcrypt);
    AcceptedOnlyGrows(about, accepted, f, ok, bcrypt);
  }

  /** A family without rows comes back from c on if and only if some request of it is caught between reading its row
      unused and inserting the next one, and, if it has still to check the expiry, the row has not expired at c. The
      family then gets a row again, and a token of it is accepted again. */
  lemma DeletedFamilyReturnsExactlyWhen(actions: seq<Action>, f: Uuid, c: int, ok: Action -> bool, bcrypt: Bcrypt<Jwt>)
    requires Honest(bcrypt) && IsRun(actions, bcrypt) && Clock(ok, c)
    requires f in End(actions, bcrypt).owners && !HasRow(End(actions, bcrypt).store, f)
    ensures var w := End(actions, bcrypt);
            (exists w2 :: Leads(w, w2, ok, bcrypt) && HasRow(w2.store, f))
            <==> exists i :: i in w.flights && CarriesFrom(w.flights[i], f, c)
    ensures var w := End(actions, bcrypt);
            (exists w2 :: Leads(w, w2, ok, bcrypt) && AcceptedFor(w2.accepted, f) != AcceptedFor(w.accepted, f))
            <==> exists i :: i in w.flights && CarriesFrom(w.flights[i], f, c)
  {
    EndSound(actions, bcrypt);
    var w := End(actions, bcrypt);
    if i :| i in w.flights && CarriesFrom(w.flights[i], f, c) {
      var inserted, accepted := CarrierRevives(w, i, f, c, ok, bcrypt);
    } else {
      forall w2 | Leads(w, w2, ok, bcrypt)
        ensures !HasRow(w2.store, f) && AcceptedFor(w2.accepted, f) == AcceptedFor(w.accepted, f)
      {
        GoneWhereItLeads(w, w2, f, c, ok, bcrypt);
      }
    }
  }

  // ---------------------------------------------------------------- reuse detection

  predicate IsLogoutOf(a: Action, f: Uuid) {
    a.StartLogout? && a.t.familyId == f
  }

  /** Everything at c but logouts of f is admitted, and nothing before c. */
  ghost predicate ClockWithoutLogout(ok: Action -> bool, f: Uuid, c: int) {
    && (forall a: Action :: Happens(a, c) && !IsLogoutOf(a, f) ==> ok(a))
    && (forall a: Action :: ok(a) ==> NoEarlier(a, c) && !IsLogoutOf(a, f))
  }

  lemma BarredWhereItLeads(w: World, w2: World, f: Uuid, c: int, ok: Action -> bool, bcrypt: Bcrypt<Jwt>)
    requires Sound(w) && Barred(w, f) && ClockWithoutLogout(ok, f, c) && Leads(w, w2, ok, bcrypt)
    ensures RowsBarred(w2.store, f) && AcceptedFor(w2.accepted, f) == AcceptedFor(w.accepted, f)
  {
    var before := AcceptedFor(w.accepted, f);
    var fact := (v: World) => Barred(v, f) && AcceptedFor(v.accepted, f) == before;
    forall v: World, a: Action | SoundOf()(v) && fact(v) && Allowed(ok)(v, a) ensures fact(Next(bcrypt)(v, a)) {
      assert !IsLogoutOf(a, f);
      BarredStep(v, a, f, bcrypt);
    }
    KeptWhereItLeads(w, w2, ok, fact, bcrypt);
  }

  lemma PastChecksGetsAccepted(w: World, i: nat, f: Uuid, c: int, ok: Action -> bool, bcrypt: Bcrypt<Jwt>)
    returns (w2: World)
    requires Honest(bcrypt) && Sound(w) && Admits(ok, c) && i in w.flights && PastChecks(w.flights[i], f)
    ensures Leads(w, w2, ok, bcrypt) && AcceptedFor(w2.accepted, f) != AcceptedFor(w.accepted, f)
  {
    if w.flights[i].Marking? {
      w2 := MarkingIsAccepted(w, i, c, ok, bcrypt);
      assert i in AcceptedFor(w2.accepted, f) && i !in AcceptedFor(w.accepted, f);
    } else {
      w2 := ReservingRevives(w, i, c, ok, bcrypt);
    }
  }

  /** A family all of whose rows are revoked, with no logout of it in flight, has a token accepted again from c on,
      without a logout of it, if and only if some request of it is past its checks and has not inserted its row. */
  lemma RevokedFamilyAcceptedExactlyWhen(actions: seq<Action>, f: Uuid, c: int, ok: Action -> bool,
                                         bcrypt: Bcrypt<Jwt>)
    requires Honest(bcrypt) && IsRun(actions, bcrypt) && ClockWithoutLogout(ok, f, c)
    requires RowsBarred(End(actions, bcrypt).store, f)
    requires forall i :: i in End(actions, bcrypt).flights ==> End(actions, bcrypt).flights[i] != Deleting(f)
    ensures var w := End(actions, bcrypt);
            (exists w2 :: Leads(w, w2, ok, bcrypt) && AcceptedFor(w2.accepted, f) != AcceptedFor(w.accepted, f))
            <==> exists i :: i in w.flights && PastChecks(w.flights[i], f)
  {
    EndSound(actions, bcrypt);
    var w := End(actions, bcrypt);
    if i :| i in w.flights && PastChecks(w.flights[i], f) {
      assert Admits(ok, c);
      var w2 := PastChecksGetsAccepted(w, i, f, c, ok, bcrypt);
    } else {
      var id :| id in w.store.rows && w.store.rows[id].familyId == f;
      assert OwnedBy(w.owners, f, w.store.rows[id].userId);
      forall w2 | Leads(w, w2, ok, bcrypt) ensures AcceptedFor(w2.accepted, f) == AcceptedFor(w.accepted, f) {
        BarredWhereItLeads(w, w2, f, c, ok, bcrypt);
      }
    }
  }

  // ---------------------------------------------------------------- any family at all

  /** t can be presented from c on, or is being presented. */
  ghost predicate MayBePresented(w: World, t: Jwt, c: int) {
    t in w.store.issued && (c / 1000 < t.exp || exists m :: m in w.flights && w.flights[m] == Presented(t))
  }

  /** The hash in the row is one of t. */
  predicate Matches(s: Store, t: Jwt, bcrypt: Bcrypt<Jwt>) {
    t.id in s.rows && s.rows[t.id].tokenHash.Some? && bcrypt.compare(t, s.rows[t.id].tokenHash.value)
  }

  /** From c on a reader of t can find its row unused, unexpired and with its hash. */
  ghost predicate Ready(w: World, t: Jwt, c: int, bcrypt: Bcrypt<Jwt>) {
    && MayBePresented(w, t, c) && t.id in w.store.rows
    && !w.store.rows[t.id].used && c <= w.store.rows[t.id].expiresAt
    && (Matches(w.store, t, bcrypt) || exists j :: j in w.flights && w.flights[j] == Hashing(t))
  }

  /** Tokens are told apart by their ids and agree with their rows, and what is hashed has been signed. */
  ghost predicate Agreed(w: World) {
    && (forall t: Jwt, u: Jwt :: t in w.store.issued && u in w.store.issued && t.id == u.id ==> t == u)
    && (forall t: Jwt :: t in w.store.issued && t.id in w.store.rows ==>
          w.store.rows[t.id].userId == t.userId && w.store.rows[t.id].familyId == t.familyId)
    && (forall i :: i in w.flights && w.flights[i].Hashing? ==> w.flights[i].t in w.store.issued)
  }

  lemma InsertAgreed(w: World, i: nat, env: Env, bcrypt: Bcrypt<Jwt>)
    requires StoreOwned(w.store, w.owners) && Agreed(w) && i in w.flights && w.flights[i].Reserving?
    ensures Agreed(Move(w, i, env, 0, bcrypt))
  {
  }

  /** No query but an insert signs a token, adds a row or moves one to another user or family. */
  lemma SamePairs(w: World, i: nat, env: Env, looked: nat, bcrypt: Bcrypt<Jwt>)
    requires i in w.flights && !w.flights[i].Reserving?
    ensures var s2 := Move(w, i, env, looked, bcrypt).store;
            && s2.issued == w.store.issued
            && forall id :: id in s2.rows ==>
                 id in w.store.rows && s2.rows[id].userId == w.store.rows[id].userId
                 && s2.rows[id].familyId == w.store.rows[id].familyId
  {
  }

  lemma AgreedMove(w: World, i: nat, env: Env, looked: nat, bcrypt: Bcrypt<Jwt>)
    requires StoreOwned(w.store, w.owners) && i in w.flights && Agreed(w)
    ensures Agreed(Move(w, i, env, looked, bcrypt))
  {
    if w.flights[i].Reserving? {
      InsertAgreed(w, i, env, bcrypt);
    } else {
      SamePairs(w, i, env, looked, bcrypt);
    }
  }

  lemma AgreedStep(w: World, a: Action, bcrypt: Bcrypt<Jwt>)
    requires Sound(w) && Possible(w, a) && Agreed(w)
    ensures Agreed(Act(w, a, bcrypt))
  {
    if a.Advance? {
      AgreedMove(w, a.flight, a.env, a.looked, bcrypt);
    }
  }

  lemma AgreedWhereItLeads(w: World, w2: World, ok: Action -> bool, bcrypt: Bcrypt<Jwt>)
    requires Sound(w) && Agreed(w) && Leads(w, w2, ok, bcrypt)
    ensures Agreed(w2)
  {
    var fact := (v: World) => Agreed(v);
    forall v: World, a: Action | SoundOf()(v) && fact(v) && Allowed(ok)(v, a) ensures fact(Next(bcrypt)(v, a)) {
      AgreedStep(v, a, bcrypt);
    }
    KeptWhereItLeads(w, w2, ok, fact, bcrypt);
  }

  lemma EndAgreed(actions: seq<Action>, bcrypt: Bcrypt<Jwt>)
    requires IsRun(actions, bcrypt)
    ensures Agreed(End(actions, bcrypt))
  {
    SoundKept(bcrypt);
    var fact := (w: World) => Agreed(w);
    forall w: World, a: Action | SoundOf()(w) && fact(w) && Legal()(w, a) ensures fact(Next(bcrypt)(w, a)) {
      AgreedStep(w, a, bcrypt);
    }
    assert actions[..0] == [];
    OnceTrueStaysTrue(Next(bcrypt), Legal(), SoundOf(), fact, QUIET, actions, 0);
  }

  /** From c on nothing of f is on its way: no request, and no token that could start one. */
  ghost predicate Shut(w: World, f: Uuid, c: int, bcrypt: Bcrypt<Jwt>) {
    && f in w.owners
    && (forall i :: i in w.flights ==> !CarriesFrom(w.flights[i], f, c))
    && (forall t: Jwt :: t.familyId == f ==> !Ready(w, t, c, bcrypt))
  }

  lemma PresentedBefore(w: World, i: nat, env: Env, looked: nat, t: Jwt, c: int, bcrypt: Bcrypt<Jwt>)
    requires i in w.flights && !(w.flights[i].Reserving? && w.flights[i].familyId == t.familyId)
    requires MayBePresented(Move(w, i, env, looked, bcrypt), t, c)
    ensures MayBePresented(w, t, c)
  {
    var w2 := Move(w, i, env, looked, bcrypt);
    if c / 1000 >= t.exp {
      var m :| m in w2.flights && w2.flights[m] == Presented(t);
      assert m in w.flights && w.flights[m] == Presented(t);
    }
  }

  lemma RowBefore(w: World, i: nat, env: Env, looked: nat, t: Jwt, bcrypt: Bcrypt<Jwt>)
    requires Sound(w) && Agreed(w) && i in w.flights && t in w.store.issued
    requires t.id in Move(w, i, env, looked, bcrypt).store.rows
    ensures t.id in w.store.rows
    ensures var row, row2 := w.store.rows[t.id], Move(w, i, env, looked, bcrypt).store.rows[t.id];
            && row2.expiresAt == row.expiresAt && (row.used ==> row2.used)
            && (row2.tokenHash == row.tokenHash || w.flights[i] == Hashing(t))
  {
    if w.flights[i].Hashing? {
      assert w.flights[i].t in w.store.issued;
    }
  }

  /** A token that is ready after a query was ready before it. */
  lemma ReadyBefore(w: World, i: nat, env: Env, looked: nat, t: Jwt, c: int, bcrypt: Bcrypt<Jwt>)
    requires Sound(w) && Agreed(w) && i in w.flights
    requires !(w.flights[i].Reserving? && w.flights[i].familyId == t.familyId)
    requires Ready(Move(w, i, env, looked, bcrypt), t, c, bcrypt)
    ensures Ready(w, t, c, bcrypt)
  {
    var w2 := Move(w, i, env, looked, bcrypt);
    PresentedBefore(w, i, env, looked, t, c, bcrypt);
    RowBefore(w, i, env, looked, t, bcrypt);
    if !Matches(w.store, t, bcrypt) && w.flights[i] != Hashing(t) {
      assert !Matches(w2.store, t, bcrypt);
      var j :| j in w2.flights && w2.flights[j] == Hashing(t);
      assert j in w.flights && w.flights[j] == Hashing(t);
    }
  }

  lemma ShutMove(w: World, i: nat, env: Env, looked: nat, f: Uuid, c: int, bcrypt: Bcrypt<Jwt>)
    requires Sound(w) && Agreed(w) && i in w.flights && c <= env.now && Shut(w, f, c, bcrypt)
    ensures Shut(Move(w, i, env, looked, bcrypt), f, c, bcrypt)
  {
    var w2 := Move(w, i, env, looked, bcrypt);
    assert !CarriesFrom(w.flights[i], f, c);
    assert FlightOwned(w.flights[i], w.store.issued, w.owners);
    forall t: Jwt | t.familyId == f ensures !Ready(w2, t, c, bcrypt) {
      if Ready(w2, t, c, bcrypt) {
        ReadyBefore(w, i, env, looked, t, c, bcrypt);
      }
    }
    if w.flights[i].Presented? && w.flights[i].t.familyId == f {
      assert !Ready(w, w.flights[i].t, c, bcrypt);
    }
  }

  lemma StartReadies(w: World, a: Action, t: Jwt, c: int, bcrypt: Bcrypt<Jwt>)
    requires Possible(w, a) && !a.Advance? && NoEarlier(a, c) && Ready(Act(w, a, bcrypt), t, c, bcrypt)
    ensures Ready(w, t, c, bcrypt)
  {
    var w2 := Act(w, a, bcrypt);
    if c / 1000 >= t.exp {
      var m :| m in w2.flights && w2.flights[m] == Presented(t);
      assert a.StartRefresh? ==> c / 1000 <= a.now / 1000;
      assert m in w.flights && w.flights[m] == Presented(t);
    }
    if !Matches(w.store, t, bcrypt) {
      var j :| j in w2.flights && w2.flights[j] == Hashing(t);
      assert j in w.flights && w.flights[j] == Hashing(t);
    }
  }

  lemma ShutStart(w: World, a: Action, f: Uuid, c: int, bcrypt: Bcrypt<Jwt>)
    requires Sound(w) && Possible(w, a) && !a.Advance? && NoEarlier(a, c) && Shut(w, f, c, bcrypt)
    ensures Shut(Act(w, a, bcrypt), f, c, bcrypt)
  {
    var w2 := Act(w, a, bcrypt);
    forall t: Jwt | t.familyId == f ensures Ready(w2, t, c, bcrypt) ==> Ready(w, t, c, bcrypt) {
      if Ready(w2, t, c, bcrypt) {
        StartReadies(w, a, t, c, bcrypt);
      }
    }
  }

  lemma ShutStep(w: World, a: Action, f: Uuid, c: int, bcrypt: Bcrypt<Jwt>)
    requires Sound(w) && Agreed(w) && Possible(w, a) && NoEarlier(a, c) && Shut(w, f, c, bcrypt)
    ensures Shut(Act(w, a, bcrypt), f, c, bcrypt) && !Marks(w, a, f)
  {
    if a.Advance? {
      assert !CarriesFrom(w.flights[a.flight], f, c);
      ShutMove(w, a.flight, a.env, a.looked, f, c, bcrypt);
    } else {
      ShutStart(w, a, f, c, bcrypt);
    }
  }

  lemma ShutWhereItLeads(w: World, w2: World, f: Uuid, c: int, ok: Action -> bool, bcrypt: Bcrypt<Jwt>)
    requires Sound(w) && Agreed(w) && Shut(w, f, c, bcrypt) && Clock(ok, c) && Leads(w, w2, ok, bcrypt)
    ensures AcceptedFor(w2.accepted, f) == AcceptedFor(w.accepted, f)
  {
    var before := AcceptedFor(w.accepted, f);
    var fact := (v: World) => Agreed(v) && Shut(v, f, c, bcrypt) && AcceptedFor(v.accepted, f) == before;
    forall v: World, a: Action | SoundOf()(v) && fact(v) && Allowed(ok)(v, a) ensures fact(Next(bcrypt)(v, a)) {
      AgreedStep(v, a, bcrypt);
      ShutStep(v, a, f, c, bcrypt);
      AcceptedStep(v, a, f, bcrypt);
    }
    KeptWhereItLeads(w, w2, ok, fact, bcrypt);
  }

  /** With the hash written if need be, t matches its row, and everything else is as it was. */
  lemma ReadyMatches(w: World, t: Jwt, c: int, ok: Action -> bool, bcrypt: Bcrypt<Jwt>) returns (w2: World)
    requires Honest(bcrypt) && Admits(ok, c) && Ready(w, t, c, bcrypt)
    ensures Leads(w, w2, ok, bcrypt) && Ready(w2, t, c, bcrypt) && Matches(w2.store, t, bcrypt)
    ensures KeepsUnsealed(w, w2, t.familyId) && w2.store.issued == w.store.issued && w2.accepted == w.accepted
    ensures w2.store.rows[t.id] == w.store.rows[t.id].(tokenHash := w2.store.rows[t.id].tokenHash)
  {
    LeadsNowhere(w, ok, bcrypt);
    w2 := w;
    if !Matches(w.store, t, bcrypt) {
      var j :| j in w.flights && w.flights[j] == Hashing(t);
      w2 := HashingMatches(w, j, c, ok, bcrypt);
      if m :| m in w.flights && w.flights[m] == Presented(t) {
        assert w2.flights[m] == Presented(t);
      }
    }
  }

  lemma ReadyIsRead(w: World, t: Jwt, c: int, ok: Action -> bool, bcrypt: Bcrypt<Jwt>) returns (w2: World, m: nat)
    requires Admits(ok, c) && Agreed(w) && Ready(w, t, c, bcrypt) && Matches(w.store, t, bcrypt)
    ensures Leads(w, w2, ok, bcrypt) && KeepsUnsealed(w, w2, t.familyId) && w2.accepted == w.accepted
    ensures m in w2.flights && ReadInTime(w2.flights[m], t.familyId, c) && w2.flights[m].t == t
  {
    var presented := w;
    LeadsNowhere(w, ok, bcrypt);
    if c / 1000 < t.exp {
      presented, m := PresentsAt(w, t, c, ok, bcrypt);
    } else {
      m :| m in w.flights && w.flights[m] == Presented(t);
    }
    w2 := PresentedReads(presented, m, c, ok, bcrypt);
    LeadsFurther(w, presented, w2, ok, bcrypt);
  }

  lemma ReadyGetsAccepted(w: World, t: Jwt, c: int, ok: Action -> bool, bcrypt: Bcrypt<Jwt>) returns (w2: World)
    requires Honest(bcrypt) && Sound(w) && Agreed(w) && Clock(ok, c)
    requires Ready(w, t, c, bcrypt) && !Sealed(w, t.familyId, c)
    ensures Leads(w, w2, ok, bcrypt) && AcceptedFor(w2.accepted, t.familyId) != AcceptedFor(w.accepted, t.familyId)
  {
    var matching := ReadyMatches(w, t, c, ok, bcrypt);
    AgreedWhereItLeads(w, matching, ok, bcrypt);
    StaysUnsealed(w, matching, t.familyId, c);
    var read, m := ReadyIsRead(matching, t, c, ok, bcrypt);
    StaysUnsealed(matching, read, t.familyId, c);
    LeadsFurther(w, matching, read, ok, bcrypt);
    StaysSound(w, read, ok, bcrypt);
    w2 := ReaderGetsAccepted(read, m, t.familyId, c, ok, bcrypt);
    LeadsFurther(w, read, w2, ok, bcrypt);
    assert m in AcceptedFor(w2.accepted, t.familyId) && m !in AcceptedFor(w.accepted, t.familyId);
  }

  /** From c on a token of f can be accepted: a request is past its checks; or the family is not sealed, and a request
      has read its row in time or a token is ready to be read. */
  ghost predicate Revivable(w: World, f: Uuid, c: int, bcrypt: Bcrypt<Jwt>) {
    || (exists i :: i in w.flights && PastChecks(w.flights[i], f))
    || (!Sealed(w, f, c)
        && ((exists i :: i in w.flights && ReadInTime(w.flights[i], f, c))
            || (exists t: Jwt :: t.familyId == f && Ready(w, t, c, bcrypt))))
  }

  lemma RevivableGetsAccepted(w: World, f: Uuid, c: int, ok: Action -> bool, bcrypt: Bcrypt<Jwt>) returns (w2: World)
    requires Honest(bcrypt) && Sound(w) && Agreed(w) && Clock(ok, c) && Revivable(w, f, c, bcrypt)
    ensures Leads(w, w2, ok, bcrypt) && AcceptedFor(w2.accepted, f) != AcceptedFor(w.accepted, f)
  {
    if i :| i in w.flights && PastChecks(w.flights[i], f) {
      w2 := PastChecksGetsAccepted(w, i, f, c, ok, bcrypt);
    } else if i :| i in w.flights && ReadInTime(w.flights[i], f, c) {
      w2 := ReaderGetsAccepted(w, i, f, c, ok, bcrypt);
      assert i in AcceptedFor(w2.accepted, f) && i !in AcceptedFor(w.accepted, f);
    } else {
      var t: Jwt :| t.familyId == f && Ready(w, t, c, bcrypt);
      w2 := ReadyGetsAccepted(w, t, c, ok, bcrypt);
    }
  }

  /** Whatever the state of the family, revoked or not, and whatever continues the run from c on: the exact condition
      under which a token of it is accepted again. Revocation alone does not prevent it: a logout that deletes the
      family between the two reads of a request hides it, unless all its tokens have expired. */
  lemma FamilyAcceptedAgainExactlyWhen(actions: seq<Action>, f: Uuid, c: int, ok: Action -> bool, bcrypt: Bcrypt<Jwt>)
    requires Honest(bcrypt) && IsRun(actions, bcrypt) && Clock(ok, c) && f in End(actions, bcrypt).owners
    ensures var w := End(actions, bcrypt);
            (exists w2 :: Leads(w, w2, ok, bcrypt) && AcceptedFor(w2.accepted, f) != AcceptedFor(w.accepted, f))
            <==> Revivable(w, f, c, bcrypt)
  {
    EndSound(actions, bcrypt);
    EndAgreed(actions, bcrypt);
    var w := End(actions, bcrypt);
    if Revivable(w, f, c, bcrypt) {
      var w2 := RevivableGetsAccepted(w, f, c, ok, bcrypt);
    } else {
      forall w2 | Leads(w, w2, ok, bcrypt) ensures AcceptedFor(w2.accepted, f) == AcceptedFor(w.accepted, f) {
        if Sealed(w, f, c) {
          SealedWhereItLeads(w, w2, f, c, ok, bcrypt);
        } else {
          assert Shut(w, f, c, bcrypt);
          ShutWhereItLeads(w, w2, f, c, ok, bcrypt);
        }
      }
    }
  }
}
