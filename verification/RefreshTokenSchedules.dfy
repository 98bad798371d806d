/**
  Runs in which interleaving breaks a promise: one token accepted twice, a family revived after its logout, a token
  accepted after reuse detection. All of them happen at instant 0, where nothing has expired.
*/
module RefreshTokenSchedules {
  import opened Basics
  import opened RefreshTokens
  import opened RefreshTokenRaces
  import opened RefreshTokenContinuations
  import opened Runs

  /** worlds lists the states that the actions go through, one by one. */
  ghost predicate Trace(worlds: seq<World>, actions: seq<Action>, bcrypt: Bcrypt<Jwt>) {
    && |worlds| == |actions| + 1 && worlds[0] == QUIET
    && forall k :: 0 <= k < |actions| ==>
         Possible(worlds[k], actions[k]) && worlds[k + 1] == Act(worlds[k], actions[k], bcrypt)
  }

  lemma {:induction false} TraceAt(worlds: seq<World>, actions: seq<Action>, k: nat, bcrypt: Bcrypt<Jwt>)
    requires Trace(worlds, actions, bcrypt) && k <= |actions|
    ensures At(actions, k, bcrypt) == worlds[k]
  {
    if k == 0 {
      assert actions[..0] == [];
    } else {
      TraceAt(worlds, actions, k - 1, bcrypt);
      AfterOneMore(Next(bcrypt), QUIET, actions, k - 1);
    }
  }

  lemma TraceIsRun(worlds: seq<World>, actions: seq<Action>, bcrypt: Bcrypt<Jwt>)
    requires Trace(worlds, actions, bcrypt)
    ensures IsRun(actions, bcrypt)
  {
    forall k | 0 <= k < |actions| ensures Legal()(At(actions, k, bcrypt), actions[k]) {
      TraceAt(worlds, actions, k, bcrypt);
    }
  }

  const TICK := Env(0, 10, 10, 0, 0)
  const TOKEN := Jwt(0, 1, 7, 10)

  /** User 1 logs in, and both requests 1 and 2 present the one token and read its row. */
  const TWO_READERS: seq<Action> := [
    StartLogin(0, 1, 7), Advance(0, TICK, 0), Advance(0, TICK, 0),
    StartRefresh(1, TOKEN, 0), StartRefresh(2, TOKEN, 0), Advance(1, TICK, 0), Advance(2, TICK, 0)]

  lemma OneLogin(bcrypt: Bcrypt<Jwt>) returns (w1: World, w2: World, w3: World, row: Row)
    requires Honest(bcrypt)
    ensures w1 == Act(QUIET, TWO_READERS[0], bcrypt) && w2 == Act(w1, TWO_READERS[1], bcrypt)
    ensures w3 == Act(w2, TWO_READERS[2], bcrypt)
    ensures Possible(w1, TWO_READERS[1]) && Possible(w2, TWO_READERS[2])
    ensures row == Row(1, 7, Some(bcrypt.hash(TOKEN, 0)), false, None, 10)
    ensures w3.store == Store(map[0 := row], 1, {TOKEN}) && w3.flights == map[0 := Ended] && w3.accepted == map[]
  {
    w1 := Act(QUIET, TWO_READERS[0], bcrypt);
    w2 := Act(w1, TWO_READERS[1], bcrypt);
    assert w2.flights[0] == Hashing(TOKEN);
    w3 := Act(w2, TWO_READERS[2], bcrypt);
    row := Row(1, 7, Some(bcrypt.hash(TOKEN, 0)), false, None, 10);
  }

  lemma TwoReaders(bcrypt: Bcrypt<Jwt>) returns (worlds: seq<World>, row: Row)
    requires Honest(bcrypt)
    ensures Trace(worlds, TWO_READERS, bcrypt)
    ensures row.familyId == 7 && !row.used && row.revokedAt.None? && row.expiresAt == 10
    ensures var w := worlds[7];
            && w.store == Store(map[0 := row], 1, {TOKEN}) && w.accepted == map[]
            && w.flights == map[0 := Ended, 1 := RowRead(TOKEN, row), 2 := RowRead(TOKEN, row)]
  {
    var w1, w2, w3, first := OneLogin(bcrypt);
    row := first;
    var w4 := Act(w3, TWO_READERS[3], bcrypt);
    assert w4.flights == map[0 := Ended, 1 := Presented(TOKEN)];
    var w5 := Act(w4, TWO_READERS[4], bcrypt);
    assert w5.flights == map[0 := Ended, 1 := Presented(TOKEN), 2 := Presented(TOKEN)];
    assert ReadRow(w5.store, TOKEN, bcrypt) == RowRead(TOKEN, row);
    var w6 := Act(w5, TWO_READERS[5], bcrypt);
    var w7 := Act(w6, TWO_READERS[6], bcrypt);
    worlds := [QUIET, w1, w2, w3, w4, w5, w6, w7];
  }

  /** Two requests that both read the row before either marks it are both accepted with the same token. */
  lemma SameTokenAcceptedTwice(bcrypt: Bcrypt<Jwt>) returns (actions: seq<Action>)
    requires Honest(bcrypt)
    ensures IsRun(actions, bcrypt)
    ensures var w := At(actions, |actions|, bcrypt);
            1 in w.accepted && 2 in w.accepted && w.accepted[1] == w.accepted[2] == TOKEN
  {
    var worlds, row := TwoReaders(bcrypt);
    var w7 := worlds[7];
    var rest := [Advance(1, TICK, 0), Advance(2, TICK, 0), Advance(1, TICK, 0), Advance(2, TICK, 0)];
    assert 0 in FamilyIds(w7.store, 7);
    var w8 := Act(w7, rest[0], bcrypt);
    assert w8.flights[1] == Marking(TOKEN) && w8.flights[2] == RowRead(TOKEN, row);
    var w9 := Act(w8, rest[1], bcrypt);
    assert w9.flights[1] == w9.flights[2] == Marking(TOKEN);
    var w10 := Act(w9, rest[2], bcrypt);
    var w11 := Act(w10, rest[3], bcrypt);
    actions := TWO_READERS + rest;
    var all := worlds + [w8, w9, w10, w11];
    assert Trace(all, actions, bcrypt);
    TraceIsRun(all, actions, bcrypt);
    TraceAt(all, actions, |actions|, bcrypt);
  }

  const OVERTAKING: seq<Action> := [
    StartLogout(3, TOKEN, 0), Advance(3, TICK, 0), Advance(1, TICK, 0), Advance(1, TICK, 0), Advance(1, TICK, 0)]

  lemma Overtaken(w7: World, row: Row, bcrypt: Bcrypt<Jwt>)
    returns (w8: World, w9: World, w10: World, w11: World, w12: World)
    requires w7.store == Store(map[0 := row], 1, {TOKEN}) && w7.accepted == map[]
    requires w7.flights == map[0 := Ended, 1 := RowRead(TOKEN, row), 2 := RowRead(TOKEN, row)]
    requires row.familyId == 7 && !row.used && row.revokedAt.None? && row.expiresAt == 10
    ensures w8 == Act(w7, OVERTAKING[0], bcrypt) && w9 == Act(w8, OVERTAKING[1], bcrypt)
    ensures w10 == Act(w9, OVERTAKING[2], bcrypt) && w11 == Act(w10, OVERTAKING[3], bcrypt)
    ensures w12 == Act(w11, OVERTAKING[4], bcrypt)
    ensures Possible(w7, OVERTAKING[0]) && Possible(w8, OVERTAKING[1]) && Possible(w9, OVERTAKING[2])
    ensures Possible(w10, OVERTAKING[3]) && Possible(w11, OVERTAKING[4])
    ensures w9.store.rows == map[] && 3 in w9.flights && w9.flights[3] == Ended
    ensures 1 in w12.accepted && w12.store.rows == map[1 := Row(1, 7, None, false, None, 10)]
  {
    w8 := Act(w7, OVERTAKING[0], bcrypt);
    assert w8.flights[3] == Deleting(7);
    w9 := Act(w8, OVERTAKING[1], bcrypt);
    assert FamilyIds(w9.store, 7) == {};
    w10 := Act(w9, OVERTAKING[2], bcrypt);
    assert w10.flights[1] == Marking(TOKEN);
    w11 := Act(w10, OVERTAKING[3], bcrypt);
    assert w11.flights[1] == Reserving(1, 7);
    w12 := Act(w11, OVERTAKING[4], bcrypt);
  }

  lemma OvertakenTrace(bcrypt: Bcrypt<Jwt>) returns (worlds: seq<World>)
    requires Honest(bcrypt)
    ensures Trace(worlds, TWO_READERS + OVERTAKING, bcrypt)
    ensures var w := worlds[9]; w.store.rows == map[] && 3 in w.flights && w.flights[3] == Ended
    ensures var w := worlds[12]; 1 in w.accepted && w.store.rows == map[1 := Row(1, 7, None, false, None, 10)]
  {
    var before, row := TwoReaders(bcrypt);
    var w8, w9, w10, w11, w12 := Overtaken(before[7], row, bcrypt);
    worlds := before + [w8, w9, w10, w11, w12];
  }

  /** A logout that completes while a request holds the row it read does not end the family: that request is
      accepted afterwards and gives the family a live row again. This is what Gone excludes. */
  lemma LogoutOvertaken(bcrypt: Bcrypt<Jwt>) returns (actions: seq<Action>, k: nat)
    requires Honest(bcrypt)
    ensures IsRun(actions, bcrypt) && k < |actions|
    ensures var w := At(actions, k, bcrypt); w.store.rows == map[] && 3 in w.flights && w.flights[3] == Ended
    ensures var w := At(actions, |actions|, bcrypt);
            && 1 in w.accepted && 1 in w.store.rows
            && w.store.rows[1].familyId == TOKEN.familyId && !w.store.rows[1].used && w.store.rows[1].revokedAt.None?
  {
    actions, k := TWO_READERS + OVERTAKING, 9;
    var worlds := OvertakenTrace(bcrypt);
    TraceIsRun(worlds, actions, bcrypt);
    TraceAt(worlds, actions, k, bcrypt);
    TraceAt(worlds, actions, |actions|, bcrypt);
  }

  const LOGGED_IN: seq<Action> := [StartLogin(0, 1, 7), Advance(0, TICK, 0), Advance(0, TICK, 0)]

  /** Request 1 is accepted with the token, and is about to insert. */
  const ACCEPTED: seq<Action> := [
    StartRefresh(1, TOKEN, 0), Advance(1, TICK, 0), Advance(1, TICK, 0), Advance(1, TICK, 0)]

  /** Request 2 presents the token again, finds it used and revokes the family. */
  const CAUGHT: seq<Action> := [
    StartRefresh(2, TOKEN, 0), Advance(2, TICK, 0), Advance(2, TICK, 0), Advance(2, TICK, 0)]

  const REUSE: seq<Action> := LOGGED_IN + ACCEPTED + CAUGHT

  lemma TwoSteps(w: World, a: Action, b: Action, bcrypt: Bcrypt<Jwt>)
    requires Possible(w, a) && Possible(Act(w, a, bcrypt), b)
    ensures LegalRun(Next(bcrypt), Legal(), w, [a, b])
    ensures After(Next(bcrypt), w, [a, b]) == Act(Act(w, a, bcrypt), b, bcrypt)
  {
    OneMoreLegal(Next(bcrypt), Legal(), w, [], a);
    assert [] + [a] == [a];
    OneMoreLegal(Next(bcrypt), Legal(), w, [a], b);
    assert [a] + [b] == [a, b];
  }

  lemma FourSteps(w: World, a: Action, b: Action, c: Action, d: Action, bcrypt: Bcrypt<Jwt>)
    requires Possible(w, a)
    requires var w1 := Act(w, a, bcrypt);
             && Possible(w1, b)
             && var w2 := Act(w1, b, bcrypt); Possible(w2, c) && Possible(Act(w2, c, bcrypt), d)
    ensures LegalRun(Next(bcrypt), Legal(), w, [a, b, c, d])
    ensures After(Next(bcrypt), w, [a, b, c, d]) == Act(Act(Act(Act(w, a, bcrypt), b, bcrypt), c, bcrypt), d, bcrypt)
  {
    TwoSteps(w, a, b, bcrypt);
    TwoSteps(Act(Act(w, a, bcrypt), b, bcrypt), c, d, bcrypt);
    RunsCompose(Next(bcrypt), Legal(), w, [a, b], [c, d]);
    assert [a, b] + [c, d] == [a, b, c, d];
  }

  lemma LoggedIn(bcrypt: Bcrypt<Jwt>) returns (w3: World, row: Row)
    requires Honest(bcrypt)
    ensures LegalRun(Next(bcrypt), Legal(), QUIET, LOGGED_IN) && After(Next(bcrypt), QUIET, LOGGED_IN) == w3
    ensures row == Row(1, 7, Some(bcrypt.hash(TOKEN, 0)), false, None, 10)
    ensures w3.store == Store(map[0 := row], 1, {TOKEN}) && w3.flights == map[0 := Ended] && w3.accepted == map[]
  {
    var w1, w2;
    w1, w2, w3, row := OneLogin(bcrypt);
    var worlds := [QUIET, w1, w2, w3];
    assert Trace(worlds, LOGGED_IN, bcrypt);
    TraceIsRun(worlds, LOGGED_IN, bcrypt);
    TraceAt(worlds, LOGGED_IN, 3, bcrypt);
    assert LOGGED_IN[..3] == LOGGED_IN;
  }

  lemma AcceptedOnce(w3: World, row: Row, bcrypt: Bcrypt<Jwt>) returns (w7: World)
    requires Honest(bcrypt) && row == Row(1, 7, Some(bcrypt.hash(TOKEN, 0)), false, None, 10)
    requires w3.store == Store(map[0 := row], 1, {TOKEN}) && w3.flights == map[0 := Ended] && w3.accepted == map[]
    ensures LegalRun(Next(bcrypt), Legal(), w3, ACCEPTED) && After(Next(bcrypt), w3, ACCEPTED) == w7
    ensures w7.store == Store(map[0 := row.(used := true)], 1, {TOKEN})
    ensures w7.flights == map[0 := Ended, 1 := Reserving(1, 7)]
  {
    var w4 := Act(w3, ACCEPTED[0], bcrypt);
    assert w4.flights == map[0 := Ended, 1 := Presented(TOKEN)];
    var w5 := Act(w4, ACCEPTED[1], bcrypt);
    assert w5.flights[1] == RowRead(TOKEN, row);
    assert 0 in FamilyIds(w5.store, 7);
    var w6 := Act(w5, ACCEPTED[2], bcrypt);
    assert w6.flights[1] == Marking(TOKEN);
    w7 := Act(w6, ACCEPTED[3], bcrypt);
    FourSteps(w3, ACCEPTED[0], ACCEPTED[1], ACCEPTED[2], ACCEPTED[3], bcrypt);
  }

  lemma CaughtOnce(w7: World, row: Row, bcrypt: Bcrypt<Jwt>) returns (w11: World)
    requires Honest(bcrypt) && row == Row(1, 7, Some(bcrypt.hash(TOKEN, 0)), true, None, 10)
    requires w7.store == Store(map[0 := row], 1, {TOKEN}) && w7.flights == map[0 := Ended, 1 := Reserving(1, 7)]
    ensures LegalRun(Next(bcrypt), Legal(), w7, CAUGHT) && After(Next(bcrypt), w7, CAUGHT) == w11
    ensures RowsBarred(w11.store, 7)
    ensures w11.flights == map[0 := Ended, 1 := Reserving(1, 7), 2 := Ended]
  {
    var w8 := Act(w7, CAUGHT[0], bcrypt);
    assert w8.flights == map[0 := Ended, 1 := Reserving(1, 7), 2 := Presented(TOKEN)];
    var w9 := Act(w8, CAUGHT[1], bcrypt);
    assert w9.flights[2] == RowRead(TOKEN, row);
    assert 0 in FamilyIds(w9.store, 7);
    var w10 := Act(w9, CAUGHT[2], bcrypt);
    assert w10.flights[2] == Revoking(7);
    w11 := Act(w10, CAUGHT[3], bcrypt);
    FourSteps(w7, CAUGHT[0], CAUGHT[1], CAUGHT[2], CAUGHT[3], bcrypt);
    assert w11.store.rows[0].familyId == 7;
  }

  lemma Reuse(bcrypt: Bcrypt<Jwt>)
    requires Honest(bcrypt)
    ensures IsRun(REUSE, bcrypt)
    ensures var w := End(REUSE, bcrypt);
            RowsBarred(w.store, 7) && w.flights == map[0 := Ended, 1 := Reserving(1, 7), 2 := Ended]
  {
    var w3, row := LoggedIn(bcrypt);
    var w7 := AcceptedOnce(w3, row, bcrypt);
    var w11 := CaughtOnce(w7, row.(used := true), bcrypt);
    RunsCompose(Next(bcrypt), Legal(), QUIET, LOGGED_IN, ACCEPTED);
    RunsCompose(Next(bcrypt), Legal(), QUIET, LOGGED_IN + ACCEPTED, CAUGHT);
  }

  /** Reuse detection does not end a family either: after the revocation the request that was past its checks inserts
      an unrevoked row, and its token is accepted. Nobody logs out. */
  lemma ReuseOvertaken(bcrypt: Bcrypt<Jwt>) returns (more: seq<Action>)
    requires Honest(bcrypt)
    ensures IsRun(REUSE + more, bcrypt)
    ensures forall k :: 0 <= k < |more| ==> Happens(more[k], 0) && !more[k].StartLogout?
    ensures var caught, w := End(REUSE, bcrypt), End(REUSE + more, bcrypt);
            && RowsBarred(caught.store, 7) && 2 in caught.flights && caught.flights[2] == Ended
            && AcceptedFor(caught.accepted, 7) < AcceptedFor(w.accepted, 7)
  {
    Reuse(bcrypt);
    EndSound(REUSE, bcrypt);
    var noLogout := (a: Action) => Happens(a, 0) && !a.StartLogout?;
    var caught := End(REUSE, bcrypt);
    var w := ReservingRevives(caught, 1, 0, noLogout, bcrypt);
    AcceptedOnlyGrows(caught, w, 7, noLogout, bcrypt);
    more := LeadsToRun(REUSE, w, noLogout, bcrypt);
  }
}
