/**
  Where a run of single queries can go from a state. A continuation is restricted by ok, which says what may happen:
  anything from an instant on, say, or nothing but one request. Time is part of every action that reads the clock, and
  what can be done from an instant c on is stated for every ok that admits all that happens at c and nothing before c.
  A clock that does not run back gives continuations between the two extremes, OnlyAt(c) and From(c).
*/
module RefreshTokenContinuations {
  import opened Basics
  import opened RefreshTokens
  import opened RefreshTokenRaces
  import opened Runs

  ghost function Allowed(ok: Action -> bool): (World, Action) -> bool {
    (w: World, a: Action) => Possible(w, a) && ok(a)
  }

  /** Some schedule of actions that ok allows leads from w to w2. */
  ghost predicate Leads(w: World, w2: World, ok: Action -> bool, bcrypt: Bcrypt<Jwt>) {
    exists more: seq<Action> ::
      LegalRun(Next(bcrypt), Allowed(ok), w, more) && After(Next(bcrypt), w, more) == w2
  }

  /** The state at the end of a run. */
  function End(actions: seq<Action>, bcrypt: Bcrypt<Jwt>): World {
    After(Next(bcrypt), QUIET, actions)
  }

  lemma EndSound(actions: seq<Action>, bcrypt: Bcrypt<Jwt>)
    requires IsRun(actions, bcrypt)
    ensures Sound(End(actions, bcrypt))
  {
    assert actions[..|actions|] == actions;
    ReachableSound(actions, |actions|, bcrypt);
  }

  /** What a run leads to is the end of a longer run. */
  lemma LeadsToRun(actions: seq<Action>, w2: World, ok: Action -> bool, bcrypt: Bcrypt<Jwt>) returns (more: seq<Action>)
    requires IsRun(actions, bcrypt) && Leads(End(actions, bcrypt), w2, ok, bcrypt)
    ensures IsRun(actions + more, bcrypt) && End(actions + more, bcrypt) == w2
    ensures forall k :: 0 <= k < |more| ==> ok(more[k])
  {
    var w := End(actions, bcrypt);
    more :| LegalRun(Next(bcrypt), Allowed(ok), w, more) && After(Next(bcrypt), w, more) == w2;
    forall k | 0 <= k < |more| ensures Legal()(After(Next(bcrypt), w, more[..k]), more[k]) && ok(more[k]) {
      assert Allowed(ok)(After(Next(bcrypt), w, more[..k]), more[k]);
    }
    RunsCompose(Next(bcrypt), Legal(), QUIET, actions, more);
  }

  lemma LeadsNowhere(w: World, ok: Action -> bool, bcrypt: Bcrypt<Jwt>)
    ensures Leads(w, w, ok, bcrypt)
  {
    assert LegalRun(Next(bcrypt), Allowed(ok), w, []);
    assert After(Next(bcrypt), w, []) == w;
  }

  lemma LeadsOn(w: World, w2: World, a: Action, ok: Action -> bool, bcrypt: Bcrypt<Jwt>)
    requires Leads(w, w2, ok, bcrypt) && Possible(w2, a) && ok(a)
    ensures Leads(w, Act(w2, a, bcrypt), ok, bcrypt)
  {
    var more: seq<Action> :| LegalRun(Next(bcrypt), Allowed(ok), w, more) && After(Next(bcrypt), w, more) == w2;
    OneMoreLegal(Next(bcrypt), Allowed(ok), w, more, a);
    assert After(Next(bcrypt), w, more + [a]) == Act(w2, a, bcrypt);
  }

  lemma LeadsFurther(w: World, w2: World, w3: World, ok: Action -> bool, bcrypt: Bcrypt<Jwt>)
    requires Leads(w, w2, ok, bcrypt) && Leads(w2, w3, ok, bcrypt)
    ensures Leads(w, w3, ok, bcrypt)
  {
    var more: seq<Action> :| LegalRun(Next(bcrypt), Allowed(ok), w, more) && After(Next(bcrypt), w, more) == w2;
    var rest: seq<Action> :| LegalRun(Next(bcrypt), Allowed(ok), w2, rest) && After(Next(bcrypt), w2, rest) == w3;
    RunsCompose(Next(bcrypt), Allowed(ok), w, more, rest);
  }

  /** What every allowed step keeps holds wherever the schedule leads. */
  lemma KeptWhereItLeads(w: World, w2: World, ok: Action -> bool, fact: World -> bool, bcrypt: Bcrypt<Jwt>)
    requires Sound(w) && fact(w) && Leads(w, w2, ok, bcrypt)
    requires KeepsUnder(Next(bcrypt), Allowed(ok), SoundOf(), fact)
    ensures Sound(w2) && fact(w2)
  {
    var more: seq<Action> :| LegalRun(Next(bcrypt), Allowed(ok), w, more) && After(Next(bcrypt), w, more) == w2;
    SoundKept(bcrypt);
    forall v: World, a: Action | SoundOf()(v) && Allowed(ok)(v, a) ensures SoundOf()(Next(bcrypt)(v, a)) {
      assert Legal()(v, a);
    }
    assert more[..0] == [];
    InvariantAlong(Next(bcrypt), Allowed(ok), SoundOf(), w, more);
    OnceTrueStaysTrue(Next(bcrypt), Allowed(ok), SoundOf(), fact, w, more, 0);
  }

  lemma StaysSound(w: World, w2: World, ok: Action -> bool, bcrypt: Bcrypt<Jwt>)
    requires Sound(w) && Leads(w, w2, ok, bcrypt)
    ensures Sound(w2)
  {
    KeptWhereItLeads(w, w2, ok, (v: World) => true, bcrypt);
  }

  lemma NumberAbove(s: set<nat>) returns (n: nat)
    ensures forall i :: i in s ==> i < n
    decreases |s|
  {
    n := 0;
    if s != {} {
      var i :| i in s;
      n := NumberAbove(s - {i});
      n := if i < n then n else i + 1;
      forall j | j in s ensures j < n {
        assert j == i || j in s - {i};
      }
    }
  }

  lemma FreeFlight(w: World) returns (i: nat)
    ensures i !in w.flights
  {
    i := NumberAbove(w.flights.Keys);
  }

  // ---------------------------------------------------------------- time

  predicate NoEarlier(a: Action, c: int) {
    match a
    case StartLogin(_, _, _) => true
    case StartRefresh(_, _, now) => c <= now
    case StartLogout(_, _, now) => c <= now
    case Advance(_, env, _) => c <= env.now
    case Drop(_) => true
  }

  predicate Happens(a: Action, c: int) {
    match a
    case StartLogin(_, _, _) => true
    case StartRefresh(_, _, now) => now == c
    case StartLogout(_, _, now) => now == c
    case Advance(_, env, _) => env.now == c
    case Drop(_) => true
  }

  function OnlyAt(c: int): Action -> bool {
    (a: Action) => Happens(a, c)
  }

  function From(c: int): Action -> bool {
    (a: Action) => NoEarlier(a, c)
  }

  /** Everything at c but logouts is admitted. */
  ghost predicate Admits(ok: Action -> bool, c: int) {
    forall a: Action :: Happens(a, c) && !a.StartLogout? ==> ok(a)
  }

  /** Everything at c is admitted, and nothing before c. */
  ghost predicate Clock(ok: Action -> bool, c: int) {
    && (forall a: Action :: Happens(a, c) ==> ok(a))
    && (forall a: Action :: ok(a) ==> NoEarlier(a, c))
  }

  lemma Clocks(c: int)
    ensures Clock(OnlyAt(c), c) && Clock(From(c), c)
  {
  }

  /** A query at c; what it inserts is signed and kept just long enough to be presented at c. */
  function Moment(c: int): Env {
    Env(c, c, c / 1000 + 1, 0, 0)
  }

  // ---------------------------------------------------------------- acceptances

  function AcceptedWith(accepted: map<nat, Jwt>, t: Jwt): set<nat> {
    set i | i in accepted && accepted[i] == t
  }

  /** The step marks the row of a token of f. */
  predicate Marks(w: World, a: Action, f: Uuid) {
    a.Advance? && a.flight in w.flights && w.flights[a.flight].Marking? && w.flights[a.flight].t.familyId == f
  }

  lemma AcceptedStep(w: World, a: Action, f: Uuid, bcrypt: Bcrypt<Jwt>)
    requires AcceptedFlew(w) && Possible(w, a)
    ensures AcceptedFor(w.accepted, f) <= AcceptedFor(Act(w, a, bcrypt).accepted, f)
    ensures !Marks(w, a, f) ==> AcceptedFor(Act(w, a, bcrypt).accepted, f) == AcceptedFor(w.accepted, f)
  {
  }

  lemma AcceptedWithStep(w: World, a: Action, t: Jwt, bcrypt: Bcrypt<Jwt>)
    requires AcceptedFlew(w) && Possible(w, a)
    requires !(a.Advance? && w.flights[a.flight] == Marking(t))
    ensures AcceptedWith(Act(w, a, bcrypt).accepted, t) == AcceptedWith(w.accepted, t)
  {
  }

  lemma AcceptedOnlyGrows(w: World, w2: World, f: Uuid, ok: Action -> bool, bcrypt: Bcrypt<Jwt>)
    requires Sound(w) && Leads(w, w2, ok, bcrypt)
    ensures AcceptedFor(w.accepted, f) <= AcceptedFor(w2.accepted, f)
  {
    var before := AcceptedFor(w.accepted, f);
    var fact := (v: World) => before <= AcceptedFor(v.accepted, f);
    forall v: World, a: Action | SoundOf()(v) && fact(v) && Allowed(ok)(v, a) ensures fact(Next(bcrypt)(v, a)) {
      AcceptedStep(v, a, f, bcrypt);
    }
    KeptWhereItLeads(w, w2, ok, fact, bcrypt);
  }

  // ---------------------------------------------------------------- what a request in flight can still do

  /** A request about to mark is accepted by its next query, whatever the time. */
  lemma MarkingIsAccepted(w: World, i: nat, c: int, ok: Action -> bool, bcrypt: Bcrypt<Jwt>) returns (w2: World)
    requires AcceptedFlew(w) && Admits(ok, c) && i in w.flights && w.flights[i].Marking?
    ensures Leads(w, w2, ok, bcrypt)
    ensures var t := w.flights[i].t;
            && w2.accepted == w.accepted[i := t] && i !in w.accepted
            && w2.flights == w.flights[i := Reserving(t.userId, t.familyId)]
  {
    var a := Advance(i, Moment(c), 0);
    LeadsNowhere(w, ok, bcrypt);
    w2 := Act(w, a, bcrypt);
    LeadsOn(w, w, a, ok, bcrypt);
  }

  /** The query that gives the family a row. */
  lemma ReservingInserts(w: World, i: nat, c: int, ok: Action -> bool, bcrypt: Bcrypt<Jwt>) returns (w2: World, u: Jwt)
    requires Sound(w) && Admits(ok, c) && i in w.flights && w.flights[i].Reserving?
    ensures Leads(w, w2, ok, bcrypt) && w2.accepted == w.accepted
    ensures u == Jwt(w.store.nextId, w.flights[i].userId, w.flights[i].familyId, c / 1000 + 1) && u in w2.store.issued
    ensures u.id in w2.store.rows && w2.store.rows[u.id] == Row(u.userId, u.familyId, None, false, None, c)
    ensures w2.flights == w.flights[i := Hashing(u)]
  {
    var a := Advance(i, Moment(c), 0);
    LeadsNowhere(w, ok, bcrypt);
    LeadsOn(w, w, a, ok, bcrypt);
    w2 := Act(w, a, bcrypt);
    u := Jwt(w.store.nextId, w.flights[i].userId, w.flights[i].familyId, c / 1000 + 1);
  }

  lemma HashingMatches(w: World, i: nat, c: int, ok: Action -> bool, bcrypt: Bcrypt<Jwt>) returns (w2: World)
    requires Admits(ok, c) && i in w.flights && w.flights[i].Hashing?
    ensures Leads(w, w2, ok, bcrypt) && w2.accepted == w.accepted && w2.flights == w.flights[i := Ended]
    ensures w2.store == SetHash(w.store, w.flights[i].t.id, bcrypt.hash(w.flights[i].t, 0)) && w2.owners == w.owners
  {
    var a := Advance(i, Moment(c), 0);
    LeadsNowhere(w, ok, bcrypt);
    LeadsOn(w, w, a, ok, bcrypt);
    w2 := Act(w, a, bcrypt);
  }

  /** A reader in time gets past its checks if the row it looks at is not revoked, or there is none. */
  lemma ReaderPasses(w: World, i: nat, looked: nat, c: int, ok: Action -> bool, bcrypt: Bcrypt<Jwt>) returns (w2: World)
    requires Admits(ok, c) && i in w.flights && w.flights[i].RowRead?
    requires !w.flights[i].row.used && c <= w.flights[i].row.expiresAt
    requires var ids := FamilyIds(w.store, w.flights[i].t.familyId);
             ids == {} || (looked in ids && w.store.rows[looked].revokedAt.None?)
    ensures Leads(w, w2, ok, bcrypt)
    ensures w2 == Put(w, i, Marking(w.flights[i].t))
  {
    var a := Advance(i, Moment(c), looked);
    LeadsNowhere(w, ok, bcrypt);
    LeadsOn(w, w, a, ok, bcrypt);
    w2 := Act(w, a, bcrypt);
  }

  lemma DeletingEmpties(w: World, m: nat, c: int, ok: Action -> bool, bcrypt: Bcrypt<Jwt>) returns (w2: World)
    requires Admits(ok, c) && m in w.flights && w.flights[m].Deleting?
    ensures Leads(w, w2, ok, bcrypt) && w2.accepted == w.accepted && w2.flights == w.flights[m := Ended]
    ensures FamilyIds(w2.store, w.flights[m].familyId) == {}
  {
    var a, f := Advance(m, Moment(c), 0), w.flights[m].familyId;
    LeadsNowhere(w, ok, bcrypt);
    LeadsOn(w, w, a, ok, bcrypt);
    w2 := Put(w, m, Ended).(store := DeleteFamily(w.store, f));
    assert w2 == Act(w, a, bcrypt);
    DeletedIsEmpty(w.store, f);
  }

  lemma DeletedIsEmpty(s: Store, f: Uuid)
    ensures FamilyIds(DeleteFamily(s, f), f) == {}
  {
  }

  /** The two steps of a logout. */
  lemma LogoutEmpties(w: World, t: Jwt, c: int, ok: Action -> bool, bcrypt: Bcrypt<Jwt>) returns (w2: World)
    requires Clock(ok, c) && Verifies(w.store, t, c)
    ensures Leads(w, w2, ok, bcrypt) && w2.accepted == w.accepted && FamilyIds(w2.store, t.familyId) == {}
    ensures forall i :: i in w.flights ==> i in w2.flights && w2.flights[i] == w.flights[i]
  {
    var m := FreeFlight(w);
    LeadsNowhere(w, ok, bcrypt);
    LeadsOn(w, w, StartLogout(m, t, c), ok, bcrypt);
    var w1 := Put(w, m, Deleting(t.familyId));
    assert w1 == Act(w, StartLogout(m, t, c), bcrypt);
    w2 := DeletingEmpties(w1, m, c, ok, bcrypt);
    LeadsFurther(w, w1, w2, ok, bcrypt);
  }

  lemma PresentedReads(w: World, m: nat, c: int, ok: Action -> bool, bcrypt: Bcrypt<Jwt>) returns (w2: World)
    requires Admits(ok, c) && m in w.flights && w.flights[m].Presented?
    ensures Leads(w, w2, ok, bcrypt) && w2 == Put(w, m, ReadRow(w.store, w.flights[m].t, bcrypt))
  {
    var a := Advance(m, Moment(c), 0);
    LeadsNowhere(w, ok, bcrypt);
    LeadsOn(w, w, a, ok, bcrypt);
    w2 := Act(w, a, bcrypt);
  }

  /** A token that verifies at c can be presented then. */
  lemma PresentsAt(w: World, t: Jwt, c: int, ok: Action -> bool, bcrypt: Bcrypt<Jwt>) returns (w2: World, m: nat)
    requires Admits(ok, c) && Verifies(w.store, t, c)
    ensures Leads(w, w2, ok, bcrypt) && m !in w.flights && w2 == Put(w, m, Presented(t))
  {
    m := FreeFlight(w);
    LeadsNowhere(w, ok, bcrypt);
    LeadsOn(w, w, StartRefresh(m, t, c), ok, bcrypt);
    w2 := Act(w, StartRefresh(m, t, c), bcrypt);
  }

  /** A request about to insert gives the family a token that is accepted in turn, at the same instant. */
  lemma ReservingRevives(w: World, i: nat, c: int, ok: Action -> bool, bcrypt: Bcrypt<Jwt>) returns (w2: World)
    requires Honest(bcrypt) && Sound(w) && Admits(ok, c) && i in w.flights && w.flights[i].Reserving?
    ensures Leads(w, w2, ok, bcrypt)
    ensures AcceptedFor(w2.accepted, w.flights[i].familyId) != AcceptedFor(w.accepted, w.flights[i].familyId)
  {
    var inserted, u := ReservingInserts(w, i, c, ok, bcrypt);
    var hashed := HashingMatches(inserted, i, c, ok, bcrypt);
    LeadsFurther(w, inserted, hashed, ok, bcrypt);
    var past, m := FreshTokenPasses(hashed, u, c, ok, bcrypt);
    LeadsFurther(w, hashed, past, ok, bcrypt);
    StaysSound(w, past, ok, bcrypt);
    w2 := MarkingIsAccepted(past, m, c, ok, bcrypt);
    LeadsFurther(w, past, w2, ok, bcrypt);
    assert m in AcceptedFor(w2.accepted, u.familyId) && m !in AcceptedFor(w.accepted, u.familyId);
  }

  lemma FreshTokenPasses(w: World, u: Jwt, c: int, ok: Action -> bool, bcrypt: Bcrypt<Jwt>) returns (w2: World, m: nat)
    requires Honest(bcrypt) && Admits(ok, c) && Verifies(w.store, u, c) && u.id in w.store.rows
    requires w.store.rows[u.id] == Row(u.userId, u.familyId, Some(bcrypt.hash(u, 0)), false, None, c)
    ensures Leads(w, w2, ok, bcrypt) && w2.accepted == w.accepted
    ensures m in w2.flights && w2.flights[m] == Marking(u)
  {
    var presented;
    presented, m := PresentsAt(w, u, c, ok, bcrypt);
    var read := PresentedReads(presented, m, c, ok, bcrypt);
    assert read.flights[m] == RowRead(u, w.store.rows[u.id]);
    assert u.id in FamilyIds(read.store, u.familyId);
    w2 := ReaderPasses(read, m, u.id, c, ok, bcrypt);
    LeadsFurther(w, presented, read, ok, bcrypt);
    LeadsFurther(w, read, w2, ok, bcrypt);
  }
}
