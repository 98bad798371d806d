/**
  What each request on invitations answers and leaves in the tables, row by row, and how long an invitation can be
  accepted: exactly until one of the two expiry instants it was given has passed.
*/
module InvitationOutcomes {
  import opened Basics
  import opened Transactions
  import opened Invitations
  import opened InvitationRuns
  import opened Runs
  import Schema
  import Members
  import MemberRuns

  /** The first n queries of a request do not fail. */
  ghost predicate FirstWork(fails: nat -> bool, n: nat) {
    forall k: nat :: k < n ==> !fails(k)
  }

  /** An owner or admin invites an email that has no invitation anywhere yet. */
  ghost predicate MayInvite(k: Desk, user: int, ws: nat, email: string, tokenHash: string) {
    && (ws, user) in k.dir.members && k.dir.members[(ws, user)] in {Schema.Owner, Schema.Admin}
    && (forall id :: id in k.invites ==> k.invites[id].email != email && k.invites[id].tokenHash != tokenHash)
  }

  /** Guard, check, insert, context and mail queue are five queries. Once the first three have passed the row is there,
      pending, with the instant of the request and the expiry computed for it, and its token is on its way; the answer
      is a success only if the other two pass as well. In every other case nothing has changed. */
  lemma InvitationServed(k: Desk, user: int, ws: nat, email: string, setup: Setup, env: Env, fails: nat -> bool)
    requires MemberRuns.WellFormed(k.dir)
    ensures var (k2, r) := Serve(k, Invited(user, ws, email), setup, env, fails);
            var t := Token(email, ws, env.exp);
            var tokenHash := setup.bcrypt.hash(t, env.salt);
            && (r.Success? <==> FirstWork(fails, 5) && MayInvite(k, user, ws, email, tokenHash))
            && (FirstWork(fails, 5) && r.Failure? ==>
                  r.error == if (ws, user) !in k.dir.members || k.dir.members[(ws, user)] == Schema.Member
                             then Forbidden
                             else if exists id :: id in k.invites && k.invites[id].email == email then Conflict
                             else QueryFailed)
            && k2 == if FirstWork(fails, 3) && MayInvite(k, user, ws, email, tokenHash)
                     then k.(invites := k.invites[k.nextInvite :=
                               Invite(ws, email, tokenHash, Pending, env.now, env.expiresAt)],
                             nextInvite := k.nextInvite + 1, issued := k.issued + {t})
                     else k
  {
    FiveQueries(fails);
    var tokenHash := setup.bcrypt.hash(Token(email, ws, env.exp), env.salt);
    var row := Invite(ws, email, tokenHash, Pending, env.now, env.expiresAt);
    StoringSucceeds(k, row, email);
  }

  lemma FiveQueries(fails: nat -> bool)
    ensures FirstWork(fails, 3) <==> !fails(0) && !fails(1) && !fails(2)
    ensures FirstWork(fails, 5) <==> FirstWork(fails, 3) && !fails(3) && !fails(4)
  {
  }

  lemma StoringSucceeds(k: Desk, row: Invite, email: string)
    requires row.email == email
    ensures !ExistInvitation(k, email) ==>
              (StoreInvitation(k, row).Success? <==>
                 row.workspaceId in k.dir.workspaces
                 && forall id :: id in k.invites ==> k.invites[id].tokenHash != row.tokenHash)
    ensures !ExistInvitation(k, email) <==> forall id :: id in k.invites ==> k.invites[id].email != email
  {
    if !ExistInvitation(k, email) {
      assert PendingIds(k, row.email, row.workspaceId) == {};
    }
  }

  /** An acceptance that succeeds: the user is a member, the row of the token is accepted, and that is all. */
  lemma AcceptanceServed(w: World, t: Token, user: int, env: Env, fails: nat -> bool, setup: Setup)
    requires Sound(w) && Fair(setup) && Serve(w.desk, Accept(t, user), setup, env, fails).1.Success?
    ensures var k2 := Serve(w.desk, Accept(t, user), setup, env, fails).0;
            exists id ::
              && id in w.desk.invites && id in w.born && w.born[id] == t && w.desk.invites[id].status == Pending
              && (t.workspaceId, user) !in w.desk.dir.members
              && k2.dir == w.desk.dir.(members := w.desk.dir.members[(t.workspaceId, user) := Schema.Member])
              && k2.invites == w.desk.invites[id := w.desk.invites[id].(status := Accepted)]
              && k2.nextInvite == w.desk.nextInvite && k2.issued == w.desk.issued
  {
    var r := VerifyToken(w.desk, t, setup.bcrypt, setup.first, env.now, fails, 0);
    OwnRow(w, t, setup, env.now, fails, 0);
    AcceptOutcome(w.desk, r.value, t.workspaceId, user, fails, 1);
    assert r.value in w.desk.invites;
  }

  /** Which error a refused token gets, on any tables: not genuine or expired; nameless; without a pending row; not the
      token of the hash that is found; with an expired row. */
  lemma TokenRefused(k: Desk, t: Token, setup: Setup, now: int, fails: nat -> bool, n: nat)
    requires Fair(setup) && !fails(n)
    ensures var r := VerifyToken(k, t, setup.bcrypt, setup.first, now, fails, n);
            var named := t.email != "" && t.workspaceId != 0;
            var pending := set id | id in k.invites && k.invites[id].email == t.email
                                    && k.invites[id].workspaceId == t.workspaceId && k.invites[id].status == Pending;
            && (t !in k.issued || now / 1000 >= t.exp ==> r == Failure(Unauthorized))
            && (t in k.issued && now / 1000 < t.exp && (!named || pending == {}) ==> r == Failure(NotFound))
            && (r.Success? ==>
                  && t in k.issued && now / 1000 < t.exp && named && r.value in k.invites
                  && setup.bcrypt.compare(t, k.invites[r.value].tokenHash) && now <= k.invites[r.value].expiresAt)
  {
  }

  /** The insert goes through the pool: it is committed although the transaction is not, exactly when it succeeded and
      only the update of the status or the COMMIT fails. */
  lemma MembershipAloneExactlyWhen(k: Desk, id: nat, ws: nat, user: int, fails: nat -> bool, n: nat)
    requires id in k.invites && k.invites[id].status == Pending
    ensures var k2 := Transaction(k, AcceptWork(id, ws, user), (), fails, n).committed;
            k2 == k.(dir := k.dir.(members := k.dir.members[(ws, user) := Schema.Member]))
            && (ws, user) !in k.dir.members
            <==>
            && ws in k.dir.workspaces && (ws, user) !in k.dir.members
            && !fails(n) && !fails(n + 1) && !fails(n + 2) && (fails(n + 3) || fails(n + 4))
  {
    AcceptCutOff(k, id, ws, user, fails, n);
    if (ws, user) !in k.dir.members {
      assert (ws, user) in k.dir.members[(ws, user) := Schema.Member];
    }
  }

  /** Where an acceptance is cut off decides what is committed. */
  lemma AcceptCutOff(k: Desk, id: nat, ws: nat, user: int, fails: nat -> bool, n: nat)
    ensures var k2 := Transaction(k, AcceptWork(id, ws, user), (), fails, n).committed;
            var joins := ws in k.dir.workspaces && (ws, user) !in k.dir.members;
            var joined := k.(dir := k.dir.(members := k.dir.members[(ws, user) := Schema.Member]));
            k2 == if fails(n) || fails(n + 1) || fails(n + 2) || !joins then k
                  else if fails(n + 3) || fails(n + 4) then joined
                  else SetStatus(joined, id, Accepted)
  {
    var work := AcceptWork(id, ws, user);
    var rest := work[1..];
    assert rest == [OnClient(MarkAccepted(id))];
    assert rest[1..] == [];
    var added := Members.AddMember(k.dir, ws, user, Schema.Member);
    if !fails(n + 2) && added.Success? {
      var k2 := k.(dir := added.value);
      assert RunSteps(work, k, k, (), fails, n + 2) == RunSteps(rest, k2, k2, (), fails, n + 3);
      if !fails(n + 3) {
        var k3 := SetStatus(k2, id, Accepted);
        assert RunSteps(rest, k2, k2, (), fails, n + 3) == RunSteps(rest[1..], k2, k3, (), fails, n + 4);
      }
    }
  }

  /** A decline that succeeds changes the status of the row of the token, and nothing else; one that fails, nothing. */
  lemma DeclineServed(w: World, t: Token, env: Env, fails: nat -> bool, setup: Setup)
    requires Sound(w) && Fair(setup)
    ensures var (k2, r) := Serve(w.desk, Decline(t), setup, env, fails);
            && (r.Failure? ==> k2 == w.desk)
            && (r.Success? ==>
                  exists id ::
                    && id in w.desk.invites && id in w.born && w.born[id] == t && w.desk.invites[id].status == Pending
                    && k2 == w.desk.(invites := w.desk.invites[id := w.desk.invites[id].(status := Declined)]))
  {
    var r := VerifyToken(w.desk, t, setup.bcrypt, setup.first, env.now, fails, 0);
    if r.Success? {
      OwnRow(w, t, setup, env.now, fails, 0);
      assert r.value in w.desk.invites;
    }
  }

  // ---------------------------------------------------------------- how long an invitation lasts

  /** Call i of the run inserted row id for this email and workspace. */
  ghost predicate InvitedAt(calls: seq<Call>, i: nat, id: nat, t: Token) {
    && i < |calls| && calls[i].req.Invited? && t == Token(calls[i].req.email, calls[i].req.ws, calls[i].env.exp)
    && id == At(calls, i).desk.nextInvite && id in At(calls, i + 1).desk.invites
  }

  /** The row of an invitation keeps the expiry it was given, for as long as it is there. */
  ghost predicate Expires(w: World, id: nat, expiresAt: int) {
    id < w.desk.nextInvite && (id in w.desk.invites ==> w.desk.invites[id].expiresAt == expiresAt)
  }

  lemma ExpiryKept(w: World, call: Call, id: nat, expiresAt: int)
    requires Sound(w) && Fair(call.setup) && Expires(w, id, expiresAt)
    ensures Expires(InvitationRuns.Step(w, call), id, expiresAt)
  {
    if call.req.Accept? {
      var r := VerifyToken(w.desk, call.req.token, call.setup.bcrypt, call.setup.first, call.env.now, call.fails, 0);
      if r.Success? {
        AcceptOutcome(w.desk, r.value, w.desk.invites[r.value].workspaceId, call.req.user, call.fails, 1);
      }
    }
  }

  lemma InvitedRow(calls: seq<Call>, i: nat, id: nat, t: Token)
    requires IsRun(calls) && InvitedAt(calls, i, id, t)
    ensures var w := At(calls, i + 1);
            Expires(w, id, calls[i].env.expiresAt) && id in w.born && w.born[id] == t && t in w.desk.issued
  {
    ReachableSound(calls, i);
    AfterOneMore(Next(), START, calls, i);
    var w, call := At(calls, i), calls[i];
    InvitationServed(w.desk, call.req.user, call.req.ws, call.req.email, call.setup, call.env, call.fails);
  }

  ghost predicate Issued(w: World, t: Token) {
    t in w.desk.issued
  }

  lemma IssuedKept(w: World, call: Call, t: Token)
    requires Sound(w) && Fair(call.setup) && Issued(w, t)
    ensures Issued(InvitationRuns.Step(w, call), t)
  {
    if call.req.Accept? {
      var r := VerifyToken(w.desk, call.req.token, call.setup.bcrypt, call.setup.first, call.env.now, call.fails, 0);
      if r.Success? {
        AcceptOutcome(w.desk, r.value, w.desk.invites[r.value].workspaceId, call.req.user, call.fails, 1);
      }
    }
  }

  lemma InvitedStays(calls: seq<Call>, i: nat, j: nat, id: nat, t: Token)
    requires IsRun(calls) && InvitedAt(calls, i, id, t) && i < j <= |calls|
    ensures Expires(At(calls, j), id, calls[i].env.expiresAt) && Issued(At(calls, j), t)
    ensures id in At(calls, j).born && At(calls, j).born[id] == t
  {
    InvitedRow(calls, i, id, t);
    BornForever(calls, i + 1, j, id, t);
    var expiresAt := calls[i].env.expiresAt;
    var fact := (w: World) => Expires(w, id, expiresAt) && Issued(w, t);
    SoundKept();
    forall w: World, call: Call | SoundOf()(w) && fact(w) && Legal()(w, call) ensures fact(Next()(w, call)) {
      ExpiryKept(w, call, id, expiresAt);
      IssuedKept(w, call, t);
    }
    assert calls[..j][..i + 1] == calls[..i + 1];
    OnceTrueStaysTrue(Next(), Legal(), SoundOf(), fact, START, calls[..j], i + 1);
  }

  /** While the row of an invitation is pending, its token is accepted for a user who is no member, with no query
      failing, exactly until one of the two instants that the invitation was given has passed: exp in seconds for the
      token, expiresAt in milliseconds for the row. */
  lemma InvitationIsAccepted(calls: seq<Call>, i: nat, j: nat, id: nat, t: Token, user: int, bcrypt: Bcrypt<Token>)
    requires IsRun(calls) && Uses(calls, bcrypt) && Honest(bcrypt)
    requires InvitedAt(calls, i, id, t) && i < j < |calls| && t.email != "" && t.workspaceId != 0
    requires calls[j].req == Accept(t, user) && FirstWork(calls[j].fails, 6)
    requires var k := At(calls, j).desk;
             id in k.invites && k.invites[id].status == Pending && (t.workspaceId, user) !in k.dir.members
    ensures ReplyTo(calls, j).Success? <==>
              calls[j].env.now / 1000 < calls[i].env.exp && calls[j].env.now <= calls[i].env.expiresAt
  {
    InvitedStays(calls, i, j, id, t);
    ReachableSound(calls, j);
    AcceptsExactlyWhen(calls, j, t, user, bcrypt);
    var w, now := At(calls, j), calls[j].env.now;
    assert NoFault(calls[j].fails, 0, 6);
    OnePending(w, id);
    forall m | m in w.desk.invites && w.desk.invites[m].status == Pending && w.desk.invites[m].email == t.email
               && w.desk.invites[m].workspaceId == t.workspaceId
      ensures m == id
    {
      assert m in PendingIds(w.desk, t.email, t.workspaceId);
    }
    assert w.desk.invites[id].email == t.email && w.desk.invites[id].workspaceId == t.workspaceId;
  }
}
