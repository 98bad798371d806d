/**
  Whole runs of invitations, acceptances, declines and membership requests, each cut off by a failure wherever the
  schedule puts it. The facts up to SettledOnce hold whatever bcrypt's compare accepts.
*/
module InvitationRuns {
  import opened Basics
  import opened Transactions
  import opened Invitations
  import opened Runs
  import Schema
  import Members
  import MemberRuns

  /** setup says which rows this call finds first; its bcrypt matters only in the last theorem. */
  datatype Call = Call(req: Request, env: Env, fails: nat -> bool, setup: Setup)

  /** born is history: the token each row was made with. */
  datatype World = World(desk: Desk, born: map<nat, Token>)

  const START := World(EMPTY_DESK, map[])

  function NewMembers(before: Desk, after: Desk): set<(nat, int)> {
    after.dir.members.Keys - before.dir.members.Keys
  }

  function Step(w: World, call: Call): World {
    var desk2 := Serve(w.desk, call.req, call.setup, call.env, call.fails).0;
    World(desk2,
          if w.desk.nextInvite in desk2.invites && call.req.Invited?
          then w.born[w.desk.nextInvite := Token(call.req.email, call.req.ws, call.env.exp)] else w.born)
  }

  function Next(): (World, Call) -> World {
    (w: World, call: Call) => Step(w, call)
  }

  ghost function Legal(): (World, Call) -> bool {
    (w: World, call: Call) => Fair(call.setup)
  }

  ghost predicate IsRun(calls: seq<Call>) {
    forall k :: 0 <= k < |calls| ==> Fair(calls[k].setup)
  }

  ghost predicate Fair(setup: Setup) {
    IsChoice(setup.first) && IsChoice(setup.choose)
  }

  predicate SamePair(t: Token, u: Token) {
    t.email == u.email && t.workspaceId == u.workspaceId
  }

  // ---------------------------------------------------------------- the invariant

  ghost predicate RowsBorn(k: Desk, born: map<nat, Token>) {
    && (forall id :: id in k.invites ==>
          && id in born && born[id].email == k.invites[id].email && born[id].workspaceId == k.invites[id].workspaceId
          && k.invites[id].workspaceId in k.dir.workspaces)
    && (forall id :: id in born ==> id < k.nextInvite && born[id].workspaceId < k.dir.nextWorkspace)
  }

  /** A row only ever disappears with its workspace. */
  ghost predicate RowsLast(k: Desk, born: map<nat, Token>) {
    forall id :: id in born && born[id].workspaceId in k.dir.workspaces ==> id in k.invites
  }

  ghost predicate PairsOnce(born: map<nat, Token>) {
    forall id, j :: id in born && j in born && SamePair(born[id], born[j]) ==> id == j
  }

  ghost predicate TokensBorn(k: Desk, born: map<nat, Token>) {
    forall t: Token :: t in k.issued ==> t in born.Values
  }

  ghost predicate Sound(w: World) {
    && MemberRuns.WellFormed(w.desk.dir)
    && RowsBorn(w.desk, w.born) && RowsLast(w.desk, w.born) && PairsOnce(w.born) && TokensBorn(w.desk, w.born)
  }

  // ---------------------------------------------------------------- what each request can do

  /** The three ways an acceptance can end: nothing; the membership alone; the membership and the accepted row. */
  lemma AcceptOutcome(k: Desk, id: nat, ws: nat, user: int, fails: nat -> bool, n: nat)
    ensures var r := Transaction(k, AcceptWork(id, ws, user), (), fails, n);
            var added := Members.AddMember(k.dir, ws, user, Schema.Member);
            && (r.outcome.Success? <==> added.Success? && NoFault(fails, n, 5))
            && (r.outcome.Success? ==> r.committed == SetStatus(k.(dir := added.value), id, Accepted))
            && (r.outcome.Failure? ==> r.committed == k || (added.Success? && r.committed == k.(dir := added.value)))
  {
    var work := AcceptWork(id, ws, user);
    var rest := work[1..];
    assert rest == [OnClient(MarkAccepted(id))];
    assert rest[1..] == [];
    var added := Members.AddMember(k.dir, ws, user, Schema.Member);
    var r := RunSteps(work, k, k, (), fails, n + 2);
    if !fails(n + 2) && added.Success? {
      var k2 := k.(dir := added.value);
      assert r == RunSteps(rest, k2, k2, (), fails, n + 3);
      if !fails(n + 3) {
        var k3 := SetStatus(k2, id, Accepted);
        assert RunSteps(rest, k2, k2, (), fails, n + 3) == RunSteps(rest[1..], k2, k3, (), fails, n + 4);
        assert r == Ran(k2, k3, Success(()), n + 4);
      }
    }
    if !fails(n) && !fails(n + 1) && !fails(n + 2) && !fails(n + 3) && !fails(n + 4) {
      assert NoFault(fails, n, 5);
    }
  }

  /** A verified token names a pending row of its own pair. */
  lemma VerifiedRow(k: Desk, t: Token, bcrypt: Bcrypt<Token>, first: set<nat> -> nat, now: int, fails: nat -> bool,
                    n: nat)
    requires IsChoice(first) && VerifyToken(k, t, bcrypt, first, now, fails, n).Success?
    ensures var id := VerifyToken(k, t, bcrypt, first, now, fails, n).value;
            id in k.invites && t in k.issued
    ensures var id := VerifyToken(k, t, bcrypt, first, now, fails, n).value;
            PendingIds(k, t.email, t.workspaceId) != {}
            && (Newest(k, PendingIds(k, t.email, t.workspaceId)) != {} ==> id in PendingIds(k, t.email, t.workspaceId))
  {
    var ids := PendingIds(k, t.email, t.workspaceId);
    if Newest(k, ids) != {} {
      assert first(Newest(k, ids)) in Newest(k, ids);
    }
  }

  /** There is only one candidate, so the order by creation time and the LIMIT do not matter. */
  lemma OnePending(w: World, id: nat)
    requires Sound(w) && id in w.desk.invites && w.desk.invites[id].status == Pending
    ensures var row := w.desk.invites[id];
            PendingIds(w.desk, row.email, row.workspaceId) == {id}
            && Newest(w.desk, PendingIds(w.desk, row.email, row.workspaceId)) == {id}
  {
    var row := w.desk.invites[id];
    var ids := PendingIds(w.desk, row.email, row.workspaceId);
    forall j | j in ids ensures j == id {
      assert SamePair(w.born[j], w.born[id]);
    }
    assert id in ids;
  }

  /** The row a token settles is pending, is of its pair, and was made with that very token. */
  lemma OwnRow(w: World, t: Token, setup: Setup, now: int, fails: nat -> bool, n: nat)
    requires Sound(w) && Fair(setup)
    requires VerifyToken(w.desk, t, setup.bcrypt, setup.first, now, fails, n).Success?
    ensures var id := VerifyToken(w.desk, t, setup.bcrypt, setup.first, now, fails, n).value;
            && id in w.desk.invites && w.desk.invites[id].status == Pending
            && w.desk.invites[id].email == t.email && w.desk.invites[id].workspaceId == t.workspaceId
            && id in w.born && w.born[id] == t
  {
    VerifiedRow(w.desk, t, setup.bcrypt, setup.first, now, fails, n);
    var ids := PendingIds(w.desk, t.email, t.workspaceId);
    var some :| some in ids;
    OnePending(w, some);
    var id := VerifyToken(w.desk, t, setup.bcrypt, setup.first, now, fails, n).value;
    assert id == some;
    var j :| j in w.born && w.born[j] == t;
    assert SamePair(w.born[j], w.born[id]);
  }

  // ---------------------------------------------------------------- the invariant is kept

  /** w2 is w with one more invitation, pending and made with t, whose pair has no row yet. */
  ghost predicate Inserted(w: World, w2: World, t: Token) {
    var id := w.desk.nextInvite;
    && t.workspaceId in w.desk.dir.workspaces && !ExistInvitation(w.desk, t.email)
    && w2.desk.dir == w.desk.dir && w2.desk.nextInvite == id + 1 && w2.desk.issued == w.desk.issued + {t}
    && id in w2.desk.invites && w2.desk.invites == w.desk.invites[id := w2.desk.invites[id]]
    && w2.desk.invites[id].email == t.email && w2.desk.invites[id].workspaceId == t.workspaceId
    && w2.desk.invites[id].status == Pending
    && w2.born == w.born[id := t]
  }

  lemma InsertedTokens(w: World, w2: World, t: Token)
    requires TokensBorn(w.desk, w.born) && RowsBorn(w.desk, w.born) && Inserted(w, w2, t)
    ensures TokensBorn(w2.desk, w2.born)
  {
    assert w2.born[w.desk.nextInvite] == t;
    forall u: Token | u in w2.desk.issued ensures u in w2.born.Values {
      if u != t {
        var j :| j in w.born && w.born[j] == u;
        assert w2.born[j] == u;
      }
    }
  }

  lemma InsertedSound(w: World, w2: World, t: Token)
    requires Sound(w) && Inserted(w, w2, t)
    ensures Sound(w2)
  {
    InsertedTokens(w, w2, t);
    forall j | j in w.born && w.born[j].workspaceId == t.workspaceId ensures w.born[j].email != t.email {
      assert j in w.desk.invites;
    }
  }

  lemma InviteStep(w: World, user: int, ws: nat, email: string, env: Env, fails: nat -> bool, setup: Setup)
    requires Sound(w)
    ensures Sound(Step(w, Call(Invited(user, ws, email), env, fails, setup)))
  {
    var w2 := Step(w, Call(Invited(user, ws, email), env, fails, setup));
    if w2.desk != w.desk {
      InsertedSound(w, w2, Token(email, ws, env.exp));
    }
  }

  lemma StatusKept(w: World, w2: World, id: nat, status: Status)
    requires Sound(w) && w2.desk == SetStatus(w.desk.(dir := w2.desk.dir), id, status) && w2.born == w.born
    requires w2.desk.dir.workspaces == w.desk.dir.workspaces
             && w2.desk.dir.nextWorkspace == w.desk.dir.nextWorkspace
    requires MemberRuns.WellFormed(w2.desk.dir)
    ensures Sound(w2)
  {
  }

  lemma AcceptStep(w: World, t: Token, user: int, env: Env, fails: nat -> bool, setup: Setup)
    requires Sound(w) && Fair(setup)
    ensures Sound(Step(w, Call(Accept(t, user), env, fails, setup)))
  {
    var w2 := Step(w, Call(Accept(t, user), env, fails, setup));
    var verified := VerifyToken(w.desk, t, setup.bcrypt, setup.first, env.now, fails, 0);
    if verified.Success? {
      OwnRow(w, t, setup, env.now, fails, 0);
      var id, ws := verified.value, t.workspaceId;
      AcceptOutcome(w.desk, id, ws, user, fails, 1);
      var added := Members.AddMember(w.desk.dir, ws, user, Schema.Member);
      if w2.desk != w.desk {
        assert added.Success?;
        StatusKept(w, w2, id, w2.desk.invites[id].status);
      }
    }
  }

  lemma DeclineStep(w: World, t: Token, env: Env, fails: nat -> bool, setup: Setup)
    requires Sound(w) && Fair(setup)
    ensures Sound(Step(w, Call(Decline(t), env, fails, setup)))
  {
    var w2 := Step(w, Call(Decline(t), env, fails, setup));
    if w2.desk != w.desk {
      OwnRow(w, t, setup, env.now, fails, 0);
      StatusKept(w, w2, VerifyToken(w.desk, t, setup.bcrypt, setup.first, env.now, fails, 0).value, Declined);
    }
  }

  /** Workspaces are only removed, or added under a number not used before. */
  lemma DirectoryStep(d: Members.Directory, req: Members.Request, choose: set<int> -> int, fails: nat -> bool)
    requires MemberRuns.WellFormed(d) && IsChoice(choose)
    ensures var d2 := Members.Serve(d, req, choose, fails).0;
            && MemberRuns.WellFormed(d2) && d.nextWorkspace <= d2.nextWorkspace
            && forall ws :: ws in d2.workspaces && ws < d.nextWorkspace ==> ws in d.workspaces
  {
    MemberRuns.ShapeStep(d, req, choose, fails);
    match req
    case Create(user) => MemberRuns.CreateWorkspaceOutcome(d, user, fails, 0);
    case Delete(user, ws) =>
    case Remove(user, ws, member) => MemberRuns.ChangeOwnerOutcome(d, user, ws, None, choose, fails, 3);
    case Update(user, ws, member, role) =>
      MemberRuns.ChangeOwnerOutcome(d, user, ws, if role == Schema.Owner then Some(member) else None, choose, fails, 1);
    case Join(user, ws) =>
  }

  lemma OtherStep(w: World, req: Members.Request, env: Env, fails: nat -> bool, setup: Setup)
    requires Sound(w) && Fair(setup)
    ensures Sound(Step(w, Call(Other(req), env, fails, setup)))
  {
    DirectoryStep(w.desk.dir, req, setup.choose, fails);
  }

  ghost function SoundOf(): World -> bool {
    w => Sound(w)
  }

  lemma SoundKept()
    ensures Keeps(Next(), Legal(), SoundOf()) && SoundOf()(START)
  {
    forall w: World, call: Call | SoundOf()(w) && Legal()(w, call) ensures SoundOf()(Next()(w, call)) {
      match call.req
      case Invited(user, ws, email) => InviteStep(w, user, ws, email, call.env, call.fails, call.setup);
      case Accept(t, user) => AcceptStep(w, t, user, call.env, call.fails, call.setup);
      case Decline(t) => DeclineStep(w, t, call.env, call.fails, call.setup);
      case Other(req) => OtherStep(w, req, call.env, call.fails, call.setup);
    }
  }

  function At(calls: seq<Call>, k: nat): World
    requires k <= |calls|
  {
    After(Next(), START, calls[..k])
  }

  function ReplyTo(calls: seq<Call>, k: nat): Result<()>
    requires k < |calls|
  {
    Serve(At(calls, k).desk, calls[k].req, calls[k].setup, calls[k].env, calls[k].fails).1
  }

  lemma ReachableSound(calls: seq<Call>, k: nat)
    requires IsRun(calls) && k <= |calls|
    ensures Sound(At(calls, k))
  {
    SoundKept();
    InvariantAlong(Next(), Legal(), SoundOf(), START, calls[..k]);
  }

  // ---------------------------------------------------------------- the promises

  /** A pair of email and workspace has at most one invitation row in the whole history. */
  lemma OneInvitationPerPair(calls: seq<Call>, id: nat, j: nat)
    requires IsRun(calls)
    requires var born := At(calls, |calls|).born; id in born && j in born && SamePair(born[id], born[j])
    ensures id == j
  {
    ReachableSound(calls, |calls|);
  }

  /** A row changes status only from pending, only by accepting or declining with the token it was made with. */
  lemma SettledByOwnToken(calls: seq<Call>, k: nat, id: nat)
    requires IsRun(calls) && k < |calls|
    requires var k1, k2 := At(calls, k).desk, At(calls, k + 1).desk;
             id in k1.invites && id in k2.invites && k1.invites[id].status != k2.invites[id].status
    ensures var w, w2 := At(calls, k), At(calls, k + 1);
            && w.desk.invites[id].status == Pending && id in w.born
            && ((calls[k].req.Accept? && calls[k].req.token == w.born[id] && w2.desk.invites[id].status == Accepted)
                || (calls[k].req.Decline? && calls[k].req.token == w.born[id]
                    && w2.desk.invites[id].status == Declined))
  {
    ReachableSound(calls, k);
    AfterOneMore(Next(), START, calls, k);
    SettlesOwnRow(At(calls, k), calls[k], id);
  }

  lemma SettlesOwnRow(w: World, call: Call, id: nat)
    requires Sound(w) && Fair(call.setup)
    requires var w2 := Step(w, call);
             id in w.desk.invites && id in w2.desk.invites && w.desk.invites[id].status != w2.desk.invites[id].status
    ensures var w2 := Step(w, call);
            && w.desk.invites[id].status == Pending && id in w.born
            && ((call.req.Accept? && call.req.token == w.born[id] && w2.desk.invites[id].status == Accepted)
                || (call.req.Decline? && call.req.token == w.born[id] && w2.desk.invites[id].status == Declined))
  {
    assert id in w.born && id < w.desk.nextInvite;
    match call.req
    case Accept(t, user) =>
      OwnRow(w, t, call.setup, call.env.now, call.fails, 0);
      var r := VerifyToken(w.desk, t, call.setup.bcrypt, call.setup.first, call.env.now, call.fails, 0);
      AcceptOutcome(w.desk, r.value, t.workspaceId, user, call.fails, 1);
    case Decline(t) => OwnRow(w, t, call.setup, call.env.now, call.fails, 0);
    case Invited(_, _, _) =>
    case Other(_) =>
  }

  /** The pair of the token has had its row, and no row of the pair is pending. */
  ghost predicate Closed(w: World, t: Token) {
    && (exists id :: id in w.born && SamePair(w.born[id], t))
    && PendingIds(w.desk, t.email, t.workspaceId) == {}
  }

  lemma SettlingCloses(w: World, call: Call, t: Token)
    requires Sound(w) && Fair(call.setup) && (call.req.Accept? || call.req.Decline?) && call.req.token == t
    requires Serve(w.desk, call.req, call.setup, call.env, call.fails).1.Success?
    ensures Closed(Step(w, call), t)
  {
    OwnRow(w, t, call.setup, call.env.now, call.fails, 0);
    var id := VerifyToken(w.desk, t, call.setup.bcrypt, call.setup.first, call.env.now, call.fails, 0).value;
    OnePending(w, id);
    if call.req.Accept? {
      AcceptOutcome(w.desk, id, t.workspaceId, call.req.user, call.fails, 1);
    }
    var w2 := Step(w, call);
    assert SamePair(w2.born[id], t);
    forall j | j in PendingIds(w2.desk, t.email, t.workspaceId)
      ensures j in PendingIds(w.desk, t.email, t.workspaceId) && j != id
    {
    }
  }

  lemma ClosedStep(w: World, call: Call, t: Token)
    requires Sound(w) && Fair(call.setup) && Closed(w, t)
    ensures Closed(Step(w, call), t)
  {
    var w2 := Step(w, call);
    var id :| id in w.born && SamePair(w.born[id], t);
    SoundKept();
    assert SoundOf()(w) && Legal()(w, call);
    assert SoundOf()(Next()(w, call));
    assert id in w2.born && w2.born[id] == w.born[id];
    forall j | j in PendingIds(w2.desk, t.email, t.workspaceId) ensures j == id {
      assert SamePair(w2.born[j], w2.born[id]);
    }
    if id in w.desk.invites {
      assert id !in PendingIds(w.desk, t.email, t.workspaceId);
      if id in w2.desk.invites && w2.desk.invites[id].status != w.desk.invites[id].status {
        SettlesOwnRow(w, call, id);
      }
    } else {
      GoneStaysGone(w, call, t.workspaceId);
    }
  }

  lemma GoneStaysGone(w: World, call: Call, ws: nat)
    requires Sound(w) && Fair(call.setup) && ws !in w.desk.dir.workspaces && ws < w.desk.dir.nextWorkspace
    ensures ws !in Step(w, call).desk.dir.workspaces
  {
    match call.req
    case Accept(t, user) =>
      var id := VerifyToken(w.desk, t, call.setup.bcrypt, call.setup.first, call.env.now, call.fails, 0);
      if id.Success? {
        AcceptOutcome(w.desk, id.value, w.desk.invites[id.value].workspaceId, user, call.fails, 1);
      }
    case Other(req) => DirectoryStep(w.desk.dir, req, call.setup.choose, call.fails);
    case _ =>
  }

  lemma ClosedForever(calls: seq<Call>, i: nat, j: nat, t: Token)
    requires IsRun(calls) && i <= j <= |calls| && Closed(At(calls, i), t)
    ensures Closed(At(calls, j), t)
    decreases j - i
  {
    if i < j {
      ReachableSound(calls, i);
      AfterOneMore(Next(), START, calls, i);
      ClosedStep(At(calls, i), calls[i], t);
      ClosedForever(calls, i + 1, j, t);
    }
  }

  lemma ClosedRefuses(w: World, call: Call, t: Token)
    requires Closed(w, t) && (call.req.Accept? || call.req.Decline?) && call.req.token == t
    ensures Serve(w.desk, call.req, call.setup, call.env, call.fails).1.Failure?
  {
  }

  /** A token settles at most once, whether by accepting or declining, and whoever presents it. */
  lemma SettledOnce(calls: seq<Call>, i: nat, j: nat, t: Token)
    requires IsRun(calls) && i < j < |calls|
    requires (calls[i].req.Accept? || calls[i].req.Decline?) && calls[i].req.token == t
    requires (calls[j].req.Accept? || calls[j].req.Decline?) && calls[j].req.token == t
    requires ReplyTo(calls, i).Success?
    ensures ReplyTo(calls, j).Failure?
  {
    ReachableSound(calls, i);
    AfterOneMore(Next(), START, calls, i);
    SettlingCloses(At(calls, i), calls[i], t);
    ClosedForever(calls, i + 1, j, t);
    ClosedRefuses(At(calls, j), calls[j], t);
  }

  /** An acceptance that makes a row accepted has inserted its own user as a member of that workspace. */
  lemma AcceptingJoins(w: World, call: Call, id: nat)
    requires Sound(w) && Fair(call.setup) && id in w.desk.invites && w.desk.invites[id].status == Pending
    requires var w2 := Step(w, call); id in w2.desk.invites && w2.desk.invites[id].status == Accepted
    ensures call.req.Accept? && id in w.born && call.req.token == w.born[id]
    ensures (w.born[id].workspaceId, call.req.user) in NewMembers(w.desk, Step(w, call).desk)
  {
    SettlesOwnRow(w, call, id);
    var t := call.req.token;
    OwnRow(w, t, call.setup, call.env.now, call.fails, 0);
    var verified := VerifyToken(w.desk, t, call.setup.bcrypt, call.setup.first, call.env.now, call.fails, 0);
    AcceptOutcome(w.desk, verified.value, t.workspaceId, call.req.user, call.fails, 1);
  }

  lemma NewRowsArePending(w: World, call: Call, id: nat)
    requires Fair(call.setup) && id !in w.desk.invites && id in Step(w, call).desk.invites
    ensures Step(w, call).desk.invites[id].status == Pending
  {
    OnlyInvitesInsert(w, call, id);
  }

  lemma BornStays(w: World, call: Call, id: nat)
    requires Sound(w) && id in w.born
    ensures id in Step(w, call).born && Step(w, call).born[id] == w.born[id]
  {
  }

  /** In this step, call accepts row id with the token t of the row, and inserts its user. */
  ghost predicate Accepts(before: Desk, call: Call, after: Desk, id: nat, t: Token) {
    && call.req.Accept? && call.req.token == t
    && id in before.invites && before.invites[id].status == Pending
    && id in after.invites && after.invites[id].status == Accepted
    && (t.workspaceId, call.req.user) in NewMembers(before, after)
  }

  lemma AcceptedStep(w: World, call: Call, id: nat)
    requires Sound(w) && Fair(call.setup)
    requires var w2 := Step(w, call); id in w2.desk.invites && w2.desk.invites[id].status == Accepted
    ensures var w2 := Step(w, call);
            && id in w.desk.invites && id in w.born && id in w2.born && w2.born[id] == w.born[id]
            && (w.desk.invites[id].status == Accepted || Accepts(w.desk, call, w2.desk, id, w.born[id]))
  {
    if id !in w.desk.invites {
      NewRowsArePending(w, call, id);
      assert false;
    }
    BornStays(w, call, id);
    if w.desk.invites[id].status != Accepted {
      SettlesOwnRow(w, call, id);
      AcceptingJoins(w, call, id);
    }
  }

  /** No reachable state has an accepted invitation whose own membership insert did not commit: some earlier call
      accepted the pending row with the very token of that row, and inserted the user who presented it. */
  lemma AcceptedOnlyAfterJoining(calls: seq<Call>, k: nat, id: nat) returns (m: nat)
    requires IsRun(calls) && k <= |calls|
    requires var desk := At(calls, k).desk; id in desk.invites && desk.invites[id].status == Accepted
    ensures m < k && id in At(calls, k).born
    ensures Accepts(At(calls, m).desk, calls[m], At(calls, m + 1).desk, id, At(calls, k).born[id])
  {
    var accepted := (w: World) => id in w.desk.invites && w.desk.invites[id].status == Accepted;
    m := BecameTrue(Next(), accepted, START, calls[..k]);
    assert calls[..k][..m] == calls[..m] && calls[..k][..m + 1] == calls[..m + 1];
    ReachableSound(calls, m);
    AfterOneMore(Next(), START, calls, m);
    var w := At(calls, m);
    assert !accepted(w) && accepted(At(calls, m + 1));
    AcceptedStep(w, calls[m], id);
    BornForever(calls, m + 1, k, id, w.born[id]);
  }

  lemma BornForever(calls: seq<Call>, i: nat, j: nat, id: nat, t: Token)
    requires IsRun(calls) && i <= j <= |calls|
    requires id in At(calls, i).born && At(calls, i).born[id] == t
    ensures id in At(calls, j).born && At(calls, j).born[id] == t
  {
    var fact := (w: World) => id in w.born && w.born[id] == t;
    SoundKept();
    forall w: World, call: Call | SoundOf()(w) && fact(w) && Legal()(w, call) ensures fact(Next()(w, call)) {
      BornStays(w, call, id);
    }
    assert calls[..j][..i] == calls[..i];
    OnceTrueStaysTrue(Next(), Legal(), SoundOf(), fact, START, calls[..j], i);
  }

  /** An acceptance that fails leaves the invitation as it was. If the insert failed nothing at all has changed; the
      other failures leave the membership behind. */
  lemma FailedAcceptLeavesPending(w: World, t: Token, user: int, env: Env, fails: nat -> bool, setup: Setup)
    requires Sound(w) && Fair(setup)
    requires Serve(w.desk, Accept(t, user), setup, env, fails).1.Failure?
    ensures var k2 := Serve(w.desk, Accept(t, user), setup, env, fails).0;
            && k2.invites == w.desk.invites
            && (k2 == w.desk
                || ((t.workspaceId, user) !in w.desk.dir.members
                    && k2.dir.members == w.desk.dir.members[(t.workspaceId, user) := Schema.Member]))
  {
    var id := VerifyToken(w.desk, t, setup.bcrypt, setup.first, env.now, fails, 0);
    if id.Success? {
      OwnRow(w, t, setup, env.now, fails, 0);
      AcceptOutcome(w.desk, id.value, t.workspaceId, user, fails, 1);
    }
  }

  /** Every row still holds the hash of the token it was made with. */
  ghost predicate Hashed(w: World, bcrypt: Bcrypt<Token>) {
    forall id :: id in w.desk.invites && id in w.born ==>
      exists salt: nat :: w.desk.invites[id].tokenHash == bcrypt.hash(w.born[id], salt)
  }

  lemma HashedStep(w: World, call: Call)
    requires Sound(w) && Fair(call.setup) && Hashed(w, call.setup.bcrypt)
    ensures Hashed(Step(w, call), call.setup.bcrypt)
  {
    var w2 := Step(w, call);
    forall id | id in w2.desk.invites && id in w.desk.invites
      ensures w2.desk.invites[id].tokenHash == w.desk.invites[id].tokenHash && id in w.born && w2.born[id] == w.born[id]
    {
      assert id in w.born && id < w.desk.nextInvite;
      if call.req.Accept? {
        var r := VerifyToken(w.desk, call.req.token, call.setup.bcrypt, call.setup.first, call.env.now, call.fails, 0);
        if r.Success? {
          AcceptOutcome(w.desk, r.value, w.desk.invites[r.value].workspaceId, call.req.user, call.fails, 1);
        }
      }
    }
    forall id | id in w2.desk.invites && id !in w.desk.invites
      ensures exists salt: nat ::
                id in w2.born && w2.desk.invites[id].tokenHash == call.setup.bcrypt.hash(w2.born[id], salt)
    {
      OnlyInvitesInsert(w, call, id);
      assert w2.desk.invites[id].tokenHash == call.setup.bcrypt.hash(w2.born[id], call.env.salt);
    }
  }

  lemma OnlyInvitesInsert(w: World, call: Call, id: nat)
    requires Fair(call.setup) && id !in w.desk.invites && id in Step(w, call).desk.invites
    ensures call.req.Invited? && id == w.desk.nextInvite
  {
    if call.req.Accept? {
      var r := VerifyToken(w.desk, call.req.token, call.setup.bcrypt, call.setup.first, call.env.now, call.fails, 0);
      if r.Success? {
        AcceptOutcome(w.desk, r.value, w.desk.invites[r.value].workspaceId, call.req.user, call.fails, 1);
      }
    }
  }

  /** The password hash is the same in all calls. */
  ghost predicate Uses(calls: seq<Call>, bcrypt: Bcrypt<Token>) {
    forall k :: 0 <= k < |calls| ==> calls[k].setup.bcrypt == bcrypt
  }

  lemma ReachableHashed(calls: seq<Call>, k: nat, bcrypt: Bcrypt<Token>)
    requires IsRun(calls) && Uses(calls, bcrypt) && k <= |calls|
    ensures Hashed(At(calls, k), bcrypt)
  {
    var fact := (w: World) => Hashed(w, bcrypt);
    var legal := (w: World, call: Call) => Fair(call.setup) && call.setup.bcrypt == bcrypt;
    SoundKept();
    forall w: World, call: Call | SoundOf()(w) && legal(w, call) ensures SoundOf()(Next()(w, call)) {
      assert Legal()(w, call);
    }
    forall w: World, call: Call | SoundOf()(w) && fact(w) && legal(w, call) ensures fact(Next()(w, call)) {
      HashedStep(w, call);
    }
    assert calls[..k][..0] == [];
    OnceTrueStaysTrue(Next(), legal, SoundOf(), fact, START, calls[..k], 0);
  }

  lemma AcceptsByRow(w: World, t: Token, user: int, env: Env, fails: nat -> bool, setup: Setup)
    requires Sound(w) && Hashed(w, setup.bcrypt) && Fair(setup) && Honest(setup.bcrypt)
    ensures Serve(w.desk, Accept(t, user), setup, env, fails).1.Success? <==> CanAccept(w, t, user, env.now, fails)
  {
    var verified := VerifyToken(w.desk, t, setup.bcrypt, setup.first, env.now, fails, 0);
    if NoFault(fails, 1, 5) && !fails(0) {
      forall k | 0 <= k < 6 ensures !fails(k) {}
    }
    if NoFault(fails, 0, 6) {
      assert !fails(0);
      assert NoFault(fails, 1, 5);
    }
    if verified.Success? {
      OwnRow(w, t, setup, env.now, fails, 0);
      AcceptOutcome(w.desk, verified.value, t.workspaceId, user, fails, 1);
      OnePending(w, verified.value);
      forall id | id in w.desk.invites && w.desk.invites[id].status == Pending && w.desk.invites[id].email == t.email
                  && w.desk.invites[id].workspaceId == t.workspaceId
        ensures id == verified.value
      {
        assert id in PendingIds(w.desk, t.email, t.workspaceId);
      }
    } else if id :| t in w.desk.issued && id in w.desk.invites && w.desk.invites[id].status == Pending
                    && w.desk.invites[id].email == t.email && w.desk.invites[id].workspaceId == t.workspaceId
    {
      assert id in PendingIds(w.desk, t.email, t.workspaceId);
      OnePending(w, id);
      var j :| j in w.born && w.born[j] == t;
      assert SamePair(w.born[j], w.born[id]);
    }
  }

  /** The token verifies, the row of its pair is pending and unexpired, the user is no member yet, no query fails. */
  ghost predicate CanAccept(w: World, t: Token, user: int, now: int, fails: nat -> bool) {
    && t in w.desk.issued && now / 1000 < t.exp && t.email != "" && t.workspaceId != 0
    && (exists id :: id in w.desk.invites && w.desk.invites[id].status == Pending && now <= w.desk.invites[id].expiresAt
                     && w.desk.invites[id].email == t.email && w.desk.invites[id].workspaceId == t.workspaceId)
    && (t.workspaceId, user) !in w.desk.dir.members
    && NoFault(fails, 0, 6)
  }

  /** In every run an acceptance succeeds exactly when it can. A user left a member by an acceptance that failed half
      way can therefore never accept while they are a member, and the invitation stays pending. */
  lemma AcceptsExactlyWhen(calls: seq<Call>, k: nat, t: Token, user: int, bcrypt: Bcrypt<Token>)
    requires IsRun(calls) && Uses(calls, bcrypt) && Honest(bcrypt)
    requires k < |calls| && calls[k].req == Accept(t, user)
    ensures ReplyTo(calls, k).Success? <==>
              CanAccept(At(calls, k), t, user, calls[k].env.now, calls[k].fails)
  {
    ReachableSound(calls, k);
    ReachableHashed(calls, k, bcrypt);
    AcceptsByRow(At(calls, k), t, user, calls[k].env, calls[k].fails, calls[k].setup);
  }
}
