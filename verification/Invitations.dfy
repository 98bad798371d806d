/**
  The invitation lifecycle: invite, accept, decline, over the members directory, with any query failing anywhere.
  A signed token is its payload, and issued holds the payloads that can be in someone's hands: a token signed for a
  refused invitation is never disclosed.
*/
module Invitations {
  import opened Basics
  import opened Transactions
  import Schema
  import Members

  /** exp in seconds, the other instants in milliseconds. */
  datatype Token = Token(email: string, workspaceId: nat, exp: int)

  datatype Status = Pending | Accepted | Declined

  datatype Invite = Invite(workspaceId: nat, email: string, tokenHash: string, status: Status,
                           createdAt: int, expiresAt: int)

  datatype Desk = Desk(dir: Members.Directory, invites: map<nat, Invite>, nextInvite: nat, issued: set<Token>)

  const EMPTY_DESK := Desk(Members.NOBODY, map[], 0, {})

  datatype Env = Env(now: int, expiresAt: int, exp: int, salt: nat)

  // ---------------------------------------------------------------- single queries

  predicate ExistInvitation(k: Desk, email: string) {
    exists id :: id in k.invites && k.invites[id].email == email
  }

  /** INSERT INTO invitations: the workspace must exist, the hash is unique, and so is a pending pair. */
  function StoreInvitation(k: Desk, row: Invite): Result<Desk> {
    if row.workspaceId !in k.dir.workspaces
       || (exists id :: id in k.invites && k.invites[id].tokenHash == row.tokenHash)
       || PendingIds(k, row.email, row.workspaceId) != {}
    then Failure(QueryFailed)
    else Success(k.(invites := k.invites[k.nextInvite := row], nextInvite := k.nextInvite + 1))
  }

  function PendingIds(k: Desk, email: string, ws: nat): set<nat> {
    set id | id in k.invites && k.invites[id].email == email && k.invites[id].workspaceId == ws
             && k.invites[id].status == Pending
  }

  /** ORDER BY created_at DESC: those that may come first. */
  function Newest(k: Desk, ids: set<nat>): set<nat> {
    set id | id in ids && id in k.invites
             && forall j :: j in ids && j in k.invites ==> k.invites[j].createdAt <= k.invites[id].createdAt
  }

  function SetStatus(k: Desk, id: nat, status: Status): Desk {
    if id in k.invites then k.(invites := k.invites[id := k.invites[id].(status := status)]) else k
  }

  // ---------------------------------------------------------------- requests

  function GenerateInvitation(k: Desk, ws: nat, email: string, bcrypt: Bcrypt<Token>, env: Env,
                              fails: nat -> bool, n: nat): (Desk, Result<()>)
  {
    var t := Token(email, ws, env.exp);
    var row := Invite(ws, email, bcrypt.hash(t, env.salt), Pending, env.now, env.expiresAt);
    if fails(n) then (k, Failure(QueryFailed))
    else if ExistInvitation(k, email) then (k, Failure(Conflict))
    else if fails(n + 1) || StoreInvitation(k, row).Failure? then (k, Failure(QueryFailed))
    else
      var k2 := StoreInvitation(k, row).value;
      // the context query and the mail queue come after the insert has committed
      (k2.(issued := k.issued + {t}), if fails(n + 2) || fails(n + 3) then Failure(QueryFailed) else Success(()))
  }

  predicate Verifies(k: Desk, t: Token, now: int) {
    t in k.issued && now / 1000 < t.exp
  }

  /** The id of the row the token settles; one query. */
  function VerifyToken(k: Desk, t: Token, bcrypt: Bcrypt<Token>, first: set<nat> -> nat, now: int,
                       fails: nat -> bool, n: nat): Result<nat>
  {
    if !Verifies(k, t, now) then Failure(Unauthorized)
    else if t.email == "" || t.workspaceId == 0 then Failure(NotFound)
    else if fails(n) then Failure(QueryFailed)
    else
      var ids := PendingIds(k, t.email, t.workspaceId);
      if ids == {} then Failure(NotFound)
      else
        var id := first(Newest(k, ids));
        if id !in k.invites then Failure(QueryFailed)
        else if !bcrypt.compare(t, k.invites[id].tokenHash) then Failure(Unauthorized)
        else if k.invites[id].expiresAt < now then Failure(Unauthorized)
        else Success(id)
  }

  function JoinWorkspace(ws: nat, user: int): (Desk, ()) -> Reply<Desk, ()> {
    (k: Desk, none: ()) =>
      match Members.AddMember(k.dir, ws, user, Schema.Member)
      case Failure(error) => Threw(error)
      case Success(dir2) => Answered(k.(dir := dir2), ())
  }

  function MarkAccepted(id: nat): (Desk, ()) -> Reply<Desk, ()> {
    (k: Desk, none: ()) => Answered(SetStatus(k, id, Accepted), ())
  }

  /** addMember is called without the client of the transaction: its insert goes through the pool. */
  function AcceptWork(id: nat, ws: nat, user: int): seq<Step<Desk, ()>> {
    [OnPool(JoinWorkspace(ws, user)), OnClient(MarkAccepted(id))]
  }

  function AcceptInvitation(k: Desk, t: Token, user: int, bcrypt: Bcrypt<Token>, first: set<nat> -> nat, now: int,
                            fails: nat -> bool, n: nat): (Desk, Result<()>)
  {
    var id := VerifyToken(k, t, bcrypt, first, now, fails, n);
    if id.Failure? then (k, Failure(id.error))
    else
      var r := Transaction(k, AcceptWork(id.value, k.invites[id.value].workspaceId, user), (), fails, n + 1);
      (r.committed, r.outcome)
  }

  function DeclineInvitation(k: Desk, t: Token, bcrypt: Bcrypt<Token>, first: set<nat> -> nat, now: int,
                             fails: nat -> bool, n: nat): (Desk, Result<()>)
  {
    var id := VerifyToken(k, t, bcrypt, first, now, fails, n);
    if id.Failure? then (k, Failure(id.error))
    else if fails(n + 1) then (k, Failure(QueryFailed))
    else (SetStatus(k, id.value, Declined), Success(()))
  }

  /** Any request of Members beside these; deleting a workspace cascades to its invitations. */
  function Manage(k: Desk, req: Members.Request, choose: set<int> -> int, fails: nat -> bool): (Desk, Result<()>) {
    var (dir2, reply) := Members.Serve(k.dir, req, choose, fails);
    (k.(dir := dir2,
        invites := map id | id in k.invites && k.invites[id].workspaceId in dir2.workspaces :: k.invites[id]),
     reply)
  }

  datatype Request =
    | Invited(user: int, ws: nat, email: string)
    | Accept(token: Token, user: int)
    | Decline(token: Token)
    | Other(req: Members.Request)

  datatype Setup = Setup(bcrypt: Bcrypt<Token>, first: set<nat> -> nat, choose: set<int> -> int)

  function Serve(k: Desk, req: Request, setup: Setup, env: Env, fails: nat -> bool): (Desk, Result<()>) {
    match req
    case Invited(user, ws, email) =>
      var allowed := Members.CanActivate(k.dir, ws, user, Some({Schema.Owner, Schema.Admin}), fails, 0);
      if allowed.Failure? then (k, allowed) else GenerateInvitation(k, ws, email, setup.bcrypt, env, fails, 1)
    case Accept(token, user) => AcceptInvitation(k, token, user, setup.bcrypt, setup.first, env.now, fails, 0)
    case Decline(token) => DeclineInvitation(k, token, setup.bcrypt, setup.first, env.now, fails, 0)
    case Other(r) => Manage(k, r, setup.choose, fails)
  }
}
