/**
  Membership and ownership: the requests of MemberService and WorkspaceService that change roles, with any query
  failing anywhere. The members table is keyed by its unique pair (workspace_id, member).
*/
module Members {
  import opened Basics
  import opened Schema
  import opened Transactions

  datatype Directory = Directory(workspaces: set<nat>, nextWorkspace: nat, members: map<(nat, int), Role>)

  const NOBODY := Directory({}, 1, map[])

  // ---------------------------------------------------------------- single queries

  function RoleOf(d: Directory, ws: nat, user: int): Option<Role> {
    if (ws, user) in d.members then Some(d.members[(ws, user)]) else None
  }

  function Holding(d: Directory, ws: nat, role: Role): set<int> {
    set k | k in d.members && k.0 == ws && d.members[k] == role :: k.1
  }

  /** INSERT INTO members: the pair is unique and the workspace must exist. */
  function AddMember(d: Directory, ws: nat, user: int, role: Role): Result<Directory> {
    if (ws, user) in d.members || ws !in d.workspaces then Failure(QueryFailed)
    else Success(d.(members := d.members[(ws, user) := role]))
  }

  function SetRole(d: Directory, ws: nat, user: int, role: Role): Directory {
    if (ws, user) in d.members then d.(members := d.members[(ws, user) := role]) else d
  }

  function DeleteMember(d: Directory, ws: nat, user: int): Directory {
    d.(members := d.members - {(ws, user)})
  }

  /** DELETE FROM workspaces, with the cascade to members. */
  function DeleteRow(d: Directory, ws: nat): Directory {
    d.(workspaces := d.workspaces - {ws}, members := map k | k in d.members && k.0 != ws :: d.members[k])
  }

  // ---------------------------------------------------------------- changeOwner

  function SelectRandomAdmin(ws: nat, choose: set<int> -> int): (Directory, int) -> Reply<Directory, int> {
    (d: Directory, owner: int) =>
      if Holding(d, ws, Admin) == {} then Threw(Conflict) else Answered(d, choose(Holding(d, ws, Admin)))
  }

  function RequireMember(ws: nat): (Directory, int) -> Reply<Directory, int> {
    (d: Directory, owner: int) => if RoleOf(d, ws, owner).None? then Threw(NotFound) else Answered(d, owner)
  }

  function Promote(ws: nat): (Directory, int) -> Reply<Directory, int> {
    (d: Directory, owner: int) => Answered(SetRole(d, ws, owner, Owner), owner)
  }

  function Demote(ws: nat, current: int): (Directory, int) -> Reply<Directory, int> {
    (d: Directory, owner: int) => Answered(SetRole(d, ws, current, Admin), owner)
  }

  /** The queries of the transaction; the local variable they share is the id of the new owner. */
  function ChangeOwnerWork(current: int, ws: nat, target: Option<int>, choose: set<int> -> int)
    : seq<Step<Directory, int>>
  {
    (if target.None? then [OnClient(SelectRandomAdmin(ws, choose))] else [])
    + [OnClient(RequireMember(ws)), OnClient(Promote(ws)), OnClient(Demote(ws, current))]
  }

  function ChangeOwner(d: Directory, current: int, ws: nat, target: Option<int>, choose: set<int> -> int,
                       fails: nat -> bool, n: nat): Ran<Directory, int>
  {
    Transaction(d, ChangeOwnerWork(current, ws, target, choose), if target.Some? then target.value else 0, fails, n)
  }

  // ---------------------------------------------------------------- requests

  predicate MayNotRemove(userRole: Option<Role>, memberRole: Role, same: bool) {
    || (userRole == Some(Admin) && (memberRole == Owner || (memberRole == Admin && !same)))
    || (userRole == Some(Member) && (memberRole != Member || !same))
  }

  function RemoveMember(d: Directory, user: int, ws: nat, member: int, choose: set<int> -> int,
                        fails: nat -> bool, n: nat): (Directory, Result<()>)
  {
    if member == 0 then (d, Failure(BadRequest))
    else if fails(n) || fails(n + 1) then (d, Failure(QueryFailed))
    else
      var userRole, memberRole := RoleOf(d, ws, user), RoleOf(d, ws, member);
      if memberRole.None? then (d, Failure(NotFound))
      else if MayNotRemove(userRole, memberRole.value, user == member) then (d, Failure(Forbidden))
      else if userRole == Some(Owner) && user == member then
        var r := ChangeOwner(d, user, ws, None, choose, fails, n + 2);
        if r.outcome.Failure? then (r.committed, Failure(r.outcome.error))
        else if fails(r.next) then (r.committed, Failure(QueryFailed))
        else (DeleteMember(r.committed, ws, member), Success(()))
      else if fails(n + 2) then (d, Failure(QueryFailed))
      else (DeleteMember(d, ws, member), Success(()))
  }

  /** The role asked for is lost on the last owner who gives up ownership: the code makes them admin either way. */
  function UpdateRole(d: Directory, user: int, ws: nat, member: int, role: Role, choose: set<int> -> int,
                      fails: nat -> bool, n: nat): (Directory, Result<()>)
  {
    if role == Owner || user == member then
      var r := ChangeOwner(d, user, ws, if role == Owner then Some(member) else None, choose, fails, n);
      (r.committed, if r.outcome.Failure? then Failure(r.outcome.error) else Success(()))
    else if fails(n) then (d, Failure(QueryFailed))
    else if RoleOf(d, ws, member).None? then (d, Failure(NotFound))
    else (SetRole(d, ws, member, role), Success(()))
  }

  function InsertWorkspace(): (Directory, nat) -> Reply<Directory, nat> {
    (d: Directory, id: nat) =>
      Answered(d.(workspaces := d.workspaces + {d.nextWorkspace}, nextWorkspace := d.nextWorkspace + 1),
               d.nextWorkspace)
  }

  function InsertOwner(user: int): (Directory, nat) -> Reply<Directory, nat> {
    (d: Directory, id: nat) =>
      match AddMember(d, id, user, Owner)
      case Failure(error) => Threw(error)
      case Success(d2) => Answered(d2, id)
  }

  function CreateWorkspaceWork(user: int): seq<Step<Directory, nat>> {
    [OnClient(InsertWorkspace()), OnClient(InsertOwner(user))]
  }

  function CreateWorkspace(d: Directory, user: int, fails: nat -> bool, n: nat): Ran<Directory, nat> {
    Transaction(d, CreateWorkspaceWork(user), 0, fails, n)
  }

  function DeleteWorkspace(d: Directory, ws: nat, fails: nat -> bool, n: nat): (Directory, Result<()>) {
    if fails(n) then (d, Failure(QueryFailed))
    else if ws !in d.workspaces then (d, Failure(NotFound))
    else (DeleteRow(d, ws), Success(()))
  }

  /** WorkspaceGuard: a member of the workspace, with one of the required roles where the route names any. */
  function CanActivate(d: Directory, ws: nat, user: int, required: Option<set<Role>>, fails: nat -> bool, n: nat)
    : Result<()>
  {
    if fails(n) then Failure(QueryFailed)
    else
      var role := RoleOf(d, ws, user);
      if role.None? || (required.Some? && role.value !in required.value) then Failure(Forbidden) else Success(())
  }

  datatype Request =
    | Create(user: int)
    | Delete(user: int, ws: nat)
    | Remove(user: int, ws: nat, member: int)
    | Update(user: int, ws: nat, member: int, role: Role)
    | Join(user: int, ws: nat)      // the insert of acceptInvitation

  /** A request as it arrives at its controller, guard first. */
  function Serve(d: Directory, req: Request, choose: set<int> -> int, fails: nat -> bool): (Directory, Result<()>) {
    match req
    case Create(user) =>
      var r := CreateWorkspace(d, user, fails, 0);
      (r.committed, if r.outcome.Failure? then Failure(r.outcome.error) else Success(()))
    case Delete(user, ws) =>
      var allowed := CanActivate(d, ws, user, Some({Owner}), fails, 0);
      if allowed.Failure? then (d, allowed) else DeleteWorkspace(d, ws, fails, 1)
    case Remove(user, ws, member) =>
      var allowed := CanActivate(d, ws, user, None, fails, 0);
      if allowed.Failure? then (d, allowed) else RemoveMember(d, user, ws, member, choose, fails, 1)
    case Update(user, ws, member, role) =>
      var allowed := CanActivate(d, ws, user, Some({Owner}), fails, 0);
      if allowed.Failure? then (d, allowed) else UpdateRole(d, user, ws, member, role, choose, fails, 1)
    case Join(user, ws) =>
      if fails(0) then (d, Failure(QueryFailed))
      else
        match AddMember(d, ws, user, Member)
        case Failure(error) => (d, Failure(error))
        case Success(d2) => (d2, Success(()))
  }
}
