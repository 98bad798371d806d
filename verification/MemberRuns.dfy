/**
  Whole runs of role-changing requests, each one cut off by a failure wherever the schedule puts it. Every workspace
  has at most one owner throughout, and it has exactly one unless its owner has transferred ownership to themselves.
*/
module MemberRuns {
  import opened Basics
  import opened Schema
  import opened Transactions
  import opened Members
  import opened Runs

  function Owners(d: Directory, ws: nat): set<int> {
    Holding(d, ws, Owner)
  }

  ghost predicate OneOwner(d: Directory, ws: nat) {
    exists u :: Owners(d, ws) == {u}
  }

  lemma InHolding(d: Directory, ws: nat, u: int, role: Role)
    ensures u in Holding(d, ws, role) <==> RoleOf(d, ws, u) == Some(role)
  {
    if RoleOf(d, ws, u) == Some(role) {
      assert (ws, u) in d.members;
    }
  }

  // ---------------------------------------------------------------- what each query does to the owners

  lemma SetRoleOwners(d: Directory, ws: nat, user: int, role: Role, other: nat)
    ensures Owners(SetRole(d, ws, user, role), other) ==
              if other != ws || (ws, user) !in d.members then Owners(d, other)
              else if role == Owner then Owners(d, ws) + {user} else Owners(d, ws) - {user}
  {
    var d2 := SetRole(d, ws, user, role);
    forall u ensures u in Owners(d2, other) <==> RoleOf(d2, other, u) == Some(Owner)
             ensures u in Owners(d, other) <==> RoleOf(d, other, u) == Some(Owner)
    {
      InHolding(d2, other, u, Owner);
      InHolding(d, other, u, Owner);
    }
  }

  lemma DeleteMemberOwners(d: Directory, ws: nat, user: int, other: nat)
    ensures Owners(DeleteMember(d, ws, user), other) == if other != ws then Owners(d, other) else Owners(d, ws) - {user}
  {
    var d2 := DeleteMember(d, ws, user);
    forall u ensures u in Owners(d2, other) <==> RoleOf(d2, other, u) == Some(Owner)
             ensures u in Owners(d, other) <==> RoleOf(d, other, u) == Some(Owner)
    {
      InHolding(d2, other, u, Owner);
      InHolding(d, other, u, Owner);
    }
  }

  lemma AddMemberOwners(d: Directory, ws: nat, user: int, role: Role, other: nat)
    requires AddMember(d, ws, user, role).Success?
    ensures Owners(AddMember(d, ws, user, role).value, other) ==
              if other == ws && role == Owner then Owners(d, ws) + {user} else Owners(d, other)
  {
    var d2 := AddMember(d, ws, user, role).value;
    forall u ensures u in Owners(d2, other) <==> RoleOf(d2, other, u) == Some(Owner)
             ensures u in Owners(d, other) <==> RoleOf(d, other, u) == Some(Owner)
    {
      InHolding(d2, other, u, Owner);
      InHolding(d, other, u, Owner);
    }
  }

  lemma DeleteRowOwners(d: Directory, ws: nat, other: nat)
    requires other != ws
    ensures Owners(DeleteRow(d, ws), other) == Owners(d, other)
  {
    var d2 := DeleteRow(d, ws);
    forall u ensures u in Owners(d2, other) <==> RoleOf(d2, other, u) == Some(Owner)
             ensures u in Owners(d, other) <==> RoleOf(d, other, u) == Some(Owner)
    {
      InHolding(d2, other, u, Owner);
      InHolding(d, other, u, Owner);
    }
  }

  // ---------------------------------------------------------------- the two transactions

  /** The member who becomes owner when changeOwner gets through. */
  function Successor(d: Directory, ws: nat, target: Option<int>, choose: set<int> -> int): int {
    if target.Some? then target.value else choose(Holding(d, ws, Admin))
  }

  predicate CanSucceed(d: Directory, ws: nat, target: Option<int>) {
    if target.Some? then RoleOf(d, ws, target.value).Some? else Holding(d, ws, Admin) != {}
  }

  function Handed(d: Directory, current: int, ws: nat, successor: int): Directory {
    SetRole(SetRole(d, ws, successor, Owner), ws, current, Admin)
  }

  lemma FixedTargetInOneGo(d: Directory, current: int, ws: nat, target: int, choose: set<int> -> int)
    ensures InOneGo(ChangeOwnerWork(current, ws, Some(target), choose), d, target) ==
              if RoleOf(d, ws, target).Some? then Answered(Handed(d, current, ws, target), target) else Threw(NotFound)
  {
    var work := ChangeOwnerWork(current, ws, Some(target), choose);
    assert work == [OnClient(RequireMember(ws)), OnClient(Promote(ws)), OnClient(Demote(ws, current))];
    if RoleOf(d, ws, target).Some? {
      assert work[1..] == [OnClient(Promote(ws)), OnClient(Demote(ws, current))];
      assert work[1..][1..] == [OnClient(Demote(ws, current))];
      var d2 := SetRole(d, ws, target, Owner);
      assert InOneGo(work[1..][1..], d2, target) == Answered(SetRole(d2, ws, current, Admin), target);
      assert InOneGo(work[1..], d, target) == InOneGo(work[1..][1..], d2, target);
    }
  }

  lemma RandomAdminInOneGo(d: Directory, current: int, ws: nat, choose: set<int> -> int)
    requires IsChoice(choose)
    ensures InOneGo(ChangeOwnerWork(current, ws, None, choose), d, 0) ==
              if Holding(d, ws, Admin) == {} then Threw(Conflict)
              else var a := choose(Holding(d, ws, Admin)); Answered(Handed(d, current, ws, a), a)
  {
    var work := ChangeOwnerWork(current, ws, None, choose);
    if Holding(d, ws, Admin) != {} {
      var a := choose(Holding(d, ws, Admin));
      InHolding(d, ws, a, Admin);
      assert work[1..] == ChangeOwnerWork(current, ws, Some(a), choose);
      FixedTargetInOneGo(d, current, ws, a, choose);
    }
  }

  /** changeOwner hands over completely or does nothing. */
  lemma ChangeOwnerOutcome(d: Directory, current: int, ws: nat, target: Option<int>, choose: set<int> -> int,
                           fails: nat -> bool, n: nat)
    requires IsChoice(choose)
    ensures var r := ChangeOwner(d, current, ws, target, choose, fails, n);
            && (r.outcome.Success? ==>
                  CanSucceed(d, ws, target) && r.committed == Handed(d, current, ws, Successor(d, ws, target, choose)))
            && (r.outcome.Failure? ==> r.committed == d)
            && (NoFault(fails, n, 7) ==> (r.outcome.Success? <==> CanSucceed(d, ws, target)))
            && (NoFault(fails, n, 7) && target.None? && !CanSucceed(d, ws, target) ==> r.outcome == Failure(Conflict))
  {
    var work := ChangeOwnerWork(current, ws, target, choose);
    AllOrNothing(d, work, if target.Some? then target.value else 0, fails, n);
    if target.Some? {
      FixedTargetInOneGo(d, current, ws, target.value, choose);
    } else {
      RandomAdminInOneGo(d, current, ws, choose);
    }
    if NoFault(fails, n, 7) {
      assert NoFault(fails, n, |work| + 3);
      assert !fails(n) && !fails(n + 1) && !fails(n + 2) && !fails(n + 3);
    }
  }

  lemma CreateWorkspaceOutcome(d: Directory, user: int, fails: nat -> bool, n: nat)
    ensures var r := CreateWorkspace(d, user, fails, n);
            && (r.outcome.Success? ==>
                  && r.outcome.value == d.nextWorkspace && (d.nextWorkspace, user) !in d.members
                  && r.committed == Directory(d.workspaces + {d.nextWorkspace}, d.nextWorkspace + 1,
                                              d.members[(d.nextWorkspace, user) := Owner]))
            && (r.outcome.Failure? ==> r.committed == d)
  {
    var work := CreateWorkspaceWork(user);
    AllOrNothing(d, work, 0, fails, n);
    var d1 := d.(workspaces := d.workspaces + {d.nextWorkspace}, nextWorkspace := d.nextWorkspace + 1);
    var id := d.nextWorkspace;
    assert work[0].act(d, 0) == Answered(d1, id);
    var rest := work[1..];
    assert rest == [OnClient(InsertOwner(user))];
    assert rest[1..] == [];
    assert InOneGo(work, d, 0) == InOneGo(rest, d1, id);
    if (id, user) in d1.members {
      assert rest[0].act(d1, id) == Threw(QueryFailed);
      assert InOneGo(rest, d1, id) == Threw(QueryFailed);
    } else {
      var d2 := d1.(members := d1.members[(id, user) := Owner]);
      assert rest[0].act(d1, id) == Answered(d2, id);
      assert InOneGo(rest, d1, id) == InOneGo(rest[1..], d2, id);
      assert InOneGo(rest[1..], d2, id) == Answered(d2, id);
    }
  }

  // ---------------------------------------------------------------- runs

  /** choose is the row that LIMIT 1 without ORDER BY returns in this call; the next call may find another order. */
  datatype Call = Call(req: Request, fails: nat -> bool, choose: set<int> -> int)

  /** handedAway is history: the workspaces whose owner made themselves the target of a transfer that succeeded. */
  datatype World = World(dir: Directory, handedAway: set<nat>)

  predicate IsSelfTransfer(req: Request) {
    req.Update? && req.member == req.user && req.role == Owner
  }

  function Step(w: World, call: Call): World {
    var (dir, reply) := Serve(w.dir, call.req, call.choose, call.fails);
    World(dir, if IsSelfTransfer(call.req) && reply.Success? then w.handedAway + {call.req.ws} else w.handedAway)
  }

  function Next(): (World, Call) -> World {
    (w: World, call: Call) => Step(w, call)
  }

  ghost function Legal(): (World, Call) -> bool {
    (w: World, call: Call) => IsChoice(call.choose)
  }

  ghost predicate IsRun(calls: seq<Call>) {
    forall k :: 0 <= k < |calls| ==> IsChoice(calls[k].choose)
  }

  ghost predicate WellFormed(d: Directory) {
    && (forall ws :: ws in d.workspaces ==> ws < d.nextWorkspace)
    && (forall k :: k in d.members ==> k.0 in d.workspaces)
  }

  ghost predicate OwnedUnlessHandedAway(d: Directory, handedAway: set<nat>, ws: nat) {
    if ws in handedAway then Owners(d, ws) == {} else OneOwner(d, ws)
  }

  ghost predicate Sound(w: World) {
    && WellFormed(w.dir)
    && (forall ws :: ws in w.handedAway ==> ws < w.dir.nextWorkspace)
    && (forall ws :: ws in w.dir.workspaces ==> OwnedUnlessHandedAway(w.dir, w.handedAway, ws))
  }

  lemma HandedOwners(d: Directory, current: int, ws: nat, successor: int, other: nat)
    requires RoleOf(d, ws, successor).Some? && Owners(d, ws) == {current}
    ensures Owners(Handed(d, current, ws, successor), other) ==
              if other != ws then Owners(d, other) else if successor == current then {} else {successor}
  {
    InHolding(d, ws, current, Owner);
    SetRoleOwners(d, ws, successor, Owner, other);
    SetRoleOwners(SetRole(d, ws, successor, Owner), ws, current, Admin, other);
  }

  lemma TheOwner(w: World, ws: nat, user: int)
    requires Sound(w) && RoleOf(w.dir, ws, user) == Some(Owner)
    ensures ws in w.dir.workspaces && ws !in w.handedAway && Owners(w.dir, ws) == {user}
  {
    assert (ws, user) in w.dir.members;
    InHolding(w.dir, ws, user, Owner);
    assert OwnedUnlessHandedAway(w.dir, w.handedAway, ws);
  }

  lemma AdminIsNotOwner(w: World, ws: nat, choose: set<int> -> int, user: int)
    requires IsChoice(choose) && Holding(w.dir, ws, Admin) != {} && RoleOf(w.dir, ws, user) == Some(Owner)
    ensures var a := choose(Holding(w.dir, ws, Admin)); a != user && RoleOf(w.dir, ws, a) == Some(Admin)
  {
    InHolding(w.dir, ws, choose(Holding(w.dir, ws, Admin)), Admin);
  }

  /** Whatever a step does, it leaves these facts about the tables' shape. */
  lemma ShapeStep(d: Directory, req: Request, choose: set<int> -> int, fails: nat -> bool)
    requires WellFormed(d) && IsChoice(choose)
    ensures var d2 := Serve(d, req, choose, fails).0;
            WellFormed(d2) && d.nextWorkspace <= d2.nextWorkspace
  {
    match req
    case Create(user) => CreateWorkspaceOutcome(d, user, fails, 0);
    case Delete(user, ws) =>
    case Remove(user, ws, member) => ChangeOwnerOutcome(d, user, ws, None, choose, fails, 3);
    case Update(user, ws, member, role) =>
      ChangeOwnerOutcome(d, user, ws, if role == Owner then Some(member) else None, choose, fails, 1);
    case Join(user, ws) =>
  }

  lemma CreateStep(w: World, user: int, fails: nat -> bool, choose: set<int> -> int)
    requires Sound(w)
    ensures var w2 := Step(w, Call(Create(user), fails, choose));
            forall ws :: ws in w2.dir.workspaces ==> OwnedUnlessHandedAway(w2.dir, w2.handedAway, ws)
  {
    CreateWorkspaceOutcome(w.dir, user, fails, 0);
    var w2 := Step(w, Call(Create(user), fails, choose));
    if w2.dir != w.dir {
      var made := w.dir.nextWorkspace;
      forall ws | ws in w2.dir.workspaces ensures OwnedUnlessHandedAway(w2.dir, w2.handedAway, ws) {
        var d1 := w.dir.(workspaces := w.dir.workspaces + {made}, nextWorkspace := made + 1);
        AddMemberOwners(d1, made, user, Owner, ws);
        assert Owners(d1, ws) == Owners(w.dir, ws);
        if ws == made {
          forall u ensures u !in Owners(w.dir, ws) {
            InHolding(w.dir, ws, u, Owner);
          }
          assert Owners(w2.dir, ws) == {user};
        } else {
          assert OwnedUnlessHandedAway(w.dir, w.handedAway, ws);
        }
      }
    }
  }

  lemma DeleteStep(w: World, user: int, ws: nat, fails: nat -> bool, choose: set<int> -> int, other: nat)
    requires Sound(w)
    ensures var w2 := Step(w, Call(Delete(user, ws), fails, choose));
            other in w2.dir.workspaces ==> OwnedUnlessHandedAway(w2.dir, w2.handedAway, other)
  {
    if other in w.dir.workspaces && other != ws {
      DeleteRowOwners(w.dir, ws, other);
      assert OwnedUnlessHandedAway(w.dir, w.handedAway, other);
    }
  }

  /** The three ways a removal can end in the table: nothing, the plain DELETE of someone who is not the acting owner,
      or the hand-over with or without the DELETE of the leaver. */
  lemma RemoveOutcome(d: Directory, user: int, ws: nat, member: int, fails: nat -> bool, choose: set<int> -> int)
    requires IsChoice(choose)
    ensures var d2 := Serve(d, Remove(user, ws, member), choose, fails).0;
            var userRole, memberRole := RoleOf(d, ws, user), RoleOf(d, ws, member);
            var handed := Handed(d, user, ws, choose(Holding(d, ws, Admin)));
            || d2 == d
            || (d2 == DeleteMember(d, ws, member) && userRole.Some? && memberRole.Some?
                && !MayNotRemove(userRole, memberRole.value, user == member)
                && !(userRole == Some(Owner) && user == member))
            || (userRole == Some(Owner) && user == member && Holding(d, ws, Admin) != {}
                && (d2 == handed || d2 == DeleteMember(handed, ws, user)))
  {
    ChangeOwnerOutcome(d, user, ws, None, choose, fails, 3);
  }

  lemma LeaverHandsOver(w: World, user: int, ws: nat, choose: set<int> -> int, other: nat)
    requires Sound(w) && IsChoice(choose) && RoleOf(w.dir, ws, user) == Some(Owner)
    requires Holding(w.dir, ws, Admin) != {} && other in w.dir.workspaces
    ensures var handed := Handed(w.dir, user, ws, choose(Holding(w.dir, ws, Admin)));
            && OwnedUnlessHandedAway(handed, w.handedAway, other)
            && OwnedUnlessHandedAway(DeleteMember(handed, ws, user), w.handedAway, other)
  {
    var a := choose(Holding(w.dir, ws, Admin));
    assert OwnedUnlessHandedAway(w.dir, w.handedAway, other);
    TheOwner(w, ws, user);
    AdminIsNotOwner(w, ws, choose, user);
    HandedOwners(w.dir, user, ws, a, other);
    DeleteMemberOwners(Handed(w.dir, user, ws, a), ws, user, other);
    if other == ws {
      assert Owners(DeleteMember(Handed(w.dir, user, ws, a), ws, user), ws) == {a};
    }
  }

  lemma NonOwnerDeleted(w: World, ws: nat, member: int, other: nat)
    requires Sound(w) && other in w.dir.workspaces && RoleOf(w.dir, ws, member) != Some(Owner)
    ensures OwnedUnlessHandedAway(DeleteMember(w.dir, ws, member), w.handedAway, other)
  {
    assert OwnedUnlessHandedAway(w.dir, w.handedAway, other);
    InHolding(w.dir, ws, member, Owner);
    DeleteMemberOwners(w.dir, ws, member, other);
    assert Owners(DeleteMember(w.dir, ws, member), other) == Owners(w.dir, other);
  }

  lemma RemoveStep(w: World, user: int, ws: nat, member: int, fails: nat -> bool, choose: set<int> -> int, other: nat)
    requires Sound(w) && IsChoice(choose) && other in w.dir.workspaces
    ensures OwnedUnlessHandedAway(Serve(w.dir, Remove(user, ws, member), choose, fails).0, w.handedAway, other)
  {
    var d2 := Serve(w.dir, Remove(user, ws, member), choose, fails).0;
    RemoveOutcome(w.dir, user, ws, member, fails, choose);
    if d2 == w.dir {
    } else if RoleOf(w.dir, ws, user) == Some(Owner) && user == member {
      LeaverHandsOver(w, user, ws, choose, other);
    } else {
      if RoleOf(w.dir, ws, member) == Some(Owner) {
        TheOwner(w, ws, member);
        InHolding(w.dir, ws, user, Owner);
      }
      NonOwnerDeleted(w, ws, member, other);
    }
  }

  lemma TransferStep(w: World, user: int, ws: nat, target: Option<int>, fails: nat -> bool, n: nat,
                     choose: set<int> -> int, other: nat)
    requires Sound(w) && IsChoice(choose) && RoleOf(w.dir, ws, user) == Some(Owner) && other in w.dir.workspaces
    ensures var r := ChangeOwner(w.dir, user, ws, target, choose, fails, n);
            var self := target == Some(user) && r.outcome.Success?;
            OwnedUnlessHandedAway(r.committed, if self then w.handedAway + {ws} else w.handedAway, other)
  {
    assert OwnedUnlessHandedAway(w.dir, w.handedAway, other);
    TheOwner(w, ws, user);
    ChangeOwnerOutcome(w.dir, user, ws, target, choose, fails, n);
    if CanSucceed(w.dir, ws, target) {
      if target.None? {
        AdminIsNotOwner(w, ws, choose, user);
      }
      HandedOwners(w.dir, user, ws, Successor(w.dir, ws, target, choose), other);
    }
  }

  lemma PlainRoleStep(w: World, user: int, ws: nat, member: int, role: Role, other: nat)
    requires Sound(w) && RoleOf(w.dir, ws, user) == Some(Owner) && role != Owner && user != member
    requires other in w.dir.workspaces
    ensures OwnedUnlessHandedAway(SetRole(w.dir, ws, member, role), w.handedAway, other)
  {
    assert OwnedUnlessHandedAway(w.dir, w.handedAway, other);
    TheOwner(w, ws, user);
    InHolding(w.dir, ws, member, Owner);
    SetRoleOwners(w.dir, ws, member, role, other);
  }

  lemma TransferKeepsWorkspaces(d: Directory, user: int, ws: nat, target: Option<int>, fails: nat -> bool, n: nat,
                                choose: set<int> -> int)
    requires IsChoice(choose)
    ensures ChangeOwner(d, user, ws, target, choose, fails, n).committed.workspaces == d.workspaces
  {
    ChangeOwnerOutcome(d, user, ws, target, choose, fails, n);
  }

  lemma UpdateStep(w: World, user: int, ws: nat, member: int, role: Role, fails: nat -> bool,
                   choose: set<int> -> int, other: nat)
    requires Sound(w) && IsChoice(choose)
    ensures var w2 := Step(w, Call(Update(user, ws, member, role), fails, choose));
            other in w2.dir.workspaces ==> OwnedUnlessHandedAway(w2.dir, w2.handedAway, other)
  {
    var target := if role == Owner then Some(member) else None;
    TransferKeepsWorkspaces(w.dir, user, ws, target, fails, 1, choose);
    if other in w.dir.workspaces {
      assert OwnedUnlessHandedAway(w.dir, w.handedAway, other);
      if RoleOf(w.dir, ws, user) == Some(Owner) {
        TransferStep(w, user, ws, target, fails, 1, choose, other);
        if role != Owner && user != member {
          PlainRoleStep(w, user, ws, member, role, other);
        }
      }
    }
  }

  lemma JoinStep(w: World, user: int, ws: nat, fails: nat -> bool, choose: set<int> -> int, other: nat)
    requires Sound(w)
    ensures var w2 := Step(w, Call(Join(user, ws), fails, choose));
            other in w2.dir.workspaces ==> OwnedUnlessHandedAway(w2.dir, w2.handedAway, other)
  {
    assert other in w.dir.workspaces ==> OwnedUnlessHandedAway(w.dir, w.handedAway, other);
    if AddMember(w.dir, ws, user, Member).Success? {
      AddMemberOwners(w.dir, ws, user, Member, other);
    }
  }

  lemma HandedAwayStep(w: World, call: Call)
    requires Sound(w) && IsChoice(call.choose)
    ensures forall ws :: ws in Step(w, call).handedAway ==> ws < Step(w, call).dir.nextWorkspace
  {
    ShapeStep(w.dir, call.req, call.choose, call.fails);
    if IsSelfTransfer(call.req) && RoleOf(w.dir, call.req.ws, call.req.user) == Some(Owner) {
      TheOwner(w, call.req.ws, call.req.user);
    }
  }

  lemma SoundStep(w: World, call: Call)
    requires Sound(w) && IsChoice(call.choose)
    ensures Sound(Step(w, call))
  {
    ShapeStep(w.dir, call.req, call.choose, call.fails);
    HandedAwayStep(w, call);
    var w2 := Step(w, call);
    forall other | other in w2.dir.workspaces ensures OwnedUnlessHandedAway(w2.dir, w2.handedAway, other) {
      match call.req
      case Create(user) => CreateStep(w, user, call.fails, call.choose);
      case Delete(user, ws) => DeleteStep(w, user, ws, call.fails, call.choose, other);
      case Remove(user, ws, member) =>
        RemoveOutcome(w.dir, user, ws, member, call.fails, call.choose);
        RemoveStep(w, user, ws, member, call.fails, call.choose, other);
      case Update(user, ws, member, role) => UpdateStep(w, user, ws, member, role, call.fails, call.choose, other);
      case Join(user, ws) => JoinStep(w, user, ws, call.fails, call.choose, other);
    }
  }

  function Start(): World {
    World(NOBODY, {})
  }

  ghost function SoundOf(): World -> bool {
    w => Sound(w)
  }

  lemma ReachableSound(calls: seq<Call>)
    requires IsRun(calls)
    ensures Sound(After(Next(), Start(), calls))
  {
    forall w: World, call: Call | SoundOf()(w) && Legal()(w, call) ensures SoundOf()(Next()(w, call)) {
      SoundStep(w, call);
    }
    InvariantAlong(Next(), Legal(), SoundOf(), Start(), calls);
  }

  /** In every run, at every cut point: a live workspace has exactly one owner if and only if its owner never
      completed a transfer to themselves; otherwise it has none. It never has two. */
  lemma OneOwnerUnlessSelfTransfer(calls: seq<Call>, ws: nat)
    requires IsRun(calls) && ws in After(Next(), Start(), calls).dir.workspaces
    ensures var w := After(Next(), Start(), calls);
            && (OneOwner(w.dir, ws) <==> ws !in w.handedAway)
            && (Owners(w.dir, ws) == {} <==> ws in w.handedAway)
            && |Owners(w.dir, ws)| <= 1
  {
    ReachableSound(calls);
    var w := After(Next(), Start(), calls);
    assert OwnedUnlessHandedAway(w.dir, w.handedAway, ws);
  }

  /** What handedAway records: exactly the workspaces named in an answered self-transfer of the run. */
  lemma {:induction false} HandedAwayIsHistory(calls: seq<Call>, ws: nat)
    ensures ws in After(Next(), Start(), calls).handedAway <==>
              exists k :: 0 <= k < |calls| && IsSelfTransfer(calls[k].req) && calls[k].req.ws == ws
                          && Serve(After(Next(), Start(), calls[..k]).dir, calls[k].req, calls[k].choose,
                                   calls[k].fails).1.Success?
    decreases |calls|
  {
    if calls != [] {
      var before := calls[..|calls| - 1];
      HandedAwayIsHistory(before, ws);
      forall k | 0 <= k < |before| ensures before[..k] == calls[..k] && before[k] == calls[k] {}
    }
  }

  // ---------------------------------------------------------------- single requests

  /** The transfer whose target is the acting owner, with no fault at all, leaves the workspace without an owner:
      the second UPDATE undoes the first. */
  lemma SelfTransferOrphans(w: World, ws: nat, user: int, fails: nat -> bool, choose: set<int> -> int)
    requires Sound(w) && IsChoice(choose) && RoleOf(w.dir, ws, user) == Some(Owner) && NoFault(fails, 0, 8)
    ensures var (d2, reply) := Serve(w.dir, Update(user, ws, user, Owner), choose, fails);
            reply.Success? && Owners(d2, ws) == {} && RoleOf(d2, ws, user) == Some(Admin)
  {
    TheOwner(w, ws, user);
    assert !fails(0);
    assert NoFault(fails, 1, 7);
    ChangeOwnerOutcome(w.dir, user, ws, Some(user), choose, fails, 1);
    HandedOwners(w.dir, user, ws, user, ws);
  }

  lemma LeavingServed(d: Directory, ws: nat, user: int, fails: nat -> bool, choose: set<int> -> int)
    requires IsChoice(choose) && user != 0 && RoleOf(d, ws, user) == Some(Owner) && forall k :: !fails(k)
    ensures Serve(d, Remove(user, ws, user), choose, fails) ==
              if Holding(d, ws, Admin) == {} then (d, Failure(Conflict))
              else (DeleteMember(Handed(d, user, ws, choose(Holding(d, ws, Admin))), ws, user), Success(()))
  {
    assert NoFault(fails, 3, 7);
    ChangeOwnerOutcome(d, user, ws, None, choose, fails, 3);
  }

  lemma SwappedAndDeleted(d: Directory, ws: nat, user: int, a: int)
    requires a != user && (ws, a) in d.members && (ws, user) in d.members
    ensures var d2 := DeleteMember(Handed(d, user, ws, a), ws, user);
            && d2 == d.(members := d.members[(ws, a) := Owner] - {(ws, user)})
            && |d2.members| == |d.members| - 1
  {
    var m2 := d.members[(ws, a) := Owner] - {(ws, user)};
    assert DeleteMember(Handed(d, user, ws, a), ws, user).members == m2;
    assert m2.Keys == d.members.Keys - {(ws, user)};
    assert |m2.Keys| == |d.members.Keys| - 1;
    assert |m2| == |m2.Keys| && |d.members| == |d.members.Keys|;
  }

  /** With no query failing, an owner leaves exactly when the workspace has an admin. One former admin is then the
      sole owner, the leaver is gone, every other row is as it was, and there is one row less; otherwise nothing
      changes and the owner is told there is a conflict. */
  lemma OwnerLeaves(w: World, ws: nat, user: int, fails: nat -> bool, choose: set<int> -> int)
    requires Sound(w) && IsChoice(choose) && user != 0 && RoleOf(w.dir, ws, user) == Some(Owner)
    requires forall k :: !fails(k)
    ensures var (d2, reply) := Serve(w.dir, Remove(user, ws, user), choose, fails);
            && (reply.Success? <==> Holding(w.dir, ws, Admin) != {})
            && (reply.Success? ==>
                  exists a :: RoleOf(w.dir, ws, a) == Some(Admin) && Owners(d2, ws) == {a}
                              && d2 == w.dir.(members := w.dir.members[(ws, a) := Owner] - {(ws, user)})
                              && |d2.members| == |w.dir.members| - 1)
            && (reply.Failure? ==> d2 == w.dir && reply.error == Conflict)
  {
    LeavingServed(w.dir, ws, user, fails, choose);
    TheOwner(w, ws, user);
    if Holding(w.dir, ws, Admin) != {} {
      var a := choose(Holding(w.dir, ws, Admin));
      AdminIsNotOwner(w, ws, choose, user);
      SwappedAndDeleted(w.dir, ws, user, a);
      LeaverHandsOver(w, user, ws, choose, ws);
      HandedOwners(w.dir, user, ws, a, ws);
      DeleteMemberOwners(Handed(w.dir, user, ws, a), ws, user, ws);
      assert RoleOf(w.dir, ws, a) == Some(Admin);
    }
  }

  /** createWorkspace, with any query failing: either nothing is committed, or a new workspace together with the row
      that makes its creator the owner. */
  lemma CreatedWithOwner(d: Directory, user: int, fails: nat -> bool, choose: set<int> -> int)
    requires WellFormed(d)
    ensures var d2 := Serve(d, Create(user), choose, fails).0;
            && (forall ws :: ws in d2.workspaces - d.workspaces ==> RoleOf(d2, ws, user) == Some(Owner))
            && (d2 == d || d2.workspaces - d.workspaces == {d.nextWorkspace})
  {
    CreateWorkspaceOutcome(d, user, fails, 0);
  }
}
