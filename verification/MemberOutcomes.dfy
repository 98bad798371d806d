/**
  What each request on members and workspaces answers and leaves in the table, row by row: who is let through, when it
  succeeds, and the whole table after it. A request that is answered with an error has changed nothing, except for the
  owner who leaves and whose own row could not be deleted after the hand-over.
*/
module MemberOutcomes {
  import opened Basics
  import opened Schema
  import opened Transactions
  import opened Members
  import opened MemberRuns

  ghost predicate NoneFails(fails: nat -> bool) {
    forall n: nat :: !fails(n)
  }

  /** The guard lets through exactly the members who hold one of the roles asked for. */
  lemma GuardLetsThrough(d: Directory, ws: nat, user: int, required: Option<set<Role>>, fails: nat -> bool, n: nat)
    ensures CanActivate(d, ws, user, required, fails, n).Success? <==>
              !fails(n) && (ws, user) in d.members && (required.Some? ==> d.members[(ws, user)] in required.value)
    ensures !fails(n) && CanActivate(d, ws, user, required, fails, n).Failure? ==>
              CanActivate(d, ws, user, required, fails, n) == Failure(Forbidden)
  {
  }

  /** The new role of an ordinary change is the one asked for, and no other row is touched. Only the owner may. */
  lemma RoleChangeServed(d: Directory, user: int, ws: nat, member: int, role: Role, choose: set<int> -> int,
                         fails: nat -> bool)
    requires role != Owner && member != user
    ensures var (d2, r) := Serve(d, Update(user, ws, member, role), choose, fails);
            && (r.Success? ==>
                  && (ws, user) in d.members && d.members[(ws, user)] == Owner && (ws, member) in d.members
                  && d2 == d.(members := d.members[(ws, member) := role]))
            && (r.Failure? ==> d2 == d)
            && (NoneFails(fails) ==>
                  (r.Success? <==>
                     (ws, user) in d.members && d.members[(ws, user)] == Owner && (ws, member) in d.members))
            && (NoneFails(fails) && r.Failure? ==>
                  r.error == if (ws, user) in d.members && d.members[(ws, user)] == Owner then NotFound else Forbidden)
  {
  }

  /** A transfer: the target becomes owner, and then the acting owner becomes admin. */
  lemma TransferServed(d: Directory, user: int, ws: nat, member: int, choose: set<int> -> int, fails: nat -> bool)
    requires IsChoice(choose)
    ensures var (d2, r) := Serve(d, Update(user, ws, member, Owner), choose, fails);
            && (r.Success? ==>
                  && (ws, user) in d.members && d.members[(ws, user)] == Owner && (ws, member) in d.members
                  && d2 == d.(members := d.members[(ws, member) := Owner][(ws, user) := Admin]))
            && (r.Failure? ==> d2 == d)
            && (NoneFails(fails) ==>
                  (r.Success? <==>
                     (ws, user) in d.members && d.members[(ws, user)] == Owner && (ws, member) in d.members))
            && (NoneFails(fails) && r.Failure? ==>
                  r.error == if (ws, user) in d.members && d.members[(ws, user)] == Owner then NotFound else Forbidden)
  {
    ChangeOwnerOutcome(d, user, ws, Some(member), choose, fails, 1);
    FixedTargetInOneGo(d, user, ws, member, choose);
    if NoneFails(fails) && (ws, member) !in d.members {
      ErrorPassedOn(d, ChangeOwnerWork(user, ws, Some(member), choose), member, NotFound, fails, 1);
    }
  }

  /** An owner who steps down: some admin becomes owner, the owner becomes admin, whichever role was asked for. */
  lemma SteppingDownServed(d: Directory, user: int, ws: nat, role: Role, choose: set<int> -> int, fails: nat -> bool)
    requires IsChoice(choose) && role != Owner
    ensures var (d2, r) := Serve(d, Update(user, ws, user, role), choose, fails);
            && (r.Success? ==>
                  && (ws, user) in d.members && d.members[(ws, user)] == Owner
                  && exists a :: (ws, a) in d.members && d.members[(ws, a)] == Admin
                                 && d2 == d.(members := d.members[(ws, a) := Owner][(ws, user) := Admin]))
            && (r.Failure? ==> d2 == d)
            && (NoneFails(fails) ==>
                  (r.Success? <==>
                     && (ws, user) in d.members && d.members[(ws, user)] == Owner
                     && exists a :: (ws, a) in d.members && d.members[(ws, a)] == Admin))
            && (NoneFails(fails) && r.Failure? ==>
                  r.error == if (ws, user) in d.members && d.members[(ws, user)] == Owner then Conflict else Forbidden)
  {
    ChangeOwnerOutcome(d, user, ws, None, choose, fails, 1);
    AdminsHeld(d, ws, choose);
    var a := choose(Holding(d, ws, Admin));
    if (ws, user) in d.members && d.members[(ws, user)] == Owner && Holding(d, ws, Admin) != {} {
      assert (ws, a) in d.members && d.members[(ws, a)] == Admin;
    }
  }

  lemma AdminsHeld(d: Directory, ws: nat, choose: set<int> -> int)
    requires IsChoice(choose)
    ensures Holding(d, ws, Admin) != {} <==> exists a :: (ws, a) in d.members && d.members[(ws, a)] == Admin
    ensures Holding(d, ws, Admin) != {} ==>
              var a := choose(Holding(d, ws, Admin)); (ws, a) in d.members && d.members[(ws, a)] == Admin
  {
    forall a ensures a in Holding(d, ws, Admin) <==> (ws, a) in d.members && d.members[(ws, a)] == Admin {
      InHolding(d, ws, a, Admin);
    }
    if Holding(d, ws, Admin) != {} {
      var a := choose(Holding(d, ws, Admin));
      assert a in Holding(d, ws, Admin);
      assert (ws, a) in d.members && d.members[(ws, a)] == Admin;
    }
    if a :| (ws, a) in d.members && d.members[(ws, a)] == Admin {
      assert a in Holding(d, ws, Admin);
    }
  }

  /** Every removal but that of an owner by themselves. The owner may remove anyone, an admin may remove plain members,
      and everyone may remove themselves; exactly the row of the member goes. */
  lemma RemovalServed(d: Directory, user: int, ws: nat, member: int, choose: set<int> -> int, fails: nat -> bool)
    requires !(user == member && (ws, user) in d.members && d.members[(ws, user)] == Owner)
    ensures var (d2, r) := Serve(d, Remove(user, ws, member), choose, fails);
            && (r.Success? ==> d2 == d.(members := d.members - {(ws, member)}) && (ws, member) in d.members)
            && (r.Failure? ==> d2 == d)
            && (NoneFails(fails) ==>
                  (r.Success? <==>
                     && member != 0 && (ws, user) in d.members && (ws, member) in d.members
                     && (|| d.members[(ws, user)] == Owner
                         || user == member
                         || (d.members[(ws, user)] == Admin && d.members[(ws, member)] == Role.Member))))
            && (NoneFails(fails) && r.Failure? ==>
                  r.error == if (ws, user) !in d.members then Forbidden
                             else if member == 0 then BadRequest
                             else if (ws, member) !in d.members then NotFound else Forbidden)
  {
  }

  /** The owner who leaves, cut off anywhere: some admin takes over and the row of the leaver goes; if only that last
      DELETE fails, the leaver stays as an admin. */
  lemma LeavingServed(d: Directory, user: int, ws: nat, choose: set<int> -> int, fails: nat -> bool)
    requires IsChoice(choose) && (ws, user) in d.members && d.members[(ws, user)] == Owner
    ensures var (d2, r) := Serve(d, Remove(user, ws, user), choose, fails);
            && (r.Success? ==>
                  exists a :: a != user && (ws, a) in d.members && d.members[(ws, a)] == Admin
                              && d2 == d.(members := d.members[(ws, a) := Owner] - {(ws, user)}))
            && (r.Failure? ==>
                  d2 == d
                  || exists a :: a != user && (ws, a) in d.members && d.members[(ws, a)] == Admin
                                 && d2 == d.(members := d.members[(ws, a) := Owner][(ws, user) := Admin]))
  {
    ChangeOwnerOutcome(d, user, ws, None, choose, fails, 3);
    AdminsHeld(d, ws, choose);
    var a := choose(Holding(d, ws, Admin));
    if Holding(d, ws, Admin) != {} {
      assert a != user && (ws, a) in d.members && d.members[(ws, a)] == Admin;
      var handed := Handed(d, user, ws, a);
      assert handed == d.(members := d.members[(ws, a) := Owner][(ws, user) := Admin]);
      assert DeleteMember(handed, ws, user) == d.(members := d.members[(ws, a) := Owner] - {(ws, user)});
    }
  }

  /** Whatever fails, a removal that is answered with success has removed the row. */
  lemma RemovedIsGone(d: Directory, user: int, ws: nat, member: int, choose: set<int> -> int, fails: nat -> bool)
    requires IsChoice(choose) && Serve(d, Remove(user, ws, member), choose, fails).1.Success?
    ensures (ws, member) !in Serve(d, Remove(user, ws, member), choose, fails).0.members
  {
  }

  /** The insert of an acceptance: a plain membership, for a user who had none, in a workspace that exists. */
  lemma JoinServed(d: Directory, user: int, ws: nat, choose: set<int> -> int, fails: nat -> bool)
    ensures var (d2, r) := Serve(d, Join(user, ws), choose, fails);
            && (r.Success? <==> !fails(0) && ws in d.workspaces && (ws, user) !in d.members)
            && (r.Success? ==> d2 == d.(members := d.members[(ws, user) := Role.Member]))
            && (r.Failure? ==> d2 == d)
  {
  }

  /** Only the owner deletes a workspace, and with it go exactly its members. */
  lemma DeletionServed(d: Directory, user: int, ws: nat, choose: set<int> -> int, fails: nat -> bool)
    requires WellFormed(d)
    ensures var (d2, r) := Serve(d, Delete(user, ws), choose, fails);
            && (r.Success? <==> !fails(0) && !fails(1) && (ws, user) in d.members && d.members[(ws, user)] == Owner)
            && (r.Success? ==>
                  && d2.workspaces == d.workspaces - {ws} && d2.nextWorkspace == d.nextWorkspace
                  && d2.members == map k | k in d.members && k.0 != ws :: d.members[k])
            && (r.Failure? ==> d2 == d)
            && (!fails(0) && !fails(1) && r.Failure? ==> r.error == Forbidden)
  {
  }

  /** Anyone creates a workspace: it gets the next number, and its creator as owner. */
  lemma CreationServed(d: Directory, user: int, choose: set<int> -> int, fails: nat -> bool)
    requires WellFormed(d)
    ensures var (d2, r) := Serve(d, Create(user), choose, fails);
            && (r.Success? ==>
                  d2 == Directory(d.workspaces + {d.nextWorkspace}, d.nextWorkspace + 1,
                                  d.members[(d.nextWorkspace, user) := Owner]))
            && (r.Failure? ==> d2 == d)
            && (NoneFails(fails) ==> r.Success?)
  {
    CreateWorkspaceOutcome(d, user, fails, 0);
    if NoneFails(fails) {
      CreationSucceeds(d, user, fails);
    }
  }

  lemma CreationSucceeds(d: Directory, user: int, fails: nat -> bool)
    requires WellFormed(d) && NoneFails(fails)
    ensures CreateWorkspace(d, user, fails, 0).outcome.Success?
  {
    var work := CreateWorkspaceWork(user);
    AllOrNothing(d, work, 0, fails, 0);
    var id := d.nextWorkspace;
    var d1 := d.(workspaces := d.workspaces + {id}, nextWorkspace := id + 1);
    assert work[0].act(d, 0) == Answered(d1, id);
    assert work[1..] == [OnClient(InsertOwner(user))];
    assert (id, user) !in d1.members;
    var d2 := d1.(members := d1.members[(id, user) := Owner]);
    assert work[1..][0].act(d1, id) == Answered(d2, id);
    assert InOneGo(work[1..][1..], d2, id) == Answered(d2, id);
    assert InOneGo(work[1..], d1, id) == InOneGo(work[1..][1..], d2, id);
    assert InOneGo(work, d, 0) == InOneGo(work[1..], d1, id);
  }
}
