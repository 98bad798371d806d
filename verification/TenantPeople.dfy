/**
  The runs of the whole system seen from the members and the invitations: each is a run of MemberRuns and of
  InvitationRuns, so what was proved there about owners and invitations holds in every state of the tenant tree.
*/
module TenantPeople {
  import opened Basics
  import opened TenantTree
  import opened TenantRuns
  import opened StorageKeys
  import Runs
  import Members
  import MemberRuns
  import Invitations
  import InvitationRuns

  // ---------------------------------------------------------------- invitations

  function PeopleCalls(calls: seq<Call>): seq<InvitationRuns.Call> {
    if calls == [] then []
    else
      var last := calls[|calls| - 1];
      PeopleCalls(calls[..|calls| - 1])
      + (if last.req.People?
         then [InvitationRuns.Call(last.req.req, last.env.people, last.fails, last.setup.people)]
         else [])
  }

  lemma DeskServed(t: Tree, call: Call)
    ensures Serve(t, call.req, call.setup, call.env, call.fails).0.desk ==
              if call.req.People?
              then Invitations.Serve(t.desk, call.req.req, call.setup.people, call.env.people, call.fails).0
              else t.desk
  {
    if call.req.Within? {
      DeskKept(t, call.req.ws, call.req.user, call.req.op, call.setup, call.env, call.fails, 1);
    }
  }

  lemma ServedDesk(h: History, m: nat, keys: Codec)
    requires IsRun(h, keys) && m < |h.calls|
    ensures var call := h.calls[m];
            h.trees[m + 1].desk ==
              if call.req.People?
              then Invitations.Serve(h.trees[m].desk, call.req.req, call.setup.people, call.env.people, call.fails).0
              else h.trees[m].desk
  {
    assert Served(h, m);
    DeskServed(h.trees[m], h.calls[m]);
  }

  /** The desk after a run of InvitationRuns. */
  function DeskAfter(people: seq<InvitationRuns.Call>): Invitations.Desk {
    Runs.After(InvitationRuns.Next(), InvitationRuns.START, people).desk
  }

  lemma DeskAfterOneMore(people: seq<InvitationRuns.Call>, next: InvitationRuns.Call)
    ensures DeskAfter(people + [next]) ==
              Invitations.Serve(DeskAfter(people), next.req, next.setup, next.env, next.fails).0
  {
    assert (people + [next])[..|people|] == people;
  }

  lemma PeopleCallsGrow(calls: seq<Call>, k: nat)
    requires k < |calls|
    ensures PeopleCalls(calls[..k + 1]) ==
              PeopleCalls(calls[..k])
              + (if calls[k].req.People?
                 then [InvitationRuns.Call(calls[k].req.req, calls[k].env.people, calls[k].fails,
                                           calls[k].setup.people)]
                 else [])
  {
    assert calls[..k + 1][..k] == calls[..k];
  }

  lemma {:induction false} FairCalls(h: History, k: nat, keys: Codec)
    requires IsRun(h, keys) && k < |h.trees|
    ensures InvitationRuns.IsRun(PeopleCalls(h.calls[..k]))
  {
    if k > 0 {
      FairCalls(h, k - 1, keys);
      PeopleCallsGrow(h.calls, k - 1);
      assert Served(h, k - 1);
    }
  }

  /** The desk of the tree goes through the run of InvitationRuns made of its calls on people. */
  lemma {:induction false} DeskIsARun(h: History, k: nat, keys: Codec)
    requires IsRun(h, keys) && k < |h.trees|
    ensures h.trees[k].desk == DeskAfter(PeopleCalls(h.calls[..k]))
    ensures InvitationRuns.IsRun(PeopleCalls(h.calls[..k]))
  {
    FairCalls(h, k, keys);
    if k > 0 {
      DeskIsARun(h, k - 1, keys);
      ServedDesk(h, k - 1, keys);
      PeopleCallsGrow(h.calls, k - 1);
      var call := h.calls[k - 1];
      if call.req.People? {
        var next := InvitationRuns.Call(call.req.req, call.env.people, call.fails, call.setup.people);
        DeskAfterOneMore(PeopleCalls(h.calls[..k - 1]), next);
      } else {
        assert PeopleCalls(h.calls[..k]) == PeopleCalls(h.calls[..k - 1]);
      }
    }
  }

  /** At any time a pair of email and workspace has at most one invitation. */
  lemma OneInvitationPerPair(h: History, k: nat, id: nat, j: nat, keys: Codec)
    requires Faithful(keys) && IsRun(h, keys) && k < |h.trees|
    requires var invites := h.trees[k].desk.invites;
             && id in invites && j in invites && invites[id].email == invites[j].email
             && invites[id].workspaceId == invites[j].workspaceId
    ensures id == j
  {
    DeskIsARun(h, k, keys);
    var calls := PeopleCalls(h.calls[..k]);
    assert calls[..|calls|] == calls;
    InvitationRuns.ReachableSound(calls, |calls|);
    var born := InvitationRuns.At(calls, |calls|).born;
    assert InvitationRuns.SamePair(born[id], born[j]);
  }

  // ---------------------------------------------------------------- owners

  /** The call on the members table that a call amounts to: an acceptance that inserted is a join. */
  function MemberCalls(h: History, m: nat): seq<MemberRuns.Call>
    requires m < |h.calls| && m + 1 < |h.trees|
  {
    match h.calls[m].req
    case People(Other(req)) => [MemberRuns.Call(req, h.calls[m].fails, h.calls[m].setup.people.choose)]
    case People(Accept(t, user)) =>
      if h.trees[m].desk.dir == h.trees[m + 1].desk.dir then []
      else [MemberRuns.Call(Members.Join(user, t.workspaceId), (n: nat) => false, h.calls[m].setup.people.choose)]
    case _ => []
  }

  predicate SelfTransferAt(h: History, m: nat, ws: nat) {
    && m < |h.calls| && m < |h.replies| && h.calls[m].req.People? && h.calls[m].req.req.Other?
    && MemberRuns.IsSelfTransfer(h.calls[m].req.req.req) && h.calls[m].req.req.req.ws == ws && h.replies[m].Success?
  }

  ghost predicate TransferredBefore(h: History, k: nat, ws: nat) {
    exists m: nat :: m < k && SelfTransferAt(h, m, ws)
  }

  lemma AcceptIsJoin(k: Invitations.Desk, t: Invitations.Token, user: int, setup: Invitations.Setup,
                     env: Invitations.Env, fails: nat -> bool)
    requires InvitationRuns.Fair(setup)
    requires var id := Invitations.VerifyToken(k, t, setup.bcrypt, setup.first, env.now, fails, 0);
             id.Success? ==> id.value in k.invites && k.invites[id.value].workspaceId == t.workspaceId
    ensures var dir2 := Invitations.Serve(k, Invitations.Accept(t, user), setup, env, fails).0.dir;
            dir2 == k.dir
            || dir2 == Members.Serve(k.dir, Members.Join(user, t.workspaceId), setup.choose, (n: nat) => false).0
  {
    var id := Invitations.VerifyToken(k, t, setup.bcrypt, setup.first, env.now, fails, 0);
    if id.Success? {
      InvitationRuns.AcceptOutcome(k, id.value, t.workspaceId, user, fails, 1);
    }
  }

  lemma VerifiedInScope(h: History, k: nat, t: Invitations.Token, p: Invitations.Setup, now: int, fails: nat -> bool,
                        keys: Codec)
    requires IsRun(h, keys) && k < |h.trees| && InvitationRuns.Fair(p)
    ensures var desk := h.trees[k].desk;
            var id := Invitations.VerifyToken(desk, t, p.bcrypt, p.first, now, fails, 0);
            id.Success? ==> id.value in desk.invites && desk.invites[id.value].workspaceId == t.workspaceId
  {
    if Invitations.VerifyToken(h.trees[k].desk, t, p.bcrypt, p.first, now, fails, 0).Success? {
      DeskIsARun(h, k, keys);
      var calls := PeopleCalls(h.calls[..k]);
      assert calls[..|calls|] == calls;
      InvitationRuns.ReachableSound(calls, |calls|);
      InvitationRuns.OwnRow(InvitationRuns.At(calls, |calls|), t, p, now, fails, 0);
    }
  }

  lemma MemberStep(h: History, m: nat, keys: Codec)
    requires Faithful(keys) && IsRun(h, keys) && m < |h.calls|
    ensures var d, d2 := h.trees[m].desk.dir, h.trees[m + 1].desk.dir;
            var calls := MemberCalls(h, m);
            && |calls| <= 1 && MemberRuns.IsRun(calls)
            && (calls == [] ==> d2 == d)
            && (calls != [] ==> d2 == Members.Serve(d, calls[0].req, calls[0].choose, calls[0].fails).0)
            && (calls == [] || !MemberRuns.IsSelfTransfer(calls[0].req) ==> forall ws :: !SelfTransferAt(h, m, ws))
            && (calls != [] && MemberRuns.IsSelfTransfer(calls[0].req) ==>
                  forall ws :: SelfTransferAt(h, m, ws) <==>
                    ws == calls[0].req.ws
                    && Members.Serve(d, calls[0].req, calls[0].choose, calls[0].fails).1.Success?)
  {
    assert Served(h, m);
    var call := h.calls[m];
    match call.req
    case Within(ws, user, op) => DeskKept(h.trees[m], ws, user, op, call.setup, call.env, call.fails, 1);
    case People(Accept(t, user)) =>
      VerifiedInScope(h, m, t, call.setup.people, call.env.people.now, call.fails, keys);
      AcceptIsJoin(h.trees[m].desk, t, user, call.setup.people, call.env.people, call.fails);
    case _ =>
  }

  /** The members table, with the record of transfers to oneself, after a run of MemberRuns. */
  function DirectoryAfter(calls: seq<MemberRuns.Call>): MemberRuns.World {
    Runs.After(MemberRuns.Next(), MemberRuns.Start(), calls)
  }

  lemma DirectoryAfterOneMore(calls: seq<MemberRuns.Call>, next: MemberRuns.Call)
    ensures var w, w2 := DirectoryAfter(calls), DirectoryAfter(calls + [next]);
            var (dir2, r) := Members.Serve(w.dir, next.req, next.choose, next.fails);
            && w2.dir == dir2
            && forall ws :: ws in w2.handedAway <==>
                 ws in w.handedAway || (MemberRuns.IsSelfTransfer(next.req) && r.Success? && ws == next.req.ws)
  {
    assert (calls + [next])[..|calls|] == calls;
  }

  lemma TransferredStep(h: History, k: nat, ws: nat)
    ensures TransferredBefore(h, k + 1, ws) <==> TransferredBefore(h, k, ws) || SelfTransferAt(h, k, ws)
  {
  }

  /** The members table goes through a run of MemberRuns, with the same transfers of an owner to themselves. */
  lemma {:induction false} DirectoryIsARun(h: History, k: nat, keys: Codec) returns (calls: seq<MemberRuns.Call>)
    requires Faithful(keys) && IsRun(h, keys) && k < |h.trees|
    ensures MemberRuns.IsRun(calls) && DirectoryAfter(calls).dir == h.trees[k].desk.dir
    ensures forall ws :: ws in DirectoryAfter(calls).handedAway <==> TransferredBefore(h, k, ws)
  {
    if k == 0 {
      calls := [];
    } else {
      var before := DirectoryIsARun(h, k - 1, keys);
      MemberStep(h, k - 1, keys);
      var next := MemberCalls(h, k - 1);
      if next == [] {
        calls := before;
      } else {
        calls := before + [next[0]];
        DirectoryAfterOneMore(before, next[0]);
      }
      forall ws ensures ws in DirectoryAfter(calls).handedAway <==> TransferredBefore(h, k, ws) {
        TransferredStep(h, k - 1, ws);
      }
    }
  }

  /** In every state of every run, whatever fails: a workspace has exactly one owner if and only if no owner of it has
      completed a transfer to themselves, and otherwise it has none. */
  lemma OneOwnerUnlessSelfTransfer(h: History, k: nat, ws: nat, keys: Codec)
    requires Faithful(keys) && IsRun(h, keys) && k < |h.trees| && ws in h.trees[k].desk.dir.workspaces
    ensures var d := h.trees[k].desk.dir;
            && (MemberRuns.OneOwner(d, ws) <==> !TransferredBefore(h, k, ws))
            && (MemberRuns.Owners(d, ws) == {} <==> TransferredBefore(h, k, ws))
            && |MemberRuns.Owners(d, ws)| <= 1
  {
    var calls := DirectoryIsARun(h, k, keys);
    MemberRuns.OneOwnerUnlessSelfTransfer(calls, ws);
  }
}
