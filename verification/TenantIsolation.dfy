/**
  Tenants do not touch each other. The UPDATE and DELETE statements of the services filter by row id alone; that a
  request scoped to one workspace leaves every other workspace as it was rests on the lookup before them and on rows
  never moving to another parent.
*/
module TenantIsolation {
  import opened Basics
  import opened Schema
  import opened StorageKeys
  import opened TenantTree
  import opened TenantRuns
  import Members
  import MemberRuns
  import Invitations
  import InvitationRuns
  import TaskUpdates
  import Listings

  /** All that belongs to one workspace. */
  datatype Share = Share(alive: bool, members: map<(nat, int), Role>, invites: map<nat, Invitations.Invite>,
                         projects: map<nat, ProjectRow>, tasks: map<nat, TaskRow>, files: map<nat, FileRow>)

  function MembersOf(d: Members.Directory, v: nat): map<(nat, int), Role> {
    map k | k in d.members && k.0 == v :: d.members[k]
  }

  function InvitesOf(k: Invitations.Desk, v: nat): map<nat, Invitations.Invite> {
    map id | id in k.invites && k.invites[id].workspaceId == v :: k.invites[id]
  }

  function ProjectsOf(t: Tree, v: nat): map<nat, ProjectRow> {
    map id | id in t.projects && ProjectIn(t, v, id) :: t.projects[id]
  }

  function TasksOf(t: Tree, v: nat): map<nat, TaskRow> {
    map id | id in t.tasks && TaskInWorkspace(t, v, id) :: t.tasks[id]
  }

  function FilesOf(t: Tree, v: nat): map<nat, FileRow> {
    map id | id in t.files && TaskInWorkspace(t, v, t.files[id].taskId) :: t.files[id]
  }

  function ShareOf(t: Tree, v: nat): Share {
    Share(v in t.desk.dir.workspaces, MembersOf(t.desk.dir, v), InvitesOf(t.desk, v),
          ProjectsOf(t, v), TasksOf(t, v), FilesOf(t, v))
  }

  /** The workspace a request is about; a new workspace is about itself. */
  function PeopleScope(k: Invitations.Desk, req: Invitations.Request): nat {
    match req
    case Invited(_, ws, _) => ws
    case Accept(token, _) => token.workspaceId
    case Decline(token) => token.workspaceId
    case Other(Create(_)) => k.dir.nextWorkspace
    case Other(Delete(_, ws)) => ws
    case Other(Remove(_, ws, _)) => ws
    case Other(Update(_, ws, _, _)) => ws
    case Other(Join(_, ws)) => ws
  }

  function Scope(t: Tree, req: Request): nat {
    match req
    case People(r) => PeopleScope(t.desk, r)
    case Within(ws, _, _) => ws
  }

  // ---------------------------------------------------------------- members and invitations

  lemma MembersUntouched(d: Members.Directory, ws: nat, user: int, role: Role, v: nat)
    requires v != ws
    ensures MembersOf(Members.SetRole(d, ws, user, role), v) == MembersOf(d, v)
    ensures MembersOf(Members.DeleteMember(d, ws, user), v) == MembersOf(d, v)
    ensures MembersOf(Members.DeleteRow(d, ws), v) == MembersOf(d, v)
    ensures var r := Members.AddMember(d, ws, user, role); r.Success? ==> MembersOf(r.value, v) == MembersOf(d, v)
  {
  }

  lemma HandedUntouched(d: Members.Directory, current: int, ws: nat, successor: int, v: nat)
    requires v != ws
    ensures MembersOf(MemberRuns.Handed(d, current, ws, successor), v) == MembersOf(d, v)
  {
    MembersUntouched(d, ws, successor, Owner, v);
    MembersUntouched(Members.SetRole(d, ws, successor, Owner), ws, current, Admin, v);
  }

  lemma RemovalUntouched(d: Members.Directory, user: int, ws: nat, member: int, choose: set<int> -> int,
                         fails: nat -> bool, v: nat)
    requires IsChoice(choose) && v != ws
    ensures MembersOf(Members.Serve(d, Members.Remove(user, ws, member), choose, fails).0, v) == MembersOf(d, v)
  {
    MemberRuns.RemoveOutcome(d, user, ws, member, fails, choose);
    var handed := MemberRuns.Handed(d, user, ws, choose(Members.Holding(d, ws, Admin)));
    HandedUntouched(d, user, ws, choose(Members.Holding(d, ws, Admin)), v);
    MembersUntouched(handed, ws, user, Member, v);
    MembersUntouched(d, ws, member, Member, v);
  }

  lemma RoleUntouched(d: Members.Directory, user: int, ws: nat, member: int, role: Role, choose: set<int> -> int,
                      fails: nat -> bool, v: nat)
    requires IsChoice(choose) && v != ws
    ensures MembersOf(Members.Serve(d, Members.Update(user, ws, member, role), choose, fails).0, v) == MembersOf(d, v)
  {
    var target := if role == Owner then Some(member) else None;
    MemberRuns.ChangeOwnerOutcome(d, user, ws, target, choose, fails, 1);
    HandedUntouched(d, user, ws, MemberRuns.Successor(d, ws, target, choose), v);
    MembersUntouched(d, ws, member, role, v);
  }

  lemma DirectoryUntouched(d: Members.Directory, req: Members.Request, choose: set<int> -> int, fails: nat -> bool,
                           v: nat)
    requires IsChoice(choose) && v != (if req.Create? then d.nextWorkspace else req.ws)
    ensures MembersOf(Members.Serve(d, req, choose, fails).0, v) == MembersOf(d, v)
  {
    match req
    case Create(user) => MemberRuns.CreateWorkspaceOutcome(d, user, fails, 0);
    case Delete(user, ws) => MembersUntouched(d, ws, user, Member, v);
    case Remove(user, ws, member) => RemovalUntouched(d, user, ws, member, choose, fails, v);
    case Update(user, ws, member, role) => RoleUntouched(d, user, ws, member, role, choose, fails, v);
    case Join(user, ws) => MembersUntouched(d, ws, user, Member, v);
  }

  /** Of several pending rows one is the newest. */
  lemma NewestExists(k: Invitations.Desk, ids: set<nat>)
    requires ids != {} && ids <= k.invites.Keys
    ensures Invitations.Newest(k, ids) != {}
  {
    var before := (a: nat, b: nat) =>
      a in k.invites && b in k.invites
      && (k.invites[b].createdAt < k.invites[a].createdAt
          || (k.invites[b].createdAt == k.invites[a].createdAt && a <= b));
    var newest := Listings.LeastExists(ids, before);
    assert forall j :: j in ids ==> before(newest, j);
    assert newest in Invitations.Newest(k, ids);
  }

  lemma SettledRowInScope(k: Invitations.Desk, t: Invitations.Token, setup: Invitations.Setup, now: int,
                          fails: nat -> bool, n: nat)
    requires IsChoice(setup.first)
    requires Invitations.VerifyToken(k, t, setup.bcrypt, setup.first, now, fails, n).Success?
    ensures var id := Invitations.VerifyToken(k, t, setup.bcrypt, setup.first, now, fails, n).value;
            id in k.invites && k.invites[id].workspaceId == t.workspaceId
  {
    InvitationRuns.VerifiedRow(k, t, setup.bcrypt, setup.first, now, fails, n);
    NewestExists(k, Invitations.PendingIds(k, t.email, t.workspaceId));
  }

  lemma AcceptUntouched(k: Invitations.Desk, t: Invitations.Token, user: int, setup: Invitations.Setup,
                        env: Invitations.Env, fails: nat -> bool, v: nat)
    requires IsChoice(setup.first) && v != t.workspaceId
    ensures var k2 := Invitations.Serve(k, Invitations.Accept(t, user), setup, env, fails).0;
            MembersOf(k2.dir, v) == MembersOf(k.dir, v) && InvitesOf(k2, v) == InvitesOf(k, v)
  {
    var id := Invitations.VerifyToken(k, t, setup.bcrypt, setup.first, env.now, fails, 0);
    if id.Success? {
      SettledRowInScope(k, t, setup, env.now, fails, 0);
      InvitationRuns.AcceptOutcome(k, id.value, t.workspaceId, user, fails, 1);
      MembersUntouched(k.dir, t.workspaceId, user, Member, v);
    }
  }

  lemma InvitesUntouched(k: Invitations.Desk, req: Members.Request, setup: Invitations.Setup, env: Invitations.Env,
                         fails: nat -> bool, v: nat)
    requires IsChoice(setup.choose) && DeskSound(k) && v != PeopleScope(k, Invitations.Other(req))
    ensures InvitesOf(Invitations.Serve(k, Invitations.Other(req), setup, env, fails).0, v) == InvitesOf(k, v)
  {
    DirectoryStep(k.dir, req, setup.choose, fails);
  }

  lemma InviteUntouched(k: Invitations.Desk, user: int, ws: nat, email: string, setup: Invitations.Setup,
                        env: Invitations.Env, fails: nat -> bool, v: nat)
    requires DeskSound(k) && v != ws
    ensures var k2 := Invitations.Serve(k, Invitations.Invited(user, ws, email), setup, env, fails).0;
            InvitesOf(k2, v) == InvitesOf(k, v)
  {
  }

  lemma DeclineUntouched(k: Invitations.Desk, t: Invitations.Token, setup: Invitations.Setup, env: Invitations.Env,
                         fails: nat -> bool, v: nat)
    requires IsChoice(setup.first) && v != t.workspaceId
    ensures InvitesOf(Invitations.Serve(k, Invitations.Decline(t), setup, env, fails).0, v) == InvitesOf(k, v)
  {
    if Invitations.VerifyToken(k, t, setup.bcrypt, setup.first, env.now, fails, 0).Success? {
      SettledRowInScope(k, t, setup, env.now, fails, 0);
    }
  }

  lemma DeskUntouched(k: Invitations.Desk, req: Invitations.Request, setup: Invitations.Setup, env: Invitations.Env,
                      fails: nat -> bool, v: nat)
    requires IsChoice(setup.first) && IsChoice(setup.choose) && DeskSound(k) && v != PeopleScope(k, req)
    ensures var k2 := Invitations.Serve(k, req, setup, env, fails).0;
            MembersOf(k2.dir, v) == MembersOf(k.dir, v) && InvitesOf(k2, v) == InvitesOf(k, v)
  {
    match req
    case Invited(user, ws, email) => InviteUntouched(k, user, ws, email, setup, env, fails, v);
    case Accept(t, user) => AcceptUntouched(k, t, user, setup, env, fails, v);
    case Decline(t) => DeclineUntouched(k, t, setup, env, fails, v);
    case Other(r) =>
      DirectoryUntouched(k.dir, r, setup.choose, fails, v);
      InvitesUntouched(k, r, setup, env, fails, v);
  }

  lemma WorkspaceUntouched(k: Invitations.Desk, req: Invitations.Request, setup: Invitations.Setup,
                           env: Invitations.Env, fails: nat -> bool, v: nat)
    requires IsChoice(setup.first) && IsChoice(setup.choose) && DeskSound(k) && v != PeopleScope(k, req)
    ensures v in Invitations.Serve(k, req, setup, env, fails).0.dir.workspaces <==> v in k.dir.workspaces
  {
    DeskStep(k, req, setup, env, fails);
    if req.Other? && req.req.Create? {
      MemberRuns.CreateWorkspaceOutcome(k.dir, req.req.user, fails, 0);
    } else if req.Other? {
      NoNewWorkspace(k.dir, req.req, setup.choose, fails);
    } else if req.Accept? {
      var id := Invitations.VerifyToken(k, req.token, setup.bcrypt, setup.first, env.now, fails, 0);
      if id.Success? {
        InvitationRuns.AcceptOutcome(k, id.value, k.invites[id.value].workspaceId, req.user, fails, 1);
      }
    }
  }

  lemma NoNewWorkspace(d: Members.Directory, req: Members.Request, choose: set<int> -> int, fails: nat -> bool)
    requires IsChoice(choose) && !req.Create?
    ensures Members.Serve(d, req, choose, fails).0.workspaces <= d.workspaces
  {
    match req
    case Delete(_, _) =>
    case Remove(user, ws, member) => MemberRuns.RemoveOutcome(d, user, ws, member, fails, choose);
    case Update(user, ws, member, role) =>
      MemberRuns.ChangeOwnerOutcome(d, user, ws, if role == Owner then Some(member) else None, choose, fails, 1);
    case Join(_, _) =>
  }

  // ---------------------------------------------------------------- projects, tasks and files

  /** v has the same projects, tasks and files. */
  predicate SameTree(t: Tree, t2: Tree, v: nat) {
    ProjectsOf(t2, v) == ProjectsOf(t, v) && TasksOf(t2, v) == TasksOf(t, v) && FilesOf(t2, v) == FilesOf(t, v)
  }

  lemma PeopleUntouched(t: Tree, req: Invitations.Request, setup: Setup, env: Env, fails: nat -> bool, v: nat)
    requires Sound(t, setup.keys) && Fair(setup) && v != PeopleScope(t.desk, req)
    ensures ShareOf(ServePeople(t, req, setup, env, fails).0, v) == ShareOf(t, v)
  {
    DeskUntouched(t.desk, req, setup.people, env.people, fails, v);
    WorkspaceUntouched(t.desk, req, setup.people, env.people, fails, v);
    var desk2 := Invitations.Serve(t.desk, req, setup.people, env.people, fails).0;
    CascadeElsewhere(t, t.(desk := desk2), v);
  }

  /** Rows that are not of v are gone from t1. */
  ghost predicate LostElsewhere(t: Tree, t1: Tree, v: nat) {
    && t1.files == t.files && (v in t1.desk.dir.workspaces <==> v in t.desk.dir.workspaces)
    && t1.projects.Keys <= t.projects.Keys && t1.tasks.Keys <= t.tasks.Keys
    && (forall id :: id in t1.projects ==> t1.projects[id] == t.projects[id])
    && (forall id :: id in t1.tasks ==> t1.tasks[id] == t.tasks[id])
    && (forall id :: id in t.projects && ProjectIn(t, v, id) ==> id in t1.projects)
    && (forall id :: id in t.tasks && TaskInWorkspace(t, v, id) ==> id in t1.tasks)
  }

  lemma ProjectsStay(t: Tree, t1: Tree, v: nat)
    requires ForeignKeys(t) && LostElsewhere(t, t1, v)
    ensures ProjectsOf(Cascaded(t1), v) == ProjectsOf(t, v)
  {
  }

  lemma TasksStay(t: Tree, t1: Tree, v: nat)
    requires ForeignKeys(t) && LostElsewhere(t, t1, v)
    ensures TasksOf(Cascaded(t1), v) == TasksOf(t, v)
  {
    forall id ensures id in TasksOf(Cascaded(t1), v) <==> id in TasksOf(t, v) {}
  }

  /** What the cascade then takes is not of v either. */
  lemma CascadeElsewhere(t: Tree, t1: Tree, v: nat)
    requires ForeignKeys(t) && LostElsewhere(t, t1, v)
    ensures SameTree(t, Cascaded(t1), v)
  {
    ProjectsStay(t, t1, v);
    TasksStay(t, t1, v);
    var t2 := Cascaded(t1);
    forall id ensures id in FilesOf(t2, v) <==> id in FilesOf(t, v) {
      if id in t.files {
        var task := t.files[id].taskId;
        assert task in TasksOf(t2, v) <==> task in TasksOf(t, v);
      }
    }
  }

  lemma CreateProjectElsewhere(t: Tree, ws: nat, name: string, now: int, fails: nat -> bool, n: nat, v: nat)
    requires ForeignKeys(t) && Counted(t) && v != ws
    ensures SameTree(t, CreateProject(t, ws, name, now, fails, n).0, v)
  {
  }

  lemma UpdateProjectElsewhere(t: Tree, ws: nat, project: nat, name: string, now: int, fails: nat -> bool, n: nat,
                               v: nat)
    requires v != ws
    ensures SameTree(t, UpdateProject(t, ws, project, name, now, fails, n).0, v)
  {
  }

  lemma DeleteProjectElsewhere(t: Tree, ws: nat, project: nat, fails: nat -> bool, n: nat, v: nat)
    requires ForeignKeys(t) && v != ws
    ensures SameTree(t, DeleteProject(t, ws, project, fails, n).0, v)
  {
    if ProjectIn(t, ws, project) {
      CascadeElsewhere(t, t.(projects := t.projects - {project}), v);
    }
  }

  lemma CreateTaskElsewhere(t: Tree, ws: nat, project: nat, body: NewTask, users: set<int>, now: int,
                            fails: nat -> bool, n: nat, v: nat)
    requires ForeignKeys(t) && Counted(t) && v != ws
    ensures SameTree(t, CreateTask(t, ws, project, body, users, now, fails, n).0, v)
  {
    var t2 := CreateTask(t, ws, project, body, users, now, fails, n).0;
    if t2 != t {
      assert t2.tasks == t.tasks[t.nextTask := t2.tasks[t.nextTask]] && t2.tasks[t.nextTask].projectId == project;
    }
  }

  lemma UpdateTaskElsewhere(t: Tree, ws: nat, user: int, project: nat, task: nat, patch: TaskUpdates.Patch,
                            users: set<int>, fails: nat -> bool, n: nat, v: nat)
    requires v != ws
    ensures SameTree(t, UpdateTask(t, ws, user, project, task, patch, users, fails, n).0, v)
  {
    var t2 := UpdateTask(t, ws, user, project, task, patch, users, fails, n).0;
    if t2 != t {
      assert t2.tasks == t.tasks[task := t2.tasks[task]] && t2.tasks[task].projectId == project;
    }
  }

  lemma DeleteTaskElsewhere(t: Tree, ws: nat, task: nat, fails: nat -> bool, n: nat, v: nat)
    requires ForeignKeys(t) && v != ws
    ensures SameTree(t, DeleteTask(t, ws, task, fails, n).0, v)
  {
    if TaskInWorkspace(t, ws, task) {
      CascadeElsewhere(t, t.(tasks := t.tasks - {task}), v);
    }
  }

  lemma ConfirmElsewhere(t: Tree, k: Key, key: string, name: string, user: int, users: set<int>,
                         store: map<string, StoredObject>, first: set<nat> -> nat, fails: nat -> bool, n: nat, v: nat)
    requires Counted(t) && v != k.workspace
    ensures SameTree(t, ConfirmUpload(t, k, key, name, user, users, store, first, fails, n).0, v)
  {
  }

  lemma ActElsewhere(t: Tree, ws: nat, user: int, op: Op, setup: Setup, env: Env, fails: nat -> bool, n: nat, v: nat)
    requires ForeignKeys(t) && Counted(t) && v != ws
    ensures SameTree(t, Act(t, ws, user, op, setup, env, fails, n).0, v)
  {
    var now := env.people.now;
    match op
    case ToCreateProject(name) => CreateProjectElsewhere(t, ws, name, now, fails, n, v);
    case ToUpdateProject(project, name) => UpdateProjectElsewhere(t, ws, project, name, now, fails, n, v);
    case ToDeleteProject(project) => DeleteProjectElsewhere(t, ws, project, fails, n, v);
    case ToCreateTask(project, body) => CreateTaskElsewhere(t, ws, project, body, setup.users, now, fails, n, v);
    case ToUpdateTask(project, task, patch) =>
      UpdateTaskElsewhere(t, ws, user, project, task, patch, setup.users, fails, n, v);
    case ToDeleteTask(task) => DeleteTaskElsewhere(t, ws, task, fails, n, v);
    case ToConfirmUpload(project, task, file, name) =>
      var k := Key(ws, project, task, file);
      ConfirmElsewhere(t, k, setup.keys.encode(k), name, user, setup.users, env.store, setup.people.first, fails, n, v);
    case _ =>
  }

  /** A request scoped to one workspace leaves the members, invitations, projects, tasks and files of every other as
      they were, and neither makes nor removes another workspace. */
  lemma OthersUntouched(t: Tree, call: Call, v: nat)
    requires Sound(t, call.setup.keys) && Fair(call.setup) && v != Scope(t, call.req)
    ensures ShareOf(Serve(t, call.req, call.setup, call.env, call.fails).0, v) == ShareOf(t, v)
  {
    match call.req
    case People(req) => PeopleUntouched(t, req, call.setup, call.env, call.fails, v);
    case Within(ws, user, op) =>
      ActElsewhere(t, ws, user, op, call.setup, call.env, call.fails, 1, v);
      DeskKept(t, ws, user, op, call.setup, call.env, call.fails, 1);
  }

  predicate NotAbout(h: History, i: nat, j: nat, v: nat) {
    forall m :: i <= m < j && m < |h.calls| && m < |h.trees| ==> Scope(h.trees[m], h.calls[m].req) != v
  }

  /** However long the others are busy, a workspace nobody addresses stays as it is. */
  lemma IsolationAlong(h: History, i: nat, j: nat, v: nat, keys: Codec)
    requires Faithful(keys) && IsRun(h, keys) && i <= j < |h.trees| && NotAbout(h, i, j, v)
    ensures ShareOf(h.trees[j], v) == ShareOf(h.trees[i], v)
    decreases j - i
  {
    if i < j {
      ReachableSound(h, i, keys);
      assert Served(h, i);
      OthersUntouched(h.trees[i], h.calls[i], v);
      IsolationAlong(h, i + 1, j, v, keys);
    }
  }
}
