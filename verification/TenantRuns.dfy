/**
  Whole runs of requests on the tenant tree. Every row hangs under an existing row, every storage key prints the
  path it hangs under, and a file is found exactly while a confirmed upload of it has not been deleted from above.
*/
module TenantRuns {
  import opened Basics
  import opened Schema
  import opened StorageKeys
  import opened TenantTree
  import Members
  import MemberRuns
  import Invitations
  import InvitationRuns
  import TaskUpdates

  /** setup is what the surroundings of this call are like: the rows found first, and the users there are. */
  datatype Call = Call(req: Request, env: Env, fails: nat -> bool, setup: Setup)

  /** A run: the tree before, between and after the calls, and the reply to each. */
  datatype History = History(trees: seq<Tree>, calls: seq<Call>, replies: seq<Result<Answer>>)

  predicate Served(h: History, k: nat) {
    && k < |h.calls| && k < |h.replies| && k + 1 < |h.trees|
    && var call := h.calls[k];
       (h.trees[k + 1], h.replies[k]) == Serve(h.trees[k], call.req, call.setup, call.env, call.fails)
  }

  ghost predicate Fits(setup: Setup, keys: Codec) {
    IsChoice(setup.people.first) && IsChoice(setup.people.choose) && setup.keys == keys
  }

  /** All calls of a run write their keys in one way. */
  ghost predicate IsRun(h: History, keys: Codec) {
    && |h.trees| == |h.calls| + 1 && |h.replies| == |h.calls| && h.trees[0] == EMPTY_TREE
    && forall k: nat {:trigger Served(h, k)} :: k < |h.calls| ==> Served(h, k) && Fits(h.calls[k].setup, keys)
  }

  ghost predicate Fair(setup: Setup) {
    IsChoice(setup.people.first) && IsChoice(setup.people.choose) && Faithful(setup.keys)
  }

  // ---------------------------------------------------------------- the invariant

  ghost predicate ForeignKeys(t: Tree) {
    && (forall id :: id in t.projects ==> t.projects[id].workspaceId in t.desk.dir.workspaces)
    && (forall id :: id in t.tasks ==> t.tasks[id].projectId in t.projects)
    && (forall id :: id in t.files ==> t.files[id].taskId in t.tasks)
  }

  ghost predicate DeskSound(k: Invitations.Desk) {
    && MemberRuns.WellFormed(k.dir)
    && forall id :: id in k.invites ==> id < k.nextInvite && k.invites[id].workspaceId in k.dir.workspaces
  }

  /** Numbers are handed out in ascending order. */
  ghost predicate Counted(t: Tree) {
    && (forall id :: id in t.projects ==> id < t.nextProject)
    && (forall id :: id in t.tasks ==> id < t.nextTask)
    && (forall id :: id in t.files ==> id < t.nextFile)
  }

  /** The key, read back, names the task the file hangs under, its project and its workspace. */
  predicate Truthful(t: Tree, keys: Codec, f: FileRow) {
    && keys.decode(f.storageKey).Some?
    && var k := keys.decode(f.storageKey).value;
       k.task == f.taskId && TaskIn(t, k.workspace, k.project, k.task)
  }

  ghost predicate KeysTruthful(t: Tree, keys: Codec) {
    forall id :: id in t.files ==> Truthful(t, keys, t.files[id])
  }

  ghost predicate KeysUnique(t: Tree) {
    forall id, j :: id in t.files && j in t.files && t.files[id].storageKey == t.files[j].storageKey ==> id == j
  }

  ghost predicate Sound(t: Tree, keys: Codec) {
    && DeskSound(t.desk) && ForeignKeys(t) && Counted(t) && KeysTruthful(t, keys) && KeysUnique(t)
  }

  // ---------------------------------------------------------------- the kinds of steps

  ghost predicate SameCounters(t: Tree, t2: Tree) {
    t2.nextProject == t.nextProject && t2.nextTask == t.nextTask && t2.nextFile == t.nextFile
  }

  /** Rows have gone, none has changed, and no row is left without its parent. */
  ghost predicate Trimmed(t: Tree, t2: Tree) {
    && (forall id :: id in t2.projects ==> id in t.projects && t2.projects[id] == t.projects[id])
    && (forall id :: id in t2.tasks ==> id in t.tasks && t2.tasks[id] == t.tasks[id])
    && (forall id :: id in t2.files ==> id in t.files && t2.files[id] == t.files[id])
    && SameCounters(t, t2)
  }

  /** Rows have changed, but not where they hang. */
  ghost predicate Relabelled(t: Tree, t2: Tree) {
    && t2.projects.Keys == t.projects.Keys && t2.tasks.Keys == t.tasks.Keys && t2.files == t.files
    && (forall id :: id in t.projects ==> t2.projects[id].workspaceId == t.projects[id].workspaceId)
    && (forall id :: id in t.tasks ==> t2.tasks[id].projectId == t.tasks[id].projectId)
    && t2.desk == t.desk && SameCounters(t, t2)
  }

  lemma TrimmedSound(t: Tree, keys: Codec, t2: Tree)
    requires Sound(t, keys) && Trimmed(t, t2) && ForeignKeys(t2) && DeskSound(t2.desk)
    ensures Sound(t2, keys)
  {
    forall id | id in t2.files ensures Truthful(t2, keys, t2.files[id]) {
      assert Truthful(t, keys, t.files[id]);
    }
  }

  lemma RelabelledSound(t: Tree, keys: Codec, t2: Tree)
    requires Sound(t, keys) && Relabelled(t, t2)
    ensures Sound(t2, keys)
  {
    forall id | id in t2.files ensures Truthful(t2, keys, t2.files[id]) {
      assert Truthful(t, keys, t.files[id]);
    }
  }

  lemma ProjectAddedSound(t: Tree, keys: Codec, row: ProjectRow)
    requires Sound(t, keys) && row.workspaceId in t.desk.dir.workspaces
    ensures Sound(t.(projects := t.projects[t.nextProject := row], nextProject := t.nextProject + 1), keys)
  {
    var t2 := t.(projects := t.projects[t.nextProject := row], nextProject := t.nextProject + 1);
    forall id | id in t2.files ensures Truthful(t2, keys, t2.files[id]) {
      assert Truthful(t, keys, t.files[id]);
    }
  }

  lemma TaskAddedSound(t: Tree, keys: Codec, row: TaskRow)
    requires Sound(t, keys) && row.projectId in t.projects
    ensures Sound(t.(tasks := t.tasks[t.nextTask := row], nextTask := t.nextTask + 1), keys)
  {
    var t2 := t.(tasks := t.tasks[t.nextTask := row], nextTask := t.nextTask + 1);
    forall id | id in t2.files ensures Truthful(t2, keys, t2.files[id]) {
      assert Truthful(t, keys, t.files[id]);
    }
  }

  lemma FileAddedSound(t: Tree, keys: Codec, k: Key, row: FileRow)
    requires Faithful(keys) && Sound(t, keys) && TaskIn(t, k.workspace, k.project, k.task)
             && FilesAt(t, keys.encode(k)) == {}
    requires row.storageKey == keys.encode(k) && row.taskId == k.task
    ensures Sound(t.(files := t.files[t.nextFile := row], nextFile := t.nextFile + 1), keys)
  {
    var t2 := t.(files := t.files[t.nextFile := row], nextFile := t.nextFile + 1);
    forall id | id in t2.files ensures Truthful(t2, keys, t2.files[id]) {
      assert id != t.nextFile ==> Truthful(t, keys, t.files[id]);
    }
    forall id | id in t.files ensures t.files[id].storageKey != row.storageKey {
      assert id !in FilesAt(t, keys.encode(k));
    }
  }

  /** Deleting a row takes with it exactly what hangs under it. */
  lemma TaskCascadeExact(t: Tree, gone: nat)
    requires ForeignKeys(t)
    ensures var t2 := Cascaded(t.(tasks := t.tasks - {gone}));
            t2.projects == t.projects && t2.tasks == t.tasks - {gone}
            && t2.files == map id | id in t.files && t.files[id].taskId != gone :: t.files[id]
  {
  }

  lemma ProjectCascadeExact(t: Tree, gone: nat)
    requires ForeignKeys(t)
    ensures var t2 := Cascaded(t.(projects := t.projects - {gone}));
            t2.projects == t.projects - {gone}
            && t2.tasks == (map id | id in t.tasks && t.tasks[id].projectId != gone :: t.tasks[id])
            && t2.files == map id | id in t.files && t.tasks[t.files[id].taskId].projectId != gone :: t.files[id]
  {
  }

  lemma CascadeTrims(t: Tree, t1: Tree)
    requires t1.projects.Keys <= t.projects.Keys && t1.tasks.Keys <= t.tasks.Keys && t1.files == t.files
    requires (forall id :: id in t1.projects ==> t1.projects[id] == t.projects[id])
             && (forall id :: id in t1.tasks ==> t1.tasks[id] == t.tasks[id]) && SameCounters(t, t1)
    ensures Trimmed(t, Cascaded(t1)) && ForeignKeys(Cascaded(t1))
  {
  }

  /** Workspaces go only by a deletion that succeeds, and new ones get fresh numbers. */
  lemma DirectoryStep(d: Members.Directory, req: Members.Request, choose: set<int> -> int, fails: nat -> bool)
    requires MemberRuns.WellFormed(d) && IsChoice(choose)
    ensures var (d2, r) := Members.Serve(d, req, choose, fails);
            && (forall ws :: ws in d.workspaces && ws !in d2.workspaces ==> r.Success? && req.Delete? && req.ws == ws)
            && (r.Success? && req.Delete? ==> req.ws !in d2.workspaces && req.ws in d.workspaces)
  {
    match req
    case Create(user) => MemberRuns.CreateWorkspaceOutcome(d, user, fails, 0);
    case Delete(user, ws) =>
    case Remove(user, ws, member) => MemberRuns.RemoveOutcome(d, user, ws, member, fails, choose);
    case Update(user, ws, member, role) =>
      MemberRuns.ChangeOwnerOutcome(d, user, ws, if role == Owner then Some(member) else None, choose, fails, 1);
    case Join(user, ws) =>
  }

  function DeletedWorkspace(req: Invitations.Request): Option<nat> {
    if req.Other? && req.req.Delete? then Some(req.req.ws) else None
  }

  lemma DeskStep(k: Invitations.Desk, req: Invitations.Request, setup: Invitations.Setup, env: Invitations.Env,
                 fails: nat -> bool)
    requires DeskSound(k) && IsChoice(setup.choose)
    ensures var (k2, r) := Invitations.Serve(k, req, setup, env, fails);
            && DeskSound(k2) && k.dir.nextWorkspace <= k2.dir.nextWorkspace
            && (forall ws :: ws in k2.dir.workspaces && ws < k.dir.nextWorkspace ==> ws in k.dir.workspaces)
            && (forall ws :: ws in k.dir.workspaces ==>
                  (ws !in k2.dir.workspaces <==> r.Success? && DeletedWorkspace(req) == Some(ws)))
            && (r.Success? && DeletedWorkspace(req).Some? ==> DeletedWorkspace(req).value in k.dir.workspaces)
  {
    match req
    case Invited(user, ws, email) =>
    case Accept(t, user) =>
      var id := Invitations.VerifyToken(k, t, setup.bcrypt, setup.first, env.now, fails, 0);
      if id.Success? {
        InvitationRuns.AcceptOutcome(k, id.value, k.invites[id.value].workspaceId, user, fails, 1);
      }
    case Decline(t) =>
    case Other(r) =>
      InvitationRuns.DirectoryStep(k.dir, r, setup.choose, fails);
      DirectoryStep(k.dir, r, setup.choose, fails);
  }

  lemma PeopleStep(t: Tree, req: Invitations.Request, setup: Setup, env: Env, fails: nat -> bool)
    requires Sound(t, setup.keys) && Fair(setup)
    ensures var t2 := ServePeople(t, req, setup, env, fails).0; Sound(t2, setup.keys) && Trimmed(t, t2)
  {
    DeskStep(t.desk, req, setup.people, env.people, fails);
    var desk2 := Invitations.Serve(t.desk, req, setup.people, env.people, fails).0;
    CascadeTrims(t, t.(desk := desk2));
    TrimmedSound(t, setup.keys, Cascaded(t.(desk := desk2)));
  }

  lemma CreateProjectSound(t: Tree, keys: Codec, ws: nat, name: string, now: int, fails: nat -> bool, n: nat)
    requires Sound(t, keys)
    ensures Sound(CreateProject(t, ws, name, now, fails, n).0, keys)
  {
    if ws in t.desk.dir.workspaces {
      ProjectAddedSound(t, keys, ProjectRow(ws, name, now, now));
    }
  }

  lemma UpdateProjectSound(t: Tree, keys: Codec, ws: nat, project: nat, name: string, now: int, fails: nat -> bool,
                           n: nat)
    requires Sound(t, keys)
    ensures Sound(UpdateProject(t, ws, project, name, now, fails, n).0, keys)
  {
    RelabelledSound(t, keys, UpdateProject(t, ws, project, name, now, fails, n).0);
  }

  lemma DeleteProjectSound(t: Tree, keys: Codec, ws: nat, project: nat, fails: nat -> bool, n: nat)
    requires Sound(t, keys)
    ensures Sound(DeleteProject(t, ws, project, fails, n).0, keys)
  {
    var t1 := t.(projects := t.projects - {project});
    CascadeTrims(t, t1);
    TrimmedSound(t, keys, Cascaded(t1));
  }

  lemma CreateTaskSound(t: Tree, keys: Codec, ws: nat, project: nat, body: NewTask, users: set<int>, now: int,
                        fails: nat -> bool, n: nat)
    requires Sound(t, keys)
    ensures Sound(CreateTask(t, ws, project, body, users, now, fails, n).0, keys)
  {
    if ProjectIn(t, ws, project) {
      TaskAddedSound(t, keys, TaskRow(project, body.title, body.instructions, body.assignedTo, body.priority,
                                      body.status, body.completedAt, now, now));
    }
  }

  lemma UpdateTaskSound(t: Tree, keys: Codec, ws: nat, user: int, project: nat, task: nat, patch: TaskUpdates.Patch,
                        users: set<int>, fails: nat -> bool, n: nat)
    requires Sound(t, keys)
    ensures Sound(UpdateTask(t, ws, user, project, task, patch, users, fails, n).0, keys)
  {
    RelabelledSound(t, keys, UpdateTask(t, ws, user, project, task, patch, users, fails, n).0);
  }

  lemma DeleteTaskSound(t: Tree, keys: Codec, ws: nat, task: nat, fails: nat -> bool, n: nat)
    requires Sound(t, keys)
    ensures Sound(DeleteTask(t, ws, task, fails, n).0, keys)
  {
    var t1 := t.(tasks := t.tasks - {task});
    CascadeTrims(t, t1);
    TrimmedSound(t, keys, Cascaded(t1));
  }

  lemma ConfirmSound(t: Tree, keys: Codec, k: Key, name: string, user: int, users: set<int>,
                     store: map<string, StoredObject>, first: set<nat> -> nat, fails: nat -> bool, n: nat)
    requires Faithful(keys) && Sound(t, keys)
    ensures Sound(ConfirmUpload(t, k, keys.encode(k), name, user, users, store, first, fails, n).0, keys)
  {
    var t2 := ConfirmUpload(t, k, keys.encode(k), name, user, users, store, first, fails, n).0;
    if t2 != t {
      FileAddedSound(t, keys, k, t2.files[t.nextFile]);
    }
  }

  lemma ActSound(t: Tree, ws: nat, user: int, op: Op, setup: Setup, env: Env, fails: nat -> bool, n: nat)
    requires Faithful(setup.keys) && Sound(t, setup.keys)
    ensures Sound(Act(t, ws, user, op, setup, env, fails, n).0, setup.keys)
  {
    var keys, now := setup.keys, env.people.now;
    match op
    case ToCreateProject(name) => CreateProjectSound(t, keys, ws, name, now, fails, n);
    case ToUpdateProject(project, name) => UpdateProjectSound(t, keys, ws, project, name, now, fails, n);
    case ToDeleteProject(project) => DeleteProjectSound(t, keys, ws, project, fails, n);
    case ToCreateTask(project, body) => CreateTaskSound(t, keys, ws, project, body, setup.users, now, fails, n);
    case ToUpdateTask(project, task, patch) =>
      UpdateTaskSound(t, keys, ws, user, project, task, patch, setup.users, fails, n);
    case ToDeleteTask(task) => DeleteTaskSound(t, keys, ws, task, fails, n);
    case ToConfirmUpload(project, task, file, name) =>
      ConfirmSound(t, keys, Key(ws, project, task, file), name, user, setup.users, env.store, setup.people.first,
                   fails, n);
    case _ =>
  }

  lemma DeskKept(t: Tree, ws: nat, user: int, op: Op, setup: Setup, env: Env, fails: nat -> bool, n: nat)
    ensures Act(t, ws, user, op, setup, env, fails, n).0.desk == t.desk
  {
  }

  lemma SoundStep(t: Tree, call: Call)
    requires Sound(t, call.setup.keys) && Fair(call.setup)
    ensures Sound(Serve(t, call.req, call.setup, call.env, call.fails).0, call.setup.keys)
  {
    match call.req
    case People(req) => PeopleStep(t, req, call.setup, call.env, call.fails);
    case Within(ws, user, op) => ActSound(t, ws, user, op, call.setup, call.env, call.fails, 1);
  }

  /** In every state of every run rows hang under rows, and keys are unique and name the true path. */
  lemma {:induction false} ReachableSound(h: History, k: nat, keys: Codec)
    requires Faithful(keys) && IsRun(h, keys) && k < |h.trees|
    ensures Sound(h.trees[k], keys)
  {
    if k > 0 {
      ReachableSound(h, k - 1, keys);
      assert Served(h, k - 1);
      SoundStep(h.trees[k - 1], h.calls[k - 1]);
    }
  }

  /** The key of a file row is the print of its actual workspace, project and task. */
  lemma KeyPrintsThePath(h: History, k: nat, id: nat, keys: Codec) returns (path: Key)
    requires Faithful(keys) && IsRun(h, keys) && k < |h.trees| && id in h.trees[k].files
    ensures var t := h.trees[k];
            && path.task == t.files[id].taskId && path.task in t.tasks
            && path.project == t.tasks[path.task].projectId && path.project in t.projects
            && path.workspace == t.projects[path.project].workspaceId && path.workspace in t.desk.dir.workspaces
            && t.files[id].storageKey == keys.encode(path)
  {
    ReachableSound(h, k, keys);
    assert Truthful(h.trees[k], keys, h.trees[k].files[id]);
    path := keys.decode(h.trees[k].files[id].storageKey).value;
  }

  /** The same with the template itself: workspaces/W/projects/P/tasks/T/files/F. */
  lemma KeySpellsThePath(h: History, k: nat, id: nat) returns (path: Key)
    requires IsRun(h, PathKeys()) && k < |h.trees| && id in h.trees[k].files
    ensures var t := h.trees[k];
            && path.task == t.files[id].taskId && path.task in t.tasks
            && path.project == t.tasks[path.task].projectId && path.project in t.projects
            && path.workspace == t.projects[path.project].workspaceId
            && t.files[id].storageKey ==
                 "workspaces/" + (Decimal(path.workspace) + ("/projects/" + (Decimal(path.project)
                 + ("/tasks/" + (Decimal(path.task) + ("/files/" + path.file))))))
  {
    PathKeysFaithful();
    path := KeyPrintsThePath(h, k, id, PathKeys());
    assert PathKeys().encode(path) == Print(path);
    KeySpelled(path);
  }

  // ---------------------------------------------------------------- what happens to a file

  predicate Confirms(req: Request, r: Result<Answer>, k: Key) {
    && req.Within? && req.op.ToConfirmUpload? && r.Success?
    && k == Key(req.ws, req.op.project, req.op.task, req.op.file)
  }

  /** A deletion, answered with success, of the task, the project or the workspace of the key. */
  predicate Ends(req: Request, r: Result<Answer>, k: Key) {
    && r.Success?
    && match req
       case People(req) => DeletedWorkspace(req) == Some(k.workspace)
       case Within(_, _, op) => op == ToDeleteProject(k.project) || op == ToDeleteTask(k.task)
  }

  /** Where the file of a sound tree is found by its key. */
  lemma FoundByKey(t: Tree, keys: Codec, k: Key, id: nat)
    requires Faithful(keys) && Sound(t, keys) && id in FilesAt(t, keys.encode(k))
    ensures FilesAt(t, keys.encode(k)) == {id} && t.files[id].taskId == k.task
            && TaskIn(t, k.workspace, k.project, k.task)
  {
    assert Truthful(t, keys, t.files[id]);
  }

  /** The files under k after a step: none if the step deletes from above, the confirmed one if there was none. */
  ghost predicate FilesMove(t: Tree, t2: Tree, key: string, ends: bool, confirms: bool) {
    && FilesAt(t2, key) == (if ends then {}
                                 else if confirms && FilesAt(t, key) == {} then {t.nextFile}
                                 else FilesAt(t, key))
    && forall id :: id in FilesAt(t, key) && !ends ==> t2.files[id] == t.files[id]
  }

  lemma TrimMoves(t: Tree, keys: Codec, t2: Tree, k: Key, ends: bool)
    requires Faithful(keys) && Sound(t, keys) && Sound(t2, keys) && Trimmed(t, t2)
    requires TaskIn(t, k.workspace, k.project, k.task) ==> (ends <==> !TaskIn(t2, k.workspace, k.project, k.task))
    requires forall id :: id in t.files && t.files[id].taskId in t2.tasks ==> id in t2.files
    ensures FilesMove(t, t2, keys.encode(k), ends, false)
  {
    forall id ensures id in FilesAt(t2, keys.encode(k)) <==> id in FilesAt(t, keys.encode(k)) && !ends {
      if id in FilesAt(t, keys.encode(k)) {
        FoundByKey(t, keys, k, id);
      }
      if id in FilesAt(t2, keys.encode(k)) {
        FoundByKey(t2, keys, k, id);
      }
    }
  }

  lemma PeopleMove(t: Tree, req: Invitations.Request, setup: Setup, env: Env, fails: nat -> bool, k: Key)
    requires Sound(t, setup.keys) && Fair(setup)
    ensures var (t2, r) := ServePeople(t, req, setup, env, fails);
            FilesMove(t, t2, setup.keys.encode(k), Ends(People(req), r, k), false)
  {
    PeopleStep(t, req, setup, env, fails);
    DeskStep(t.desk, req, setup.people, env.people, fails);
    var (t2, r) := ServePeople(t, req, setup, env, fails);
    if TaskIn(t, k.workspace, k.project, k.task) {
      assert k.workspace in t.desk.dir.workspaces;
    } else {
      GoneMove(t, setup.keys, t2, k);
    }
    if TaskIn(t, k.workspace, k.project, k.task) {
      TrimMoves(t, setup.keys, t2, k, Ends(People(req), r, k));
    }
  }

  lemma GoneMove(t: Tree, keys: Codec, t2: Tree, k: Key)
    requires Faithful(keys) && Sound(t, keys) && Sound(t2, keys) && Trimmed(t, t2)
             && !TaskIn(t, k.workspace, k.project, k.task)
    ensures FilesAt(t, keys.encode(k)) == {} && FilesAt(t2, keys.encode(k)) == {}
  {
    forall id ensures id !in FilesAt(t, keys.encode(k)) && id !in FilesAt(t2, keys.encode(k)) {
      if id in FilesAt(t, keys.encode(k)) {
        FoundByKey(t, keys, k, id);
      }
      if id in FilesAt(t2, keys.encode(k)) {
        FoundByKey(t2, keys, k, id);
      }
    }
  }

  lemma ProjectDeletedMoves(t: Tree, keys: Codec, gone: nat, k: Key)
    requires Faithful(keys) && Sound(t, keys)
    ensures FilesMove(t, Cascaded(t.(projects := t.projects - {gone})), keys.encode(k), gone == k.project, false)
  {
    var t2 := Cascaded(t.(projects := t.projects - {gone}));
    ProjectCascadeExact(t, gone);
    forall id ensures id in FilesAt(t2, keys.encode(k)) <==> id in FilesAt(t, keys.encode(k)) && gone != k.project {
      if id in FilesAt(t, keys.encode(k)) {
        FoundByKey(t, keys, k, id);
      }
    }
  }

  lemma TaskDeletedMoves(t: Tree, keys: Codec, gone: nat, k: Key)
    requires Faithful(keys) && Sound(t, keys)
    ensures FilesMove(t, Cascaded(t.(tasks := t.tasks - {gone})), keys.encode(k), gone == k.task, false)
  {
    var t2 := Cascaded(t.(tasks := t.tasks - {gone}));
    TaskCascadeExact(t, gone);
    forall id ensures id in FilesAt(t2, keys.encode(k)) <==> id in FilesAt(t, keys.encode(k)) && gone != k.task {
      if id in FilesAt(t, keys.encode(k)) {
        FoundByKey(t, keys, k, id);
      }
    }
  }

  lemma ConfirmMoves(t: Tree, keys: Codec, l: Key, name: string, user: int, users: set<int>,
                     store: map<string, StoredObject>, first: set<nat> -> nat, fails: nat -> bool, n: nat, k: Key)
    requires Faithful(keys) && Sound(t, keys)
    ensures var (t2, r) := ConfirmUpload(t, l, keys.encode(l), name, user, users, store, first, fails, n);
            FilesMove(t, t2, keys.encode(k), false, r.Success? && k == l)
  {
    var (t2, r) := ConfirmUpload(t, l, keys.encode(l), name, user, users, store, first, fails, n);
    assert keys.encode(k) == keys.encode(l) <==> k == l;
    if t2 != t {
      assert t2.files == t.files[t.nextFile := t2.files[t.nextFile]];
      forall id
        ensures id in FilesAt(t2, keys.encode(k)) <==> id in FilesAt(t, keys.encode(k)) || (k == l && id == t.nextFile)
      {}
    }
  }

  lemma FilesUntouched(t: Tree, ws: nat, user: int, op: Op, setup: Setup, env: Env, fails: nat -> bool, n: nat)
    requires !op.ToDeleteProject? && !op.ToDeleteTask? && !op.ToConfirmUpload?
    ensures Act(t, ws, user, op, setup, env, fails, n).0.files == t.files
  {
  }

  lemma DeleteProjectMoves(t: Tree, keys: Codec, ws: nat, project: nat, fails: nat -> bool, n: nat, k: Key)
    requires Faithful(keys) && Sound(t, keys)
    ensures var (t2, r) := DeleteProject(t, ws, project, fails, n);
            FilesMove(t, t2, keys.encode(k), r.Success? && project == k.project, false)
  {
    ProjectDeletedMoves(t, keys, project, k);
  }

  lemma DeleteTaskMoves(t: Tree, keys: Codec, ws: nat, task: nat, fails: nat -> bool, n: nat, k: Key)
    requires Faithful(keys) && Sound(t, keys)
    ensures var (t2, r) := DeleteTask(t, ws, task, fails, n);
            FilesMove(t, t2, keys.encode(k), r.Success? && task == k.task, false)
  {
    TaskDeletedMoves(t, keys, task, k);
  }

  lemma ActMoves(t: Tree, ws: nat, user: int, op: Op, setup: Setup, env: Env, fails: nat -> bool, n: nat, k: Key)
    requires Faithful(setup.keys) && Sound(t, setup.keys)
    ensures var (t2, r) := Act(t, ws, user, op, setup, env, fails, n);
            FilesMove(t, t2, setup.keys.encode(k), Ends(Within(ws, user, op), r, k),
                      Confirms(Within(ws, user, op), r, k))
  {
    if op.ToDeleteProject? {
      DeleteProjectMoves(t, setup.keys, ws, op.project, fails, n, k);
    } else if op.ToDeleteTask? {
      DeleteTaskMoves(t, setup.keys, ws, op.task, fails, n, k);
    } else if op.ToConfirmUpload? {
      ConfirmMoves(t, setup.keys, Key(ws, op.project, op.task, op.file), op.originalName, user, setup.users, env.store,
                   setup.people.first, fails, n, k);
    } else {
      FilesUntouched(t, ws, user, op, setup, env, fails, n);
    }
  }

  lemma FileStep(t: Tree, call: Call, k: Key)
    requires Sound(t, call.setup.keys) && Fair(call.setup)
    ensures var (t2, r) := Serve(t, call.req, call.setup, call.env, call.fails);
            FilesMove(t, t2, call.setup.keys.encode(k), Ends(call.req, r, k), Confirms(call.req, r, k))
  {
    match call.req
    case People(req) => PeopleMove(t, req, call.setup, call.env, call.fails, k);
    case Within(ws, user, op) => ActMoves(t, ws, user, op, call.setup, call.env, call.fails, 1, k);
  }

  // ---------------------------------------------------------------- runs of uploads

  predicate ConfirmedAt(h: History, i: nat, k: Key) {
    i < |h.calls| && i < |h.replies| && Confirms(h.calls[i].req, h.replies[i], k)
  }

  /** Nothing above k is deleted by the calls from i to before j. */
  predicate Kept(h: History, i: nat, j: nat, k: Key) {
    forall m :: i <= m < j && m < |h.calls| && m < |h.replies| ==> !Ends(h.calls[m].req, h.replies[m], k)
  }

  /** Some confirmation of k before call j succeeded, and nothing above it has been deleted since. */
  ghost predicate Live(h: History, j: nat, k: Key) {
    exists i: nat :: i < j && ConfirmedAt(h, i, k) && Kept(h, i, j, k)
  }

  lemma LiveStep(h: History, j: nat, k: Key)
    requires j < |h.calls| && j < |h.replies|
    ensures Live(h, j + 1, k) <==> !Ends(h.calls[j].req, h.replies[j], k) && (Live(h, j, k) || ConfirmedAt(h, j, k))
  {
    if Live(h, j + 1, k) {
      var i: nat :| i < j + 1 && ConfirmedAt(h, i, k) && Kept(h, i, j + 1, k);
      assert Kept(h, i, j, k);
    }
    if !Ends(h.calls[j].req, h.replies[j], k) {
      if Live(h, j, k) {
        var i: nat :| i < j && ConfirmedAt(h, i, k) && Kept(h, i, j, k);
        assert Kept(h, i, j + 1, k);
      } else if ConfirmedAt(h, j, k) {
        assert Kept(h, j, j + 1, k);
      }
    }
  }

  lemma FileStepAt(h: History, j: nat, k: Key, keys: Codec)
    requires Faithful(keys) && IsRun(h, keys) && j < |h.calls|
    ensures FilesMove(h.trees[j], h.trees[j + 1], keys.encode(k),
                      Ends(h.calls[j].req, h.replies[j], k), ConfirmedAt(h, j, k))
  {
    ReachableSound(h, j, keys);
    assert Served(h, j);
    FileStep(h.trees[j], h.calls[j], k);
  }

  lemma {:induction false} PresentExactlyWhenLive(h: History, j: nat, k: Key, keys: Codec)
    requires Faithful(keys) && IsRun(h, keys) && j < |h.trees|
    ensures FilesAt(h.trees[j], keys.encode(k)) != {} <==> Live(h, j, k)
  {
    if j > 0 {
      PresentExactlyWhenLive(h, j - 1, k, keys);
      FileStepAt(h, j - 1, k, keys);
      LiveStep(h, j - 1, k);
    }
  }

  lemma GetFileFinds(t: Tree, keys: Codec, k: Key, fails: nat -> bool, n: nat)
    requires Faithful(keys) && Sound(t, keys)
    ensures GetFile(t, k, keys.encode(k), fails, n) ==
              if fails(n) then Failure(QueryFailed)
              else if FilesAt(t, keys.encode(k)) != {} then Success(DownloadUrl(keys.encode(k))) else Failure(NotFound)
  {
    if FilesAt(t, keys.encode(k)) != {} {
      var id :| id in FilesAt(t, keys.encode(k));
      FoundByKey(t, keys, k, id);
    }
  }

  /** In every run getFile answers exactly when the caller may read, no query fails, some earlier confirmUpload of the
      same workspace, project, task and file id succeeded, and nothing above the file was deleted since. */
  lemma FoundExactlyWhenLive(h: History, j: nat, k: Key, user: int, keys: Codec)
    requires Faithful(keys) && IsRun(h, keys) && j < |h.calls|
    requires h.calls[j].req == Within(k.workspace, user, ToGetFile(k.project, k.task, k.file))
    ensures h.replies[j].Success? <==>
              && Members.CanActivate(h.trees[j].desk.dir, k.workspace, user, None, h.calls[j].fails, 0).Success?
              && !h.calls[j].fails(1)
              && Live(h, j, k)
    ensures h.replies[j].Success? ==> h.replies[j] == Success(DownloadUrl(keys.encode(k)))
  {
    ReachableSound(h, j, keys);
    PresentExactlyWhenLive(h, j, k, keys);
    GetFileFinds(h.trees[j], keys, k, h.calls[j].fails, 1);
    assert Served(h, j);
  }

  /** With the template: what getFile signs is the path that was asked for. */
  lemma DownloadSpellsThePath(h: History, j: nat, k: Key, user: int)
    requires IsRun(h, PathKeys()) && j < |h.calls|
    requires h.calls[j].req == Within(k.workspace, user, ToGetFile(k.project, k.task, k.file)) && h.replies[j].Success?
    ensures Live(h, j, k)
    ensures h.replies[j] == Success(DownloadUrl(
              "workspaces/" + (Decimal(k.workspace) + ("/projects/" + (Decimal(k.project)
              + ("/tasks/" + (Decimal(k.task) + ("/files/" + k.file))))))))
  {
    PathKeysFaithful();
    FoundExactlyWhenLive(h, j, k, user, PathKeys());
    KeySpelled(k);
  }

  /** The one file under key is row, with this id. */
  ghost predicate Stored(t: Tree, key: string, id: nat, row: FileRow) {
    FilesAt(t, key) == {id} && t.files[id] == row
  }

  lemma StoredStays(h: History, i: nat, j: nat, k: Key, id: nat, row: FileRow, keys: Codec)
    requires Faithful(keys) && IsRun(h, keys) && i <= j < |h.trees|
    requires Stored(h.trees[i], keys.encode(k), id, row) && Kept(h, i, j, k)
    ensures Stored(h.trees[j], keys.encode(k), id, row)
    decreases j - i
  {
    if i < j {
      FileStepAt(h, i, k, keys);
      assert id in FilesAt(h.trees[i], keys.encode(k));
      StoredStays(h, i + 1, j, k, id, row, keys);
    }
  }

  lemma ConfirmAnswers(t: Tree, k: Key, key: string, name: string, user: int, users: set<int>,
                       store: map<string, StoredObject>, first: set<nat> -> nat, fails: nat -> bool, n: nat)
    requires IsChoice(first) && ConfirmUpload(t, k, key, name, user, users, store, first, fails, n).1.Success?
    ensures var (t2, r) := ConfirmUpload(t, k, key, name, user, users, store, first, fails, n);
            r.value.Confirmed? && r.value.fileId == k.file && r.value.id in FilesAt(t2, key)
  {
    if FilesAt(t, key) != {} {
      assert first(FilesAt(t, key)) in FilesAt(t, key);
    }
  }

  lemma ConfirmStores(t: Tree, call: Call, k: Key)
    requires Sound(t, call.setup.keys) && Fair(call.setup)
    requires Confirms(call.req, Serve(t, call.req, call.setup, call.env, call.fails).1, k)
    ensures var (t2, r) := Serve(t, call.req, call.setup, call.env, call.fails);
            r.value.Confirmed? && r.value.fileId == k.file && r.value.id in t2.files
            && Stored(t2, call.setup.keys.encode(k), r.value.id, t2.files[r.value.id])
  {
    var (t2, r) := Serve(t, call.req, call.setup, call.env, call.fails);
    SoundStep(t, call);
    ConfirmAnswers(t, k, call.setup.keys.encode(k), call.req.op.originalName, call.req.user, call.setup.users,
                   call.env.store, call.setup.people.first, call.fails, 1);
    FoundByKey(t2, call.setup.keys, k, r.value.id);
  }

  lemma ConfirmStoresAt(h: History, i: nat, k: Key, keys: Codec)
    requires Faithful(keys) && IsRun(h, keys) && ConfirmedAt(h, i, k)
    ensures var r := h.replies[i].value;
            && r.Confirmed? && r.fileId == k.file && r.id in h.trees[i + 1].files
            && Stored(h.trees[i + 1], keys.encode(k), r.id, h.trees[i + 1].files[r.id])
  {
    ReachableSound(h, i, keys);
    assert Served(h, i);
    ConfirmStores(h.trees[i], h.calls[i], k);
  }

  /** Confirming again returns the same id, leaves the first row as it was and adds no second one. */
  lemma ConfirmedAgain(h: History, i: nat, j: nat, k: Key, keys: Codec)
    requires Faithful(keys) && IsRun(h, keys)
    requires i < j && ConfirmedAt(h, i, k) && ConfirmedAt(h, j, k) && Kept(h, i, j, k)
    ensures h.replies[j] == h.replies[i] && h.replies[i].value.Confirmed?
    ensures var id := h.replies[i].value.id;
            && id in h.trees[i + 1].files && FilesAt(h.trees[j + 1], keys.encode(k)) == {id}
            && h.trees[j + 1].files[id] == h.trees[i + 1].files[id]
  {
    ConfirmStoresAt(h, i, k, keys);
    ConfirmStoresAt(h, j, k, keys);
    var id := h.replies[i].value.id;
    assert Kept(h, i + 1, j + 1, k);
    StoredStays(h, i + 1, j + 1, k, id, h.trees[i + 1].files[id], keys);
    assert id in {h.replies[j].value.id};
  }
}
