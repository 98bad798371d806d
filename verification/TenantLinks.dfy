/**
  What never changes in the tenant tree: no row is ever moved under another parent, no number is given out twice, and
  what has been deleted stays deleted.
*/
module TenantLinks {
  import opened Basics
  import opened Schema
  import opened StorageKeys
  import opened TenantTree
  import opened TenantRuns
  import TaskUpdates

  lemma LongerRun(h: History, call: Call, keys: Codec) returns (g: History)
    requires IsRun(h, keys) && Fits(call.setup, keys)
    ensures IsRun(g, keys) && g.calls == h.calls + [call] && |g.replies| == |h.replies| + 1
    ensures var (t, r) := Serve(h.trees[|h.calls|], call.req, call.setup, call.env, call.fails);
            g.trees == h.trees + [t] && g.replies == h.replies + [r]
  {
    var (t, r) := Serve(h.trees[|h.calls|], call.req, call.setup, call.env, call.fails);
    g := History(h.trees + [t], h.calls + [call], h.replies + [r]);
    forall k: nat | k < |g.calls| ensures Served(g, k) && Fits(g.calls[k].setup, keys) {
      if k < |h.calls| {
        assert Served(h, k);
      }
    }
  }

  /** Every sequence of calls has a run, and only one. */
  lemma {:induction false} EveryCallSequenceRuns(calls: seq<Call>, keys: Codec) returns (h: History)
    requires forall k :: 0 <= k < |calls| ==> Fits(calls[k].setup, keys)
    ensures IsRun(h, keys) && h.calls == calls
    ensures forall g :: IsRun(g, keys) && g.calls == calls ==> g == h
    decreases |calls|
  {
    if calls == [] {
      h := History([EMPTY_TREE], [], []);
    } else {
      var n := |calls| - 1;
      var before := EveryCallSequenceRuns(calls[..n], keys);
      h := LongerRun(before, calls[n], keys);
      assert calls == calls[..n] + [calls[n]];
      forall g | IsRun(g, keys) && g.calls == calls ensures g == h {
        ShortenedRun(g, n, keys);
        assert Served(g, n);
        assert g.trees == g.trees[..n + 1] + [g.trees[n + 1]];
        assert g.replies == g.replies[..n] + [g.replies[n]];
      }
    }
  }

  lemma ShortenedRun(h: History, n: nat, keys: Codec)
    requires IsRun(h, keys) && n <= |h.calls|
    ensures IsRun(History(h.trees[..n + 1], h.calls[..n], h.replies[..n]), keys)
  {
    var g := History(h.trees[..n + 1], h.calls[..n], h.replies[..n]);
    forall k: nat | k < n ensures Served(g, k) && Fits(g.calls[k].setup, keys) {
      assert Served(h, k);
    }
  }

  // ---------------------------------------------------------------- links

  /** From t to t2 counters only grow, surviving rows hang where they hung, and rows that appear have fresh numbers. */
  ghost predicate LinksKept(t: Tree, t2: Tree) {
    && t.nextProject <= t2.nextProject && t.nextTask <= t2.nextTask && t.nextFile <= t2.nextFile
    && (forall id :: id in t2.projects && id < t.nextProject ==>
          id in t.projects && t2.projects[id].workspaceId == t.projects[id].workspaceId)
    && (forall id :: id in t2.tasks && id < t.nextTask ==>
          id in t.tasks && t2.tasks[id].projectId == t.tasks[id].projectId)
    && (forall id :: id in t2.files && id < t.nextFile ==> id in t.files && t2.files[id] == t.files[id])
  }

  ghost predicate WorkspacesKept(t: Tree, t2: Tree) {
    && t.desk.dir.nextWorkspace <= t2.desk.dir.nextWorkspace
    && forall ws :: ws in t2.desk.dir.workspaces && ws < t.desk.dir.nextWorkspace ==> ws in t.desk.dir.workspaces
  }

  lemma DeletionLinks(t: Tree, ws: nat, id: nat, fails: nat -> bool, n: nat)
    ensures LinksKept(t, DeleteProject(t, ws, id, fails, n).0) && LinksKept(t, DeleteTask(t, ws, id, fails, n).0)
  {
  }

  lemma UpdateLinks(t: Tree, ws: nat, user: int, project: nat, task: nat, patch: TaskUpdates.Patch, users: set<int>,
                    fails: nat -> bool, n: nat)
    ensures LinksKept(t, UpdateTask(t, ws, user, project, task, patch, users, fails, n).0)
  {
  }

  lemma ProjectLinks(t: Tree, ws: nat, project: nat, name: string, now: int, fails: nat -> bool, n: nat)
    ensures LinksKept(t, CreateProject(t, ws, name, now, fails, n).0)
    ensures LinksKept(t, UpdateProject(t, ws, project, name, now, fails, n).0)
  {
  }

  lemma CreateTaskLinks(t: Tree, ws: nat, project: nat, body: NewTask, users: set<int>, now: int, fails: nat -> bool,
                        n: nat)
    ensures LinksKept(t, CreateTask(t, ws, project, body, users, now, fails, n).0)
  {
  }

  lemma ConfirmLinks(t: Tree, k: Key, key: string, name: string, user: int, users: set<int>,
                     store: map<string, StoredObject>, first: set<nat> -> nat, fails: nat -> bool, n: nat)
    ensures LinksKept(t, ConfirmUpload(t, k, key, name, user, users, store, first, fails, n).0)
  {
  }

  lemma ActLinks(t: Tree, ws: nat, user: int, op: Op, setup: Setup, env: Env, fails: nat -> bool, n: nat)
    ensures LinksKept(t, Act(t, ws, user, op, setup, env, fails, n).0)
  {
    var now := env.people.now;
    match op
    case ToCreateProject(name) => ProjectLinks(t, ws, 0, name, now, fails, n);
    case ToUpdateProject(project, name) => ProjectLinks(t, ws, project, name, now, fails, n);
    case ToCreateTask(project, body) => CreateTaskLinks(t, ws, project, body, setup.users, now, fails, n);
    case ToConfirmUpload(project, task, file, name) =>
      var k := Key(ws, project, task, file);
      ConfirmLinks(t, k, setup.keys.encode(k), name, user, setup.users, env.store, setup.people.first, fails, n);
    case ToDeleteProject(project) => DeletionLinks(t, ws, project, fails, n);
    case ToDeleteTask(task) => DeletionLinks(t, ws, task, fails, n);
    case ToUpdateTask(project, task, patch) => UpdateLinks(t, ws, user, project, task, patch, setup.users, fails, n);
    case _ =>
  }

  lemma LinkStep(t: Tree, call: Call)
    requires Sound(t, call.setup.keys) && Fair(call.setup)
    ensures var t2 := Serve(t, call.req, call.setup, call.env, call.fails).0; LinksKept(t, t2) && WorkspacesKept(t, t2)
  {
    match call.req
    case People(req) =>
      PeopleStep(t, req, call.setup, call.env, call.fails);
      DeskStep(t.desk, req, call.setup.people, call.env.people, call.fails);
    case Within(ws, user, op) =>
      ActLinks(t, ws, user, op, call.setup, call.env, call.fails, 1);
      DeskKept(t, ws, user, op, call.setup, call.env, call.fails, 1);
  }

  /** Between any two points of a run: foreign keys and storage keys are never rewritten, and numbers never reused. */
  lemma LinksNeverRewritten(h: History, i: nat, j: nat, keys: Codec)
    requires Faithful(keys) && IsRun(h, keys) && i <= j < |h.trees|
    ensures LinksKept(h.trees[i], h.trees[j]) && WorkspacesKept(h.trees[i], h.trees[j])
    decreases j - i
  {
    if i == j {
      ReachableSound(h, i, keys);
    } else {
      ReachableSound(h, i, keys);
      assert Served(h, i);
      LinkStep(h.trees[i], h.calls[i]);
      LinksNeverRewritten(h, i + 1, j, keys);
    }
  }

  // ---------------------------------------------------------------- deletions are final

  /** The task, its project or its workspace had a number once and is gone. */
  ghost predicate Gone(t: Tree, k: Key) {
    || (k.task < t.nextTask && k.task !in t.tasks)
    || (k.project < t.nextProject && k.project !in t.projects)
    || (k.workspace < t.desk.dir.nextWorkspace && k.workspace !in t.desk.dir.workspaces)
  }

  lemma DeletedIsGone(t: Tree, call: Call, k: Key)
    requires Sound(t, call.setup.keys) && Fair(call.setup)
    requires Ends(call.req, Serve(t, call.req, call.setup, call.env, call.fails).1, k)
    ensures Gone(Serve(t, call.req, call.setup, call.env, call.fails).0, k)
  {
    match call.req
    case People(req) => DeskStep(t.desk, req, call.setup.people, call.env.people, call.fails);
    case Within(ws, user, op) =>
  }

  lemma GoneRefuses(t: Tree, k: Key, key: string, name: string, user: int, users: set<int>,
                    store: map<string, StoredObject>, first: set<nat> -> nat, fails: nat -> bool, n: nat)
    requires ForeignKeys(t) && Gone(t, k)
    ensures ConfirmUpload(t, k, key, name, user, users, store, first, fails, n).1.Failure?
    ensures CreateUploadUrl(t, k, key, fails, n).Failure? && GetFile(t, k, key, fails, n).Failure?
  {
  }

  predicate Concerns(req: Request, k: Key) {
    && req.Within? && req.ws == k.workspace
    && (req.op == ToGetFile(k.project, k.task, k.file) || req.op == ToCreateUploadUrl(k.project, k.task)
        || (req.op.ToConfirmUpload? && req.op.project == k.project && req.op.task == k.task && req.op.file == k.file))
  }

  lemma GoneRefusesCall(t: Tree, call: Call, k: Key)
    requires ForeignKeys(t) && Gone(t, k) && Concerns(call.req, k)
    ensures Serve(t, call.req, call.setup, call.env, call.fails).1.Failure?
  {
    var l := if call.req.op.ToCreateUploadUrl? then k.(file := call.env.uuid) else k;
    GoneRefuses(t, l, call.setup.keys.encode(l), if call.req.op.ToConfirmUpload? then call.req.op.originalName else "",
                call.req.user, call.setup.users, call.env.store, call.setup.people.first, call.fails, 1);
  }

  /** Once a task, its project or its workspace has been deleted, no upload or download under that path succeeds. */
  lemma DeletionIsFinal(h: History, i: nat, j: nat, k: Key, keys: Codec)
    requires Faithful(keys) && IsRun(h, keys) && i < j < |h.calls|
    requires Ends(h.calls[i].req, h.replies[i], k) && Concerns(h.calls[j].req, k)
    ensures h.replies[j].Failure?
  {
    ReachableSound(h, i, keys);
    assert Served(h, i);
    DeletedIsGone(h.trees[i], h.calls[i], k);
    LinksNeverRewritten(h, i + 1, j, keys);
    ReachableSound(h, j, keys);
    assert Gone(h.trees[j], k);
    assert Served(h, j);
    GoneRefusesCall(h.trees[j], h.calls[j], k);
  }

  // ---------------------------------------------------------------- refused requests, and the two phases of an upload

  /** A request of the tree that is answered with an error has changed nothing. */
  lemma RefusedChangesNothing(t: Tree, ws: nat, user: int, op: Op, setup: Setup, env: Env, fails: nat -> bool)
    requires Serve(t, Within(ws, user, op), setup, env, fails).1.Failure?
    ensures Serve(t, Within(ws, user, op), setup, env, fails).0 == t
  {
  }

  predicate Refused(h: History, m: nat) {
    m < |h.calls| && m < |h.replies| && h.calls[m].req.Within? && h.replies[m].Failure?
  }

  /** The first k calls without the refused ones, and the replies to them. */
  function Effective(h: History, k: nat): (seq<Call>, seq<Result<Answer>>)
    requires k <= |h.calls| && k <= |h.replies|
  {
    if k == 0 then ([], [])
    else
      var (calls, replies) := Effective(h, k - 1);
      if Refused(h, k - 1) then (calls, replies) else (calls + [h.calls[k - 1]], replies + [h.replies[k - 1]])
  }

  /** Refused requests leave no trace: the run of the other calls gets the same replies and ends in the same tree. */
  lemma {:induction false} RefusedLeaveNoTrace(h: History, k: nat, keys: Codec) returns (g: History)
    requires IsRun(h, keys) && k < |h.trees|
    ensures IsRun(g, keys) && (g.calls, g.replies) == Effective(h, k) && g.trees[|g.calls|] == h.trees[k]
  {
    if k == 0 {
      g := History([EMPTY_TREE], [], []);
    } else {
      var before := RefusedLeaveNoTrace(h, k - 1, keys);
      var call := h.calls[k - 1];
      assert Served(h, k - 1);
      if Refused(h, k - 1) {
        RefusedChangesNothing(h.trees[k - 1], call.req.ws, call.req.user, call.req.op, call.setup, call.env,
                              call.fails);
        g := before;
      } else {
        g := LongerRun(before, call, keys);
      }
    }
  }

  /** The key signed for the upload, the key looked up in the store, the key kept in the row and the key signed for the
      download are the same. */
  lemma UploadThenDownload(h: History, i: nat, j: nat, m: nat, ws: nat, project: nat, task: nat, keys: Codec)
    requires Faithful(keys) && IsRun(h, keys) && i < j < m < |h.calls|
    requires h.calls[i].req.Within? && h.calls[i].req.ws == ws && h.calls[i].req.op == ToCreateUploadUrl(project, task)
    requires h.replies[i].Success?
    requires ConfirmedAt(h, j, Key(ws, project, task, h.calls[i].env.uuid))
    requires h.calls[m].req.Within? && h.calls[m].req.ws == ws
             && h.calls[m].req.op == ToGetFile(project, task, h.calls[i].env.uuid) && h.replies[m].Success?
    ensures h.replies[i].value.UploadUrl? && h.replies[i].value.fileId == h.calls[i].env.uuid
    ensures var key := h.replies[i].value.key;
            && Uploaded(h.calls[j].env.store, key)
            && h.replies[j].value.Confirmed? && h.replies[j].value.id in h.trees[j + 1].files
            && h.trees[j + 1].files[h.replies[j].value.id].storageKey == key
            && h.replies[m].value == DownloadUrl(key)
  {
    var k := Key(ws, project, task, h.calls[i].env.uuid);
    UploadKey(h, i, k, keys);
    ConfirmStoresAt(h, j, k, keys);
    assert h.replies[j].value.id in FilesAt(h.trees[j + 1], keys.encode(k));
    ConfirmedWasUploaded(h, j, k, keys);
    FoundExactlyWhenLive(h, m, k, h.calls[m].req.user, keys);
  }

  lemma UploadKey(h: History, i: nat, k: Key, keys: Codec)
    requires IsRun(h, keys) && i < |h.calls| && h.replies[i].Success? && k.file == h.calls[i].env.uuid
    requires h.calls[i].req.Within? && h.calls[i].req.ws == k.workspace
             && h.calls[i].req.op == ToCreateUploadUrl(k.project, k.task)
    ensures h.replies[i] == Success(UploadUrl(keys.encode(k), k.file))
  {
    assert Served(h, i);
  }

  lemma ConfirmedWasUploaded(h: History, j: nat, k: Key, keys: Codec)
    requires IsRun(h, keys) && ConfirmedAt(h, j, k)
    ensures Uploaded(h.calls[j].env.store, keys.encode(k))
  {
    assert Served(h, j);
  }
}
