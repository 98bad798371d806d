/**
  The tenant tree: workspaces contain projects, which contain tasks, which contain files. The requests of
  ProjectService, TaskService and StorageService, beside those on members and invitations, each one cut off by a
  query that fails wherever the schedule puts it.
*/
module TenantTree {
  import opened Basics
  import opened Schema
  import opened StorageKeys
  import TaskUpdates
  import Members
  import Invitations

  datatype Tree = Tree(desk: Invitations.Desk, projects: map<nat, ProjectRow>, tasks: map<nat, TaskRow>,
                       files: map<nat, FileRow>, nextProject: nat, nextTask: nat, nextFile: nat)

  const EMPTY_TREE := Tree(Invitations.EMPTY_DESK, map[], map[], map[], 1, 1, 1)

  /** What a HEAD request says about an object; either header may be missing. */
  datatype StoredObject = StoredObject(contentLength: Option<nat>, contentType: Option<string>)

  datatype NewTask = NewTask(title: string, instructions: Option<string>, assignedTo: Option<int>, priority: Priority,
                             status: Status, completedAt: Option<int>)

  /** UploadUrl and DownloadUrl carry the key that is signed. */
  datatype Answer =
    | NoContent
    | OneProject(project: ProjectRow)
    | OneTask(task: TaskRow)
    | UploadUrl(key: string, fileId: string)
    | Confirmed(id: nat, fileId: string)
    | DownloadUrl(key: string)

  // ---------------------------------------------------------------- lookups and cascades

  predicate ProjectIn(t: Tree, ws: nat, project: nat) {
    project in t.projects && t.projects[project].workspaceId == ws
  }

  predicate TaskIn(t: Tree, ws: nat, project: nat, task: nat) {
    task in t.tasks && t.tasks[task].projectId == project && ProjectIn(t, ws, project)
  }

  predicate TaskInWorkspace(t: Tree, ws: nat, task: nat) {
    task in t.tasks && ProjectIn(t, ws, t.tasks[task].projectId)
  }

  function FilesAt(t: Tree, key: string): set<nat> {
    set id | id in t.files && t.files[id].storageKey == key
  }

  /** ON DELETE CASCADE: of projects, tasks and files only those stay whose parent is there. */
  function Cascaded(t: Tree): Tree {
    var projects := map id | id in t.projects && t.projects[id].workspaceId in t.desk.dir.workspaces :: t.projects[id];
    var tasks := map id | id in t.tasks && t.tasks[id].projectId in projects :: t.tasks[id];
    var files := map id | id in t.files && t.files[id].taskId in tasks :: t.files[id];
    t.(projects := projects, tasks := tasks, files := files)
  }

  // ---------------------------------------------------------------- projects

  function CreateProject(t: Tree, ws: nat, name: string, now: int, fails: nat -> bool, n: nat): (Tree, Result<Answer>) {
    if fails(n) || ws !in t.desk.dir.workspaces then (t, Failure(QueryFailed))
    else
      (t.(projects := t.projects[t.nextProject := ProjectRow(ws, name, now, now)], nextProject := t.nextProject + 1),
       Success(NoContent))
  }

  function UpdateProject(t: Tree, ws: nat, project: nat, name: string, now: int, fails: nat -> bool, n: nat)
    : (Tree, Result<Answer>)
  {
    if fails(n) then (t, Failure(QueryFailed))
    else if !ProjectIn(t, ws, project) then (t, Failure(NotFound))
    else if fails(n + 1) then (t, Failure(QueryFailed))
    else
      var row := t.projects[project].(name := name, updatedAt := now);
      (t.(projects := t.projects[project := row]), Success(OneProject(row)))
  }

  function DeleteProject(t: Tree, ws: nat, project: nat, fails: nat -> bool, n: nat): (Tree, Result<Answer>) {
    if fails(n) then (t, Failure(QueryFailed))
    else if !ProjectIn(t, ws, project) then (t, Failure(NotFound))
    else if fails(n + 1) then (t, Failure(QueryFailed))
    else (Cascaded(t.(projects := t.projects - {project})), Success(NoContent))
  }

  // ---------------------------------------------------------------- tasks

  function CreateTask(t: Tree, ws: nat, project: nat, body: NewTask, users: set<int>, now: int,
                      fails: nat -> bool, n: nat): (Tree, Result<Answer>)
  {
    if fails(n) then (t, Failure(QueryFailed))
    else if !ProjectIn(t, ws, project) then (t, Failure(NotFound))
    else if fails(n + 1) || (body.assignedTo.Some? && body.assignedTo.value !in users) then (t, Failure(QueryFailed))
    else
      var row := TaskRow(project, body.title, body.instructions, body.assignedTo, body.priority, body.status,
                         body.completedAt, now, now);
      (t.(tasks := t.tasks[t.nextTask := row], nextTask := t.nextTask + 1), Success(OneTask(row)))
  }

  function UpdateTask(t: Tree, ws: nat, user: int, project: nat, task: nat, body: TaskUpdates.Patch, users: set<int>,
                      fails: nat -> bool, n: nat): (Tree, Result<Answer>)
  {
    var role := Members.RoleOf(t.desk.dir, ws, user);
    var (tasks2, r) := TaskUpdates.UpdateTask(t.tasks, t.projects, users, role, ws, project, task, body);
    if fails(n) then (t, Failure(QueryFailed))
    else if r == Failure(NotFound) then (t, Failure(NotFound))
    else if fails(n + 1) then (t, Failure(QueryFailed))
    else if r == Failure(Forbidden) || r == Failure(BadRequest) then (t, Failure(r.error))
    else if fails(n + 2) || r.Failure? then (t, Failure(QueryFailed))
    else (t.(tasks := tasks2), Success(OneTask(r.value)))
  }

  /** The project of the route is not looked at. */
  function DeleteTask(t: Tree, ws: nat, task: nat, fails: nat -> bool, n: nat): (Tree, Result<Answer>) {
    if fails(n) then (t, Failure(QueryFailed))
    else if !TaskInWorkspace(t, ws, task) then (t, Failure(NotFound))
    else if fails(n + 1) then (t, Failure(QueryFailed))
    else (Cascaded(t.(tasks := t.tasks - {task})), Success(NoContent))
  }

  // ---------------------------------------------------------------- files

  /** key is the storage key of k in this and the next two. */
  function CreateUploadUrl(t: Tree, k: Key, key: string, fails: nat -> bool, n: nat): Result<Answer> {
    if fails(n) then Failure(QueryFailed)
    else if !TaskIn(t, k.workspace, k.project, k.task) then Failure(NotFound)
    else Success(UploadUrl(key, k.file))
  }

  /** The object is there with both headers; an empty content type counts as none. */
  predicate Uploaded(store: map<string, StoredObject>, key: string) {
    key in store && store[key].contentLength.Some? && store[key].contentType.Some? && store[key].contentType.value != ""
  }

  /** first picks the row of an unordered SELECT. */
  function ConfirmUpload(t: Tree, k: Key, key: string, originalName: string, user: int, users: set<int>,
                         store: map<string, StoredObject>, first: set<nat> -> nat, fails: nat -> bool, n: nat)
    : (Tree, Result<Answer>)
  {
    if fails(n) then (t, Failure(QueryFailed))
    else if !TaskIn(t, k.workspace, k.project, k.task) then (t, Failure(NotFound))
    else if !Uploaded(store, key) then (t, Failure(BadRequest))
    else if fails(n + 1) then (t, Failure(QueryFailed))
    else if FilesAt(t, key) == {} then
      if user !in users then (t, Failure(QueryFailed))
      else
        var row := FileRow(k.task, key, originalName, store[key].contentType.value, store[key].contentLength.value,
                           user);
        (t.(files := t.files[t.nextFile := row], nextFile := t.nextFile + 1), Success(Confirmed(t.nextFile, k.file)))
    else if fails(n + 2) then (t, Failure(QueryFailed))
    else (t, Success(Confirmed(first(FilesAt(t, key)), k.file)))
  }

  function GetFile(t: Tree, k: Key, key: string, fails: nat -> bool, n: nat): Result<Answer> {
    if fails(n) then Failure(QueryFailed)
    else if TaskIn(t, k.workspace, k.project, k.task)
            && exists id :: id in FilesAt(t, key) && t.files[id].taskId == k.task
    then Success(DownloadUrl(key))
    else Failure(NotFound)
  }

  // ---------------------------------------------------------------- requests

  datatype Op =
    | ToCreateProject(name: string)
    | ToUpdateProject(project: nat, name: string)
    | ToDeleteProject(project: nat)
    | ToCreateTask(project: nat, newTask: NewTask)
    | ToUpdateTask(project: nat, task: nat, patch: TaskUpdates.Patch)
    | ToDeleteTask(task: nat)
    | ToCreateUploadUrl(project: nat, task: nat)
    | ToConfirmUpload(project: nat, task: nat, file: string, originalName: string)
    | ToGetFile(project: nat, task: nat, file: string)

  datatype Request =
    | People(req: Invitations.Request)
    | Within(ws: nat, user: int, op: Op)

  datatype Setup = Setup(people: Invitations.Setup, users: set<int>, keys: Codec)

  /** uuid is the value that randomUUID returns. */
  datatype Env = Env(people: Invitations.Env, store: map<string, StoredObject>, uuid: string)

  function RolesFor(op: Op): Option<set<Role>> {
    match op
    case ToGetFile(_, _, _) => None
    case ToCreateTask(_, _) => Some({Owner, Admin, Member})
    case ToUpdateTask(_, _, _) => Some({Owner, Admin, Member})
    case _ => Some({Owner, Admin})
  }

  function Act(t: Tree, ws: nat, user: int, op: Op, setup: Setup, env: Env, fails: nat -> bool, n: nat)
    : (Tree, Result<Answer>)
  {
    match op
    case ToCreateProject(name) => CreateProject(t, ws, name, env.people.now, fails, n)
    case ToUpdateProject(project, name) => UpdateProject(t, ws, project, name, env.people.now, fails, n)
    case ToDeleteProject(project) => DeleteProject(t, ws, project, fails, n)
    case ToCreateTask(project, body) => CreateTask(t, ws, project, body, setup.users, env.people.now, fails, n)
    case ToUpdateTask(project, task, body) => UpdateTask(t, ws, user, project, task, body, setup.users, fails, n)
    case ToDeleteTask(task) => DeleteTask(t, ws, task, fails, n)
    case ToCreateUploadUrl(project, task) =>
      var k := Key(ws, project, task, env.uuid);
      (t, CreateUploadUrl(t, k, setup.keys.encode(k), fails, n))
    case ToConfirmUpload(project, task, file, name) =>
      var k := Key(ws, project, task, file);
      ConfirmUpload(t, k, setup.keys.encode(k), name, user, setup.users, env.store, setup.people.first, fails, n)
    case ToGetFile(project, task, file) =>
      var k := Key(ws, project, task, file);
      (t, GetFile(t, k, setup.keys.encode(k), fails, n))
  }

  /** A request on members or invitations; deleting a workspace cascades down the tree. */
  function ServePeople(t: Tree, req: Invitations.Request, setup: Setup, env: Env, fails: nat -> bool)
    : (Tree, Result<Answer>)
  {
    var (desk2, r) := Invitations.Serve(t.desk, req, setup.people, env.people, fails);
    (Cascaded(t.(desk := desk2)), if r.Success? then Success(NoContent) else Failure(r.error))
  }

  /** A request as it arrives, the guard of its workspace first. */
  function Serve(t: Tree, req: Request, setup: Setup, env: Env, fails: nat -> bool): (Tree, Result<Answer>) {
    match req
    case People(r) => ServePeople(t, r, setup, env, fails)
    case Within(ws, user, op) =>
      var allowed := Members.CanActivate(t.desk.dir, ws, user, RolesFor(op), fails, 0);
      if allowed.Failure? then (t, Failure(allowed.error)) else Act(t, ws, user, op, setup, env, fails, 1)
  }
}
