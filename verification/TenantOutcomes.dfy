/**
  What each request on projects, tasks and files answers and leaves in the tables, row by row: who may make it, when it
  succeeds, and the whole tree after it. A request that is answered with an error has changed nothing.
*/
module TenantOutcomes {
  import opened Basics
  import opened Schema
  import opened StorageKeys
  import opened TenantTree
  import opened TenantRuns
  import opened TaskUpdates

  ghost predicate HasRole(t: Tree, ws: nat, user: int, roles: set<Role>) {
    (ws, user) in t.desk.dir.members && t.desk.dir.members[(ws, user)] in roles
  }

  /** The first n queries of a request do not fail. */
  ghost predicate FirstWork(fails: nat -> bool, n: nat) {
    forall k: nat :: k < n ==> !fails(k)
  }

  lemma FirstQueries(fails: nat -> bool)
    ensures FirstWork(fails, 2) <==> !fails(0) && !fails(1)
    ensures FirstWork(fails, 3) <==> FirstWork(fails, 2) && !fails(2)
    ensures FirstWork(fails, 4) <==> FirstWork(fails, 3) && !fails(3)
  {
  }

  lemma RolesAreThree(role: Role)
    ensures role in {Owner, Admin, Role.Member}
  {
  }

  // ---------------------------------------------------------------- projects

  lemma ProjectCreated(t: Tree, ws: nat, user: int, name: string, setup: Setup, env: Env, fails: nat -> bool)
    requires DeskSound(t.desk)
    ensures var (t2, r) := Serve(t, Within(ws, user, ToCreateProject(name)), setup, env, fails);
            && (r.Success? <==> FirstWork(fails, 2) && HasRole(t, ws, user, {Owner, Admin}))
            && (r.Success? ==>
                  var row := ProjectRow(ws, name, env.people.now, env.people.now);
                  t2 == t.(projects := t.projects[t.nextProject := row], nextProject := t.nextProject + 1))
            && (r.Failure? ==> t2 == t)
            && (FirstWork(fails, 2) && r.Failure? ==> r.error == Forbidden)
  {
    FirstQueries(fails);
  }

  /** The new name and the instant of the request are written, and answered; the project stays where it is. */
  lemma ProjectRenamed(t: Tree, ws: nat, user: int, project: nat, name: string, setup: Setup, env: Env,
                       fails: nat -> bool)
    ensures var (t2, r) := Serve(t, Within(ws, user, ToUpdateProject(project, name)), setup, env, fails);
            && (r.Success? <==>
                  && FirstWork(fails, 3) && HasRole(t, ws, user, {Owner, Admin})
                  && project in t.projects && t.projects[project].workspaceId == ws)
            && (r.Success? ==>
                  var row := ProjectRow(ws, name, t.projects[project].createdAt, env.people.now);
                  t2 == t.(projects := t.projects[project := row]) && r.value == OneProject(row))
            && (r.Failure? ==> t2 == t)
            && (FirstWork(fails, 3) && r.Failure? ==>
                  r.error == if HasRole(t, ws, user, {Owner, Admin}) then NotFound else Forbidden)
  {
    FirstQueries(fails);
  }

  /** Exactly the project, its tasks and their files go. */
  lemma ProjectDeleted(t: Tree, ws: nat, user: int, project: nat, setup: Setup, env: Env, fails: nat -> bool)
    requires ForeignKeys(t)
    ensures var (t2, r) := Serve(t, Within(ws, user, ToDeleteProject(project)), setup, env, fails);
            && (r.Success? <==>
                  && FirstWork(fails, 3) && HasRole(t, ws, user, {Owner, Admin})
                  && project in t.projects && t.projects[project].workspaceId == ws)
            && (r.Success? ==>
                  t2 == t.(projects := t.projects - {project},
                           tasks := map id | id in t.tasks && t.tasks[id].projectId != project :: t.tasks[id],
                           files := map id | id in t.files && t.tasks[t.files[id].taskId].projectId != project ::
                                      t.files[id]))
            && (r.Failure? ==> t2 == t)
            && (FirstWork(fails, 3) && r.Failure? ==>
                  r.error == if HasRole(t, ws, user, {Owner, Admin}) then NotFound else Forbidden)
  {
    FirstQueries(fails);
    ProjectCascadeExact(t, project);
  }

  // ---------------------------------------------------------------- tasks

  /** Every member creates tasks; the row is what the body says. */
  lemma TaskCreated(t: Tree, ws: nat, user: int, project: nat, body: NewTask, setup: Setup, env: Env,
                    fails: nat -> bool)
    ensures var (t2, r) := Serve(t, Within(ws, user, ToCreateTask(project, body)), setup, env, fails);
            && (r.Success? <==>
                  && FirstWork(fails, 3) && (ws, user) in t.desk.dir.members
                  && project in t.projects && t.projects[project].workspaceId == ws
                  && (body.assignedTo.Some? ==> body.assignedTo.value in setup.users))
            && (r.Success? ==>
                  var row := TaskRow(project, body.title, body.instructions, body.assignedTo, body.priority,
                                     body.status, body.completedAt, env.people.now, env.people.now);
                  t2 == t.(tasks := t.tasks[t.nextTask := row], nextTask := t.nextTask + 1) && r.value == OneTask(row))
            && (r.Failure? ==> t2 == t)
            && (FirstWork(fails, 3) && r.Failure? ==>
                  r.error == if (ws, user) !in t.desk.dir.members then Forbidden
                             else if project in t.projects && t.projects[project].workspaceId == ws then QueryFailed
                             else NotFound)
  {
    FirstQueries(fails);
    if (ws, user) in t.desk.dir.members {
      RolesAreThree(t.desk.dir.members[(ws, user)]);
    }
  }

  /** The update: no plain member may, the patch must say something and keep to the constraints, and then exactly the
      fields it gives are overwritten in exactly that row, which is the answer. */
  lemma TaskUpdated(t: Tree, ws: nat, user: int, project: nat, task: nat, patch: Patch, setup: Setup, env: Env,
                    fails: nat -> bool)
    ensures var (t2, r) := Serve(t, Within(ws, user, ToUpdateTask(project, task, patch)), setup, env, fails);
            && (r.Success? <==>
                  && FirstWork(fails, 4) && HasRole(t, ws, user, {Owner, Admin}) && Placed(t, ws, project, task)
                  && SaysSomething(patch) && Writable(patch, setup.users))
            && (r.Success? ==>
                  && r.value.OneTask? && t2 == t.(tasks := t.tasks[task := r.value.task])
                  && FieldsPatched(t.tasks[task], r.value.task, patch))
            && (r.Failure? ==> t2 == t)
            && (FirstWork(fails, 4) && r.Failure? ==>
                  r.error == if (ws, user) !in t.desk.dir.members then Forbidden
                             else if !Placed(t, ws, project, task) then NotFound
                             else if HasRole(t, ws, user, {Role.Member}) then Forbidden
                             else if !SaysSomething(patch) then BadRequest else QueryFailed)
  {
    FirstQueries(fails);
    if (ws, user) in t.desk.dir.members {
      RolesAreThree(t.desk.dir.members[(ws, user)]);
    }
  }

  /** The task is in the table, under this project, and the project in this workspace. */
  ghost predicate Placed(t: Tree, ws: nat, project: nat, task: nat) {
    && task in t.tasks && t.tasks[task].projectId == project
    && project in t.projects && t.projects[project].workspaceId == ws
  }

  /** The same of a run: the reply to the call, and the next tree. */
  lemma TaskUpdatedInRun(h: History, k: nat, ws: nat, user: int, project: nat, task: nat, patch: Patch, keys: Codec)
    requires IsRun(h, keys) && k < |h.calls| && h.calls[k].req == Within(ws, user, ToUpdateTask(project, task, patch))
    ensures var (t, t2, r) := (h.trees[k], h.trees[k + 1], h.replies[k]);
            && (r.Success? <==>
                  && FirstWork(h.calls[k].fails, 4) && HasRole(t, ws, user, {Owner, Admin})
                  && Placed(t, ws, project, task) && SaysSomething(patch) && Writable(patch, h.calls[k].setup.users))
            && (r.Success? ==>
                  && r.value.OneTask? && t2 == t.(tasks := t.tasks[task := r.value.task])
                  && FieldsPatched(t.tasks[task], r.value.task, patch))
            && (r.Failure? ==> t2 == t)
  {
    assert Served(h, k);
    var call := h.calls[k];
    TaskUpdated(h.trees[k], ws, user, project, task, patch, call.setup, call.env, call.fails);
  }

  /** Exactly the task and its files go; the task may be in any project of the workspace. */
  lemma TaskDeleted(t: Tree, ws: nat, user: int, task: nat, setup: Setup, env: Env, fails: nat -> bool)
    requires ForeignKeys(t)
    ensures var (t2, r) := Serve(t, Within(ws, user, ToDeleteTask(task)), setup, env, fails);
            && (r.Success? <==>
                  && FirstWork(fails, 3) && HasRole(t, ws, user, {Owner, Admin})
                  && task in t.tasks && t.projects[t.tasks[task].projectId].workspaceId == ws)
            && (r.Success? ==>
                  t2 == t.(tasks := t.tasks - {task},
                           files := map id | id in t.files && t.files[id].taskId != task :: t.files[id]))
            && (r.Failure? ==> t2 == t)
            && (FirstWork(fails, 3) && r.Failure? ==>
                  r.error == if HasRole(t, ws, user, {Owner, Admin}) then NotFound else Forbidden)
  {
    FirstQueries(fails);
    TaskCascadeExact(t, task);
  }

  // ---------------------------------------------------------------- files

  lemma UploadSigned(t: Tree, ws: nat, user: int, project: nat, task: nat, setup: Setup, env: Env, fails: nat -> bool)
    ensures var (t2, r) := Serve(t, Within(ws, user, ToCreateUploadUrl(project, task)), setup, env, fails);
            && t2 == t
            && (r.Success? <==>
                  FirstWork(fails, 2) && HasRole(t, ws, user, {Owner, Admin}) && Placed(t, ws, project, task))
            && (r.Success? ==>
                  r.value == UploadUrl(setup.keys.encode(Key(ws, project, task, env.uuid)), env.uuid))
            && (FirstWork(fails, 2) && r.Failure? ==>
                  r.error == if HasRole(t, ws, user, {Owner, Admin}) then NotFound else Forbidden)
  {
    FirstQueries(fails);
  }

  /** The store has the object, with its length and a content type that is not empty. */
  ghost predicate IsStored(store: map<string, StoredObject>, key: string, size: nat, contentType: string) {
    key in store && store[key] == StoredObject(Some(size), Some(contentType)) && contentType != ""
  }

  /** The first confirmation of a key writes one row, with what the store says of the object. */
  lemma UploadConfirmed(t: Tree, ws: nat, user: int, project: nat, task: nat, file: string, name: string,
                        size: nat, contentType: string, setup: Setup, env: Env, fails: nat -> bool)
    requires var key := setup.keys.encode(Key(ws, project, task, file));
             && IsStored(env.store, key, size, contentType)
             && forall id :: id in t.files ==> t.files[id].storageKey != key
    ensures var (t2, r) := Serve(t, Within(ws, user, ToConfirmUpload(project, task, file, name)), setup, env, fails);
            && (r.Success? <==>
                  && FirstWork(fails, 3) && HasRole(t, ws, user, {Owner, Admin}) && Placed(t, ws, project, task)
                  && user in setup.users)
            && (r.Success? ==>
                  var key := setup.keys.encode(Key(ws, project, task, file));
                  var row := FileRow(task, key, name, contentType, size, user);
                  && t2 == t.(files := t.files[t.nextFile := row], nextFile := t.nextFile + 1)
                  && r.value == Confirmed(t.nextFile, file))
            && (r.Failure? ==> t2 == t)
            && (FirstWork(fails, 3) && r.Failure? ==>
                  r.error == if !HasRole(t, ws, user, {Owner, Admin}) then Forbidden
                             else if !Placed(t, ws, project, task) then NotFound else QueryFailed)
  {
    FirstQueries(fails);
    forall id ensures id !in FilesAt(t, setup.keys.encode(Key(ws, project, task, file))) {}
  }

  /** A later one changes nothing and answers the id of the row that is there. */
  lemma UploadConfirmedBefore(t: Tree, ws: nat, user: int, project: nat, task: nat, file: string, name: string,
                              size: nat, contentType: string, id: nat, setup: Setup, env: Env, fails: nat -> bool)
    requires Fair(setup) && KeysUnique(t)
    requires var key := setup.keys.encode(Key(ws, project, task, file));
             IsStored(env.store, key, size, contentType) && id in t.files && t.files[id].storageKey == key
    ensures var (t2, r) := Serve(t, Within(ws, user, ToConfirmUpload(project, task, file, name)), setup, env, fails);
            && t2 == t
            && (r.Success? <==>
                  FirstWork(fails, 4) && HasRole(t, ws, user, {Owner, Admin}) && Placed(t, ws, project, task))
            && (r.Success? ==> r.value == Confirmed(id, file))
  {
    FirstQueries(fails);
    var ids := FilesAt(t, setup.keys.encode(Key(ws, project, task, file)));
    assert id in ids;
    assert setup.people.first(ids) in ids;
  }

  /** Without a complete object in the store nothing is confirmed. */
  lemma NotUploaded(t: Tree, ws: nat, user: int, project: nat, task: nat, file: string, name: string,
                    setup: Setup, env: Env, fails: nat -> bool)
    requires forall size: nat, contentType: string ::
               !IsStored(env.store, setup.keys.encode(Key(ws, project, task, file)), size, contentType)
    ensures var (t2, r) := Serve(t, Within(ws, user, ToConfirmUpload(project, task, file, name)), setup, env, fails);
            && t2 == t && r.Failure?
            && (FirstWork(fails, 2) && HasRole(t, ws, user, {Owner, Admin}) && Placed(t, ws, project, task) ==>
                  r.error == BadRequest)
  {
    FirstQueries(fails);
    var key := setup.keys.encode(Key(ws, project, task, file));
    if Uploaded(env.store, key) {
      assert IsStored(env.store, key, env.store[key].contentLength.value, env.store[key].contentType.value);
    }
  }

  /** Every member downloads; what is not there under exactly that path is not found. */
  lemma FileSigned(t: Tree, ws: nat, user: int, project: nat, task: nat, file: string, setup: Setup, env: Env,
                   fails: nat -> bool)
    ensures var (t2, r) := Serve(t, Within(ws, user, ToGetFile(project, task, file)), setup, env, fails);
            var key := setup.keys.encode(Key(ws, project, task, file));
            && t2 == t
            && (r.Success? <==>
                  && FirstWork(fails, 2) && (ws, user) in t.desk.dir.members && Placed(t, ws, project, task)
                  && exists id :: id in t.files && t.files[id].storageKey == key && t.files[id].taskId == task)
            && (r.Success? ==> r.value == DownloadUrl(key))
            && (FirstWork(fails, 2) && r.Failure? ==>
                  r.error == if (ws, user) in t.desk.dir.members then NotFound else Forbidden)
  {
    FirstQueries(fails);
    var key := setup.keys.encode(Key(ws, project, task, file));
    if id :| id in t.files && t.files[id].storageKey == key && t.files[id].taskId == task {
      assert id in FilesAt(t, key);
    }
  }
}
