/** ProjectService, TaskService and StorageService as objects over one pool, proved against TenantTree and the lists. */
module TenantServices {
  import opened Basics
  import opened Schema
  import opened Transactions
  import opened SqlQueries
  import opened Listings
  import opened StorageKeys
  import opened TaskQueries
  import TaskUpdates
  import ListQueries
  import Members
  import TenantTree

  type Tree = TenantTree.Tree

  datatype ProjectView = ProjectView(name: string, createdAt: int, updatedAt: int)

  datatype TaskView = TaskView(title: string, instructions: Option<string>, assignedTo: Option<int>, priority: Priority,
                               status: Status, createdAt: int, completedAt: Option<int>, updatedAt: int)

  function ProjectViews(t: Tree, ids: seq<nat>): (views: seq<ProjectView>)
    requires forall i :: 0 <= i < |ids| ==> ids[i] in t.projects
  {
    seq(|ids|, i requires 0 <= i < |ids| =>
      var p := t.projects[ids[i]];
      ProjectView(p.name, p.createdAt, p.updatedAt))
  }

  function TaskViews(t: Tree, ids: seq<nat>): (views: seq<TaskView>)
    requires forall i :: 0 <= i < |ids| ==> ids[i] in t.tasks
  {
    seq(|ids|, i requires 0 <= i < |ids| =>
      var k := t.tasks[ids[i]];
      TaskView(k.title, k.instructions, k.assignedTo, k.priority, k.status, k.createdAt, k.completedAt, k.updatedAt))
  }

  class ProjectService {
    const pool: Pool<Tree>
    const rank: nat -> int    // how the database happens to break ties

    constructor (pool: Pool<Tree>, rank: nat -> int)
      ensures this.pool == pool && this.rank == rank
    {
      this.pool, this.rank := pool, rank;
    }

    method CreateProject(workspaceId: nat, name: string, now: int) returns (r: Result<TenantTree.Answer>)
      modifies pool`tables, pool`queries
      ensures (pool.tables, r) == TenantTree.CreateProject(old(pool.tables), workspaceId, name, now, pool.fails,
                                                           old(pool.queries))
    {
      var ok := pool.Attempt();
      var t := pool.tables;
      if !ok || workspaceId !in t.desk.dir.workspaces {
        return Failure(QueryFailed);
      }
      pool.tables := t.(projects := t.projects[t.nextProject := ProjectRow(workspaceId, name, now, now)],
                        nextProject := t.nextProject + 1);
      return Success(TenantTree.NoContent);
    }

    method UpdateProject(workspaceId: nat, projectId: nat, name: string, now: int)
      returns (r: Result<TenantTree.Answer>)
      modifies pool`tables, pool`queries
      ensures (pool.tables, r) == TenantTree.UpdateProject(old(pool.tables), workspaceId, projectId, name, now,
                                                           pool.fails, old(pool.queries))
    {
      var found := FindProject(workspaceId, projectId);
      if found.Failure? {
        return Failure(found.error);
      }
      var ok := pool.Attempt();
      if !ok {
        return Failure(QueryFailed);
      }
      var row := pool.tables.projects[projectId].(name := name, updatedAt := now);
      pool.tables := pool.tables.(projects := pool.tables.projects[projectId := row]);
      return Success(TenantTree.OneProject(row));
    }

    method DeleteProject(workspaceId: nat, projectId: nat) returns (r: Result<TenantTree.Answer>)
      modifies pool`tables, pool`queries
      ensures (pool.tables, r) == TenantTree.DeleteProject(old(pool.tables), workspaceId, projectId,
                                                           pool.fails, old(pool.queries))
    {
      var found := FindProject(workspaceId, projectId);
      if found.Failure? {
        return Failure(found.error);
      }
      var ok := pool.Attempt();
      if !ok {
        return Failure(QueryFailed);
      }
      pool.tables := TenantTree.Cascaded(pool.tables.(projects := pool.tables.projects - {projectId}));
      return Success(TenantTree.NoContent);
    }

    /** The ownership lookup that precedes an UPDATE or DELETE by id. */
    method FindProject(workspaceId: nat, projectId: nat) returns (r: Result<()>)
      modifies pool`queries
      ensures pool.queries == old(pool.queries) + 1
      ensures r == if pool.fails(old(pool.queries)) then Failure(QueryFailed)
                   else if TenantTree.ProjectIn(pool.tables, workspaceId, projectId) then Success(())
                   else Failure(NotFound)
    {
      var ok := pool.Attempt();
      if !ok {
        return Failure(QueryFailed);
      }
      return if TenantTree.ProjectIn(pool.tables, workspaceId, projectId) then Success(()) else Failure(NotFound);
    }

    /** One page of the projects of a workspace. A page below 1 makes OFFSET negative, which is an error. */
    method GetProject(workspaceId: nat, page: int, search: Option<string>, sortBy: Option<SortKey>,
                      sortOrder: Option<SortOrder>)
      returns (r: Result<seq<ProjectView>>, ghost listing: seq<nat>)
      requires Breaks(rank)
      modifies pool`queries
      ensures var t := pool.tables;
              ListQueries.Sortable(sortBy) ==>
                && IsListing(listing,
                             ListQueries.WantedProjects(t.projects, t.desk.dir.workspaces, workspaceId, search),
                             ListQueries.ProjectOrder(t.projects, sortBy, sortOrder, rank))
                && (forall id :: id in listing <==>
                      id in t.projects && t.projects[id].workspaceId == workspaceId
                      && workspaceId in t.desk.dir.workspaces && ListQueries.Found(search, t.projects[id].name))
      ensures pool.fails(old(pool.queries)) || !ListQueries.Sortable(sortBy) || page < 1 ==> r == Failure(QueryFailed)
      ensures !pool.fails(old(pool.queries)) && ListQueries.Sortable(sortBy) && 1 <= page ==>
                && r.Success? && |r.value| == |Page(listing, page)|
                && forall i :: 0 <= i < |r.value| ==>
                     && Page(listing, page)[i] in pool.tables.projects
                     && var row := pool.tables.projects[Page(listing, page)[i]];
                        r.value[i] == ProjectView(row.name, row.createdAt, row.updatedAt)
    {
      listing := [];
      var column := ListQueries.ListColumn(sortBy);
      var ok := pool.Attempt();
      if column.None? {
        return Failure(QueryFailed), listing;
      }
      var t := pool.tables;
      var from := ListQueries.ProjectsJoinWorkspaces(t.projects, t.desk.dir.workspaces);
      var query := ListQueries.ListQuery(WorkspaceId, ProjectName, column.value, sortOrder);
      var values := ListQueries.ListValues(workspaceId, search, page);
      ListQueries.ProjectListAnswer(t.projects, t.desk.dir.workspaces, workspaceId, page, search, sortBy, sortOrder,
                                    rank);
      var answer := Select(from, query, values, rank);
      listing := answer.1;
      ListQueries.ProjectListingSpelled(t.projects, t.desk.dir.workspaces, workspaceId, search, sortBy, sortOrder, rank,
                                        listing);
      if !ok || answer.0.Failure? {
        return Failure(QueryFailed), listing;
      }
      PageListed(listing, page);
      return Success(ProjectViews(t, answer.0.value)), listing;
    }
  }

  class TaskService {
    const pool: Pool<Tree>
    const users: set<int>
    const rank: nat -> int

    constructor (pool: Pool<Tree>, users: set<int>, rank: nat -> int)
      ensures this.pool == pool && this.users == users && this.rank == rank
    {
      this.pool, this.users, this.rank := pool, users, rank;
    }

    method CreateTask(workspaceId: nat, projectId: nat, body: TenantTree.NewTask, now: int)
      returns (r: Result<TenantTree.Answer>)
      modifies pool`tables, pool`queries
      ensures (pool.tables, r) == TenantTree.CreateTask(old(pool.tables), workspaceId, projectId, body, users, now,
                                                        pool.fails, old(pool.queries))
    {
      var ok := pool.Attempt();
      if !ok {
        return Failure(QueryFailed);
      }
      var t := pool.tables;
      if !TenantTree.ProjectIn(t, workspaceId, projectId) {
        return Failure(NotFound);
      }
      ok := pool.Attempt();
      if !ok || (body.assignedTo.Some? && body.assignedTo.value !in users) {
        return Failure(QueryFailed);
      }
      var row := TaskRow(projectId, body.title, body.instructions, body.assignedTo, body.priority, body.status,
                         body.completedAt, now, now);
      pool.tables := t.(tasks := t.tasks[t.nextTask := row], nextTask := t.nextTask + 1);
      return Success(TenantTree.OneTask(row));
    }

    /** The lookup, the role, the SET list and the UPDATE together do what the patch says. */
    method UpdateTask(userId: int, workspaceId: nat, projectId: nat, taskId: nat, body: TaskUpdates.Patch)
      returns (r: Result<TenantTree.Answer>)
      modifies pool`tables, pool`queries
      ensures (pool.tables, r) == TenantTree.UpdateTask(old(pool.tables), workspaceId, userId, projectId, taskId, body,
                                                        users, pool.fails, old(pool.queries))
      ensures var t, n := old(pool.tables), old(pool.queries);
              && (r.Success? <==>
                    && !pool.fails(n) && !pool.fails(n + 1) && !pool.fails(n + 2)
                    && taskId in t.tasks && t.tasks[taskId].projectId == projectId
                    && projectId in t.projects && t.projects[projectId].workspaceId == workspaceId
                    && !((workspaceId, userId) in t.desk.dir.members
                         && t.desk.dir.members[(workspaceId, userId)] == Member)
                    && TaskUpdates.SaysSomething(body) && TaskUpdates.Writable(body, users))
              && (r.Success? ==>
                    && r.value.OneTask? && pool.tables == t.(tasks := t.tasks[taskId := r.value.task])
                    && TaskUpdates.FieldsPatched(t.tasks[taskId], r.value.task, body))
              && (r.Failure? ==> pool.tables == t)
    {
      var t := pool.tables;
      var ok := pool.Attempt();
      if !ok {
        return Failure(QueryFailed);
      }
      if !TenantTree.TaskIn(t, workspaceId, projectId, taskId) {
        return Failure(NotFound);
      }
      ok := pool.Attempt();
      if !ok {
        return Failure(QueryFailed);
      }
      var userRole := Members.RoleOf(t.desk.dir, workspaceId, userId);
      // the column comes back as assigned_to, so the property assignedTo that is compared is undefined for every row
      var rowAssignedTo: Option<int> := None;
      if userRole == Some(Member) && rowAssignedTo != Some(userId) {
        return Failure(Forbidden);
      }
      var fields, values := TaskUpdates.BuildSets(body);
      if |fields| == 0 {
        return Failure(BadRequest);
      }
      TaskUpdates.UpdatePatchesOneRow(t.tasks, fields, values, taskId, body, users);
      values := values + [Int(taskId)];
      ok := pool.Attempt();
      var updated := TaskUpdates.RunUpdate(t.tasks, fields, |values|, values, users);
      if !ok || updated.Failure? {
        return Failure(QueryFailed);
      }
      pool.tables := t.(tasks := updated.value);
      return Success(TenantTree.OneTask(updated.value[taskId]));
    }

    method DeleteTask(workspaceId: nat, taskId: nat) returns (r: Result<TenantTree.Answer>)
      modifies pool`tables, pool`queries
      ensures (pool.tables, r) == TenantTree.DeleteTask(old(pool.tables), workspaceId, taskId, pool.fails,
                                                        old(pool.queries))
    {
      var ok := pool.Attempt();
      if !ok {
        return Failure(QueryFailed);
      }
      if !TenantTree.TaskInWorkspace(pool.tables, workspaceId, taskId) {
        return Failure(NotFound);
      }
      ok := pool.Attempt();
      if !ok {
        return Failure(QueryFailed);
      }
      pool.tables := TenantTree.Cascaded(pool.tables.(tasks := pool.tables.tasks - {taskId}));
      return Success(TenantTree.NoContent);
    }

    /** One page of the tasks that the filters want, in the order asked for. */
    method GetTask(projectId: nat, workspaceId: nat, page: int, status: Option<Status>, assignedTo: Option<int>,
                   priority: Option<Priority>, sortBy: Option<SortKey>, sortOrder: Option<SortOrder>,
                   search: Option<string>)
      returns (r: Result<seq<TaskView>>, ghost listing: seq<nat>)
      requires Breaks(rank)
      modifies pool`queries
      ensures var t := pool.tables;
              IsListing(listing,
                        WantedIds(t.tasks, t.projects,
                                  FilterOf(projectId, workspaceId, status, assignedTo, priority, search)),
                        TaskOrder(t.tasks, sortBy, sortOrder, rank))
      ensures var t := pool.tables;
              && (forall id ::
                    id in listing <==> Listed(t.tasks, t.projects, projectId, workspaceId, status, assignedTo, priority,
                                              search, id))
              && (forall i, j :: 0 <= i < j < |listing| ==>
                    && listing[i] != listing[j] && listing[i] in t.tasks && listing[j] in t.tasks
                    && MayPrecede(t.tasks[listing[i]], t.tasks[listing[j]], sortBy, sortOrder))
      ensures pool.fails(old(pool.queries)) || page < 1 ==> r == Failure(QueryFailed)
      ensures !pool.fails(old(pool.queries)) && 1 <= page ==>
                && r.Success? && |r.value| == |Page(listing, page)|
                && forall i :: 0 <= i < |r.value| ==>
                     && Page(listing, page)[i] in pool.tables.tasks
                     && var row := pool.tables.tasks[Page(listing, page)[i]];
                        r.value[i] == TaskView(row.title, row.instructions, row.assignedTo, row.priority, row.status,
                                               row.createdAt, row.completedAt, row.updatedAt)
    {
      var query, values := BuildTaskQuery(projectId, workspaceId, page, status, assignedTo, priority, sortBy,
                                          sortOrder, search);
      var t := pool.tables;
      QueryListsWanted(t.tasks, t.projects, query, values,
                       FilterOf(projectId, workspaceId, status, assignedTo, priority, search), sortBy, sortOrder, rank);
      TaskListAnswer(t.tasks, t.projects, query, values, page, rank);
      var answer := Select(TasksJoinProjects(t.tasks, t.projects), query, values, rank);
      listing := answer.1;
      ListingSpelled(t.tasks, t.projects, projectId, workspaceId, status, assignedTo, priority, search, sortBy,
                     sortOrder, rank, listing);
      var ok := pool.Attempt();
      if !ok || answer.0.Failure? {
        return Failure(QueryFailed), listing;
      }
      PageListed(listing, page);
      return Success(TaskViews(t, answer.0.value)), listing;
    }
  }

  class StorageService {
    const pool: Pool<Tree>
    const users: set<int>
    const first: set<nat> -> nat

    constructor (pool: Pool<Tree>, users: set<int>, first: set<nat> -> nat)
      ensures this.pool == pool && this.users == users && this.first == first
    {
      this.pool, this.users, this.first := pool, users, first;
    }

    method CreateUploadUrl(workspaceId: nat, projectId: nat, taskId: nat, uuid: string)
      returns (r: Result<TenantTree.Answer>)
      modifies pool`queries
      ensures var k := Key(workspaceId, projectId, taskId, uuid);
              r == TenantTree.CreateUploadUrl(pool.tables, k, Print(k), pool.fails, old(pool.queries))
    {
      var ok := pool.Attempt();
      if !ok {
        return Failure(QueryFailed);
      }
      if !TenantTree.TaskIn(pool.tables, workspaceId, projectId, taskId) {
        return Failure(NotFound);
      }
      var key := Print(Key(workspaceId, projectId, taskId, uuid));
      return Success(TenantTree.UploadUrl(key, uuid));
    }

    method ConfirmUpload(workspaceId: nat, projectId: nat, taskId: nat, fileId: string, originalName: string,
                         userId: int, store: map<string, TenantTree.StoredObject>)
      returns (r: Result<TenantTree.Answer>)
      modifies pool`tables, pool`queries
      ensures var k := Key(workspaceId, projectId, taskId, fileId);
              (pool.tables, r) == TenantTree.ConfirmUpload(old(pool.tables), k, Print(k), originalName, userId, users,
                                                           store, first, pool.fails, old(pool.queries))
    {
      var t := pool.tables;
      var ok := pool.Attempt();
      if !ok {
        return Failure(QueryFailed);
      }
      if !TenantTree.TaskIn(t, workspaceId, projectId, taskId) {
        return Failure(NotFound);
      }
      var storageKey := Print(Key(workspaceId, projectId, taskId, fileId));
      if storageKey !in store {
        return Failure(BadRequest);
      }
      var head := store[storageKey];
      if head.contentLength.None? || head.contentType.None? || head.contentType.value == "" {
        return Failure(BadRequest);
      }
      ok := pool.Attempt();
      if !ok {
        return Failure(QueryFailed);
      }
      var rows := TenantTree.FilesAt(t, storageKey);
      if rows == {} {
        if userId !in users {
          return Failure(QueryFailed);
        }
        var row := FileRow(taskId, storageKey, originalName, head.contentType.value, head.contentLength.value, userId);
        pool.tables := t.(files := t.files[t.nextFile := row], nextFile := t.nextFile + 1);
        return Success(TenantTree.Confirmed(t.nextFile, fileId));
      }
      ok := pool.Attempt();
      if !ok {
        return Failure(QueryFailed);
      }
      return Success(TenantTree.Confirmed(first(rows), fileId));
    }

    method GetFile(workspaceId: nat, projectId: nat, taskId: nat, fileId: string) returns (r: Result<TenantTree.Answer>)
      modifies pool`queries
      ensures var k := Key(workspaceId, projectId, taskId, fileId);
              r == TenantTree.GetFile(pool.tables, k, Print(k), pool.fails, old(pool.queries))
    {
      var storageKey := Print(Key(workspaceId, projectId, taskId, fileId));
      var ok := pool.Attempt();
      if !ok {
        return Failure(QueryFailed);
      }
      var t := pool.tables;
      var rows := set id | id in TenantTree.FilesAt(t, storageKey) && t.files[id].taskId == taskId
                           && TenantTree.TaskIn(t, workspaceId, projectId, taskId);
      if rows == {} {
        assert forall id :: id in TenantTree.FilesAt(t, storageKey) ==> id !in rows;
        return Failure(NotFound);
      }
      var id :| id in rows;
      return Success(TenantTree.DownloadUrl(t.files[id].storageKey));
    }
  }
}
