/**
  The query that getTask builds. The builder appends conditions and parameters side by side; it is proved to mean
  the filter it was given, for every row, at every step of the building.
*/
module TaskQueries {
  import opened Basics
  import opened Schema
  import opened SqlQueries
  import opened Listings
  import LikePatterns

  datatype SortKey = ByCreatedAt | ByUpdatedAt | ByPriority | ByTitle | ByStatus

  datatype SortOrder = Asc | Desc

  /** What the caller asks for; None is a filter left out. */
  datatype Filter = Filter(projectId: int, workspaceId: int, status: Option<Status>, assignedTo: Option<int>,
                           priority: Option<Priority>, search: Option<string>)

  /** A task beside the project it hangs under. */
  datatype Joined = Joined(task: TaskRow, projectId: nat, project: ProjectRow)

  function FilterOf(projectId: int, workspaceId: int, status: Option<Status>, assignedTo: Option<int>,
                    priority: Option<Priority>, search: Option<string>): Filter
  {
    Filter(projectId, workspaceId, status, assignedTo, priority, Some(if search.Some? then search.value else ""))
  }

  // ---------------------------------------------------------------- the direct specification

  predicate Wanted(f: Filter, j: Joined) {
    && j.projectId == f.projectId && j.project.workspaceId == f.workspaceId
    && (f.status.Some? ==> j.task.status == f.status.value)
    && (f.assignedTo.Some? ==> j.task.assignedTo == Some(f.assignedTo.value))
    && (f.priority.Some? ==> j.task.priority == f.priority.value)
    && (f.search.Some? ==> LikePatterns.SearchKeeps(f.search.value, j.task.title))
  }

  function JoinedAt(tasks: map<nat, TaskRow>, projects: map<nat, ProjectRow>, id: nat): Joined
    requires id in tasks && tasks[id].projectId in projects
  {
    Joined(tasks[id], tasks[id].projectId, projects[tasks[id].projectId])
  }

  function WantedIds(tasks: map<nat, TaskRow>, projects: map<nat, ProjectRow>, f: Filter): set<nat> {
    set id | id in tasks && tasks[id].projectId in projects && Wanted(f, JoinedAt(tasks, projects, id))
  }

  function SortCell(t: TaskRow, key: SortKey): Value {
    match key
    case ByCreatedAt => Int(t.createdAt)
    case ByUpdatedAt => Int(t.updatedAt)
    case ByPriority => Text(PriorityText(t.priority))
    case ByTitle => Text(t.title)
    case ByStatus => Text(StatusText(t.status))
  }

  /** a is listed before b: by the sort column in the direction asked for, newest first by default; where that
      ties, in an order of the database's own. */
  predicate ListedBefore(tasks: map<nat, TaskRow>, sortBy: Option<SortKey>, sortOrder: Option<SortOrder>,
                         rank: nat -> int, a: nat, b: nat)
  {
    && a in tasks && b in tasks
    && var key := if sortBy.Some? then sortBy.value else ByCreatedAt;
       RowLe(SortCell(tasks[a], key), SortCell(tasks[b], key), sortOrder == Some(Asc), rank(a), rank(b))
  }

  ghost function TaskOrder(tasks: map<nat, TaskRow>, sortBy: Option<SortKey>, sortOrder: Option<SortOrder>,
                           rank: nat -> int): (nat, nat) -> bool
  {
    (a: nat, b: nat) => ListedBefore(tasks, sortBy, sortOrder, rank, a, b)
  }

  // ---------------------------------------------------------------- the joined table

  function OptionalInt(v: Option<int>): Value {
    if v.Some? then Int(v.value) else Null
  }

  function TaskCell(j: Joined, c: Column): Value {
    match c
    case ProjectId => Int(j.projectId)
    case ProjectWorkspace => Int(j.project.workspaceId)
    case ProjectName => Text(j.project.name)
    case Title => Text(j.task.title)
    case Instructions => if j.task.instructions.Some? then Text(j.task.instructions.value) else Null
    case AssignedTo => OptionalInt(j.task.assignedTo)
    case CompletedAt => OptionalInt(j.task.completedAt)
    case PriorityColumn => Text(PriorityText(j.task.priority))
    case StatusColumn => Text(StatusText(j.task.status))
    case CreatedAt => Int(j.task.createdAt)
    case UpdatedAt => Int(j.task.updatedAt)
    case _ => Null
  }

  function TaskCells(j: Joined): Row {
    (c: Column) => TaskCell(j, c)
  }

  /** FROM tasks t JOIN projects p ON p.id = t.project_id */
  function TasksJoinProjects(tasks: map<nat, TaskRow>, projects: map<nat, ProjectRow>): map<nat, Row> {
    map id | id in tasks && tasks[id].projectId in projects :: TaskCells(JoinedAt(tasks, projects, id))
  }

  function SortColumn(sortBy: Option<SortKey>): Column {
    if sortBy.None? then CreatedAt
    else
      match sortBy.value
      case ByCreatedAt => CreatedAt
      case ByUpdatedAt => UpdatedAt
      case ByPriority => PriorityColumn
      case ByTitle => Title
      case ByStatus => StatusColumn
  }

  // ---------------------------------------------------------------- the builder

  /** The conditions and parameters built so far select, of all rows, exactly those that f wants. */
  ghost predicate Means(where: seq<Cond>, values: seq<Value>, f: Filter) {
    && BoundConds(where, |values|)
    && forall j: Joined {:trigger TaskCells(j)} ::
         Holds(where, TaskCells(j), values) <==> Wanted(f, j)
  }

  /** column = $k compares the cell with the k-th value; NULL equals nothing. */
  lemma EqMeans(column: Column, row: Row, values: seq<Value>, k: nat)
    requires 1 <= k <= |values| && values[k - 1] != Null
    ensures BoundCond(Eq(Col(column), Param(k)), |values|)
    ensures IsTrue(Eq(Col(column), Param(k)), row, values) <==> row(column) == values[k - 1]
  {
  }

  /** The condition column = $k on the value just pushed; it holds of a row where wanted does. */
  ghost predicate Filters(column: Column, v: Value, f: Filter, g: Filter) {
    forall j: Joined :: Wanted(g, j) <==> Wanted(f, j) && TaskCell(j, column) == v
  }

  lemma EqPushed(was: seq<Cond>, before: seq<Value>, where: seq<Cond>, values: seq<Value>, column: Column, v: Value,
                 f: Filter, g: Filter)
    requires Means(was, before, f) && v != Null && Filters(column, v, f, g)
    requires values == before + [v] && where == was + [Eq(Col(column), Param(|values|))]
    ensures Means(where, values, g)
  {
    var c := Eq(Col(column), Param(|values|));
    ConditionAdded(was, c, (c: Column) => Null, before, [v]);
    forall j: Joined {:trigger TaskCells(j)} ensures Holds(where, TaskCells(j), values) <==> Wanted(g, j) {
      ConditionAdded(was, c, TaskCells(j), before, [v]);
      EqMeans(column, TaskCells(j), values, |values|);
    }
  }

  lemma StatusPushed(was: seq<Cond>, before: seq<Value>, where: seq<Cond>, values: seq<Value>, s: Option<Status>,
                     f: Filter)
    requires Means(was, before, f) && f.status.None? && s.Some?
    requires values == before + [Text(StatusText(s.value))] && where == was + [Eq(Col(StatusColumn), Param(|values|))]
    ensures Means(where, values, f.(status := s))
  {
    forall j: Joined
      ensures Wanted(f.(status := s), j) <==> Wanted(f, j) && TaskCell(j, StatusColumn) == Text(StatusText(s.value))
    {
      StatusTextInjective(j.task.status, s.value);
    }
    EqPushed(was, before, where, values, StatusColumn, Text(StatusText(s.value)), f, f.(status := s));
  }

  lemma AssigneePushed(was: seq<Cond>, before: seq<Value>, where: seq<Cond>, values: seq<Value>, user: Option<int>,
                       f: Filter)
    requires Means(was, before, f) && f.assignedTo.None? && user.Some?
    requires values == before + [Int(user.value)] && where == was + [Eq(Col(AssignedTo), Param(|values|))]
    ensures Means(where, values, f.(assignedTo := user))
  {
    EqPushed(was, before, where, values, AssignedTo, Int(user.value), f, f.(assignedTo := user));
  }

  lemma PriorityPushed(was: seq<Cond>, before: seq<Value>, where: seq<Cond>, values: seq<Value>, q: Option<Priority>,
                       f: Filter)
    requires Means(was, before, f) && f.priority.None? && q.Some?
    requires values == before + [Text(PriorityText(q.value))]
             && where == was + [Eq(Col(PriorityColumn), Param(|values|))]
    ensures Means(where, values, f.(priority := q))
  {
    forall j: Joined
      ensures Wanted(f.(priority := q), j)
              <==> Wanted(f, j) && TaskCell(j, PriorityColumn) == Text(PriorityText(q.value))
    {
      PriorityTextInjective(j.task.priority, q.value);
    }
    EqPushed(was, before, where, values, PriorityColumn, Text(PriorityText(q.value)), f, f.(priority := q));
  }

  /** $k = '' OR column ILIKE '%' || $k || '%' */
  function SearchCond(column: Column, k: int): Cond {
    Either(Eq(Param(k), Literal(Text(""))),
           ILike(Col(column), Append(Append(Literal(Text("%")), Param(k)), Literal(Text("%")))))
  }

  lemma SearchCondMeans(column: Column, search: string, row: Row, values: seq<Value>, k: nat)
    requires 1 <= k <= |values| && values[k - 1] == Text(search) && row(column).Text?
    ensures BoundCond(SearchCond(column, k), |values|)
    ensures IsTrue(SearchCond(column, k), row, values)
            <==> LikePatterns.SearchKeeps(search, row(column).s)
  {
    var open := Append(Literal(Text("%")), Param(k));
    assert Bound(Param(k), |values|) && Bound(Literal(Text("%")), |values|);
    assert Bound(open, |values|) && Bound(Append(open, Literal(Text("%"))), |values|);
    assert Eval(open, row, values) == Text("%" + search);
    assert Eval(Append(open, Literal(Text("%"))), row, values) == Text("%" + search + "%");
    var blank := Eq(Param(k), Literal(Text("")));
    var like := ILike(Col(column), Append(open, Literal(Text("%"))));
    assert BoundCond(blank, |values|) && BoundCond(like, |values|);
    assert IsTrue(blank, row, values) <==> search == "";
    assert IsTrue(like, row, values) <==> LikePatterns.ILike(row(column).s, "%" + search + "%");
  }

  lemma SearchPushed(was: seq<Cond>, before: seq<Value>, where: seq<Cond>, values: seq<Value>, search: string,
                     f: Filter)
    requires Means(was, before, f) && f.search.None?
    requires values == before + [Text(search)] && where == was + [SearchCond(Title, |values|)]
    ensures Means(where, values, f.(search := Some(search)))
  {
    var c, v := SearchCond(Title, |values|), Text(search);
    SearchCondMeans(Title, search, (c: Column) => Text(""), values, |values|);
    ConditionAdded(was, c, (c: Column) => Null, before, [v]);
    forall j: Joined {:trigger TaskCells(j)}
      ensures Holds(where, TaskCells(j), values) <==> Wanted(f.(search := Some(search)), j)
    {
      ConditionAdded(was, c, TaskCells(j), before, [v]);
      SearchCondMeans(Title, search, TaskCells(j), values, |values|);
    }
  }

  lemma OffsetPushed(where: seq<Cond>, values: seq<Value>, v: Value, f: Filter)
    requires Means(where, values, f)
    ensures Means(where, values + [v], f)
  {
    HoldsStable(where, (c: Column) => Null, values, [v]);
    forall j: Joined ensures Holds(where, TaskCells(j), values + [v]) <==> Wanted(f, j) {
      HoldsStable(where, TaskCells(j), values, [v]);
    }
  }

  lemma StartMeans(projectId: int, workspaceId: int)
    ensures Means([Eq(Col(ProjectId), Param(1)), Eq(Col(ProjectWorkspace), Param(2))],
                  [Int(projectId), Int(workspaceId)], Filter(projectId, workspaceId, None, None, None, None))
  {
    var where := [Eq(Col(ProjectId), Param(1)), Eq(Col(ProjectWorkspace), Param(2))];
    var values := [Int(projectId), Int(workspaceId)];
    EqMeans(ProjectId, (c: Column) => Null, values, 1);
    EqMeans(ProjectWorkspace, (c: Column) => Null, values, 2);
    forall j: Joined {:trigger TaskCells(j)}
      ensures Holds(where, TaskCells(j), values) <==> j.projectId == projectId && j.project.workspaceId == workspaceId
    {
      EqMeans(ProjectId, TaskCells(j), values, 1);
      EqMeans(ProjectWorkspace, TaskCells(j), values, 2);
      assert Holds(where, TaskCells(j), values) <==>
               IsTrue(where[0], TaskCells(j), values) && IsTrue(where[1], TaskCells(j), values);
    }
  }

  /** The values array and the query of getTask, grown in step. Every placeholder is the length of the array right
      after its value was pushed. */
  method BuildTaskQuery(projectId: int, workspaceId: int, page: int, status: Option<Status>, assignedTo: Option<int>,
                        priority: Option<Priority>, sortBy: Option<SortKey>, sortOrder: Option<SortOrder>,
                        search: Option<string>)
    returns (query: Query, values: seq<Value>)
    ensures BoundQuery(query, |values|)
    ensures Means(query.where, values, FilterOf(projectId, workspaceId, status, assignedTo, priority, search))
    ensures query.orderBy == SortColumn(sortBy) && query.ascending == (sortOrder == Some(Asc))
    ensures query.limit == PAGE_SIZE
    ensures forall row: Row :: Eval(query.offset, row, values) == Int((page - 1) * PAGE_SIZE)
  {
    var offset := (page - 1) * PAGE_SIZE;
    values := [Int(projectId), Int(workspaceId)];
    var where := [Eq(Col(ProjectId), Param(1)), Eq(Col(ProjectWorkspace), Param(2))];
    ghost var f := Filter(projectId, workspaceId, None, None, None, None);
    StartMeans(projectId, workspaceId);
    if status.Some? {
      ghost var was, before := where, values;
      values := values + [Text(StatusText(status.value))];
      where := where + [Eq(Col(StatusColumn), Param(|values|))];
      StatusPushed(was, before, where, values, status, f);
    } else {
      assert f.(status := status) == f;
    }
    f := f.(status := status);
    assert Means(where, values, f);
    if assignedTo.Some? {
      ghost var was, before := where, values;
      values := values + [Int(assignedTo.value)];
      where := where + [Eq(Col(AssignedTo), Param(|values|))];
      AssigneePushed(was, before, where, values, assignedTo, f);
    } else {
      assert f.(assignedTo := assignedTo) == f;
    }
    f := f.(assignedTo := assignedTo);
    assert Means(where, values, f);
    if priority.Some? {
      ghost var was, before := where, values;
      values := values + [Text(PriorityText(priority.value))];
      where := where + [Eq(Col(PriorityColumn), Param(|values|))];
      PriorityPushed(was, before, where, values, priority, f);
    } else {
      assert f.(priority := priority) == f;
    }
    f := f.(priority := priority);
    assert Means(where, values, f);
    var term := if search.Some? then search.value else "";
    ghost var was, before := where, values;
    values := values + [Text(term)];
    where := where + [SearchCond(Title, |values|)];
    SearchPushed(was, before, where, values, term, f);
    f := f.(search := Some(term));
    OffsetPushed(where, values, Int(offset), f);
    values := values + [Int(offset)];
    assert f == FilterOf(projectId, workspaceId, status, assignedTo, priority, search);
    query := Query(where, SortColumn(sortBy), sortOrder == Some(Asc), PAGE_SIZE, Param(|values|));
  }

  // ---------------------------------------------------------------- the answer

  lemma MatchingIsWanted(tasks: map<nat, TaskRow>, projects: map<nat, ProjectRow>, q: Query, values: seq<Value>,
                         f: Filter)
    requires Means(q.where, values, f)
    ensures Matching(TasksJoinProjects(tasks, projects), q, values) == WantedIds(tasks, projects, f)
  {
    var from := TasksJoinProjects(tasks, projects);
    forall id | id in from ensures Holds(q.where, from[id], values) <==> Wanted(f, JoinedAt(tasks, projects, id)) {
      assert from[id] == TaskCells(JoinedAt(tasks, projects, id));
    }
  }

  lemma SameOrder(tasks: map<nat, TaskRow>, projects: map<nat, ProjectRow>, sortBy: Option<SortKey>,
                  sortOrder: Option<SortOrder>, rank: nat -> int, a: nat, b: nat)
    requires Before(TasksJoinProjects(tasks, projects), SortColumn(sortBy), sortOrder == Some(Asc), rank, a, b)
    ensures ListedBefore(tasks, sortBy, sortOrder, rank, a, b)
  {
  }

  /** A query that means f, run over the joined table, lists exactly the tasks that f wants, in the order asked for. */
  lemma QueryListsWanted(tasks: map<nat, TaskRow>, projects: map<nat, ProjectRow>, q: Query, values: seq<Value>,
                         f: Filter, sortBy: Option<SortKey>, sortOrder: Option<SortOrder>, rank: nat -> int)
    requires BoundQuery(q, |values|) && Means(q.where, values, f) && Breaks(rank)
    requires q.orderBy == SortColumn(sortBy) && q.ascending == (sortOrder == Some(Asc))
    ensures IsListing(Select(TasksJoinProjects(tasks, projects), q, values, rank).1,
                      WantedIds(tasks, projects, f), TaskOrder(tasks, sortBy, sortOrder, rank))
  {
    var from := TasksJoinProjects(tasks, projects);
    MatchingIsWanted(tasks, projects, q, values, f);
    var xs := Select(from, q, values, rank).1;
    SelectLists(from, q, values, rank);
    forall i, j | 0 <= i < j < |xs| ensures TaskOrder(tasks, sortBy, sortOrder, rank)(xs[i], xs[j]) {
      assert Order(from, q, rank)(xs[i], xs[j]);
      SameOrder(tasks, projects, sortBy, sortOrder, rank, xs[i], xs[j]);
    }
  }

  /** The answer is the page asked for of that listing; a page below 1 is an error. */
  lemma TaskListAnswer(tasks: map<nat, TaskRow>, projects: map<nat, ProjectRow>, q: Query, values: seq<Value>,
                       page: int, rank: nat -> int)
    requires BoundQuery(q, |values|) && Breaks(rank) && q.limit == PAGE_SIZE
    requires forall row: Row :: Eval(q.offset, row, values) == Int((page - 1) * PAGE_SIZE)
    ensures var (r, listing) := Select(TasksJoinProjects(tasks, projects), q, values, rank);
            r == if page < 1 then Failure(QueryFailed) else Success(Page(listing, page))
  {
  }

  // ---------------------------------------------------------------- the listing spelled out

  /** The task is listed: it is under that project of that workspace, and every filter that is given keeps it. */
  ghost predicate Listed(tasks: map<nat, TaskRow>, projects: map<nat, ProjectRow>, projectId: nat, workspaceId: nat,
                         status: Option<Status>, assignedTo: Option<int>, priority: Option<Priority>,
                         search: Option<string>, id: nat)
  {
    && id in tasks && tasks[id].projectId == projectId
    && projectId in projects && projects[projectId].workspaceId == workspaceId
    && (status.Some? ==> tasks[id].status == status.value)
    && (assignedTo.Some? ==> tasks[id].assignedTo.Some? && tasks[id].assignedTo.value == assignedTo.value)
    && (priority.Some? ==> tasks[id].priority == priority.value)
    && (search.Some? && search.value != "" ==> LikePatterns.ILike(tasks[id].title, "%" + search.value + "%"))
  }

  /** a may stand before b: instants by size and texts by their characters, descending unless asc is asked for. */
  predicate MayPrecede(a: TaskRow, b: TaskRow, sortBy: Option<SortKey>, sortOrder: Option<SortOrder>) {
    var (x, y) := if sortOrder == Some(Asc) then (a, b) else (b, a);
    match sortBy
    case None => x.createdAt <= y.createdAt
    case Some(ByCreatedAt) => x.createdAt <= y.createdAt
    case Some(ByUpdatedAt) => x.updatedAt <= y.updatedAt
    case Some(ByPriority) => LexLe(PriorityText(x.priority), PriorityText(y.priority))
    case Some(ByTitle) => LexLe(x.title, y.title)
    case Some(ByStatus) => LexLe(StatusText(x.status), StatusText(y.status))
  }

  lemma LexReflexive(s: string)
    ensures LexLe(s, s)
  {
    LexTotal(s, s);
  }

  lemma PrecedesSpelled(tasks: map<nat, TaskRow>, sortBy: Option<SortKey>, sortOrder: Option<SortOrder>,
                        rank: nat -> int, a: nat, b: nat)
    requires ListedBefore(tasks, sortBy, sortOrder, rank, a, b)
    ensures MayPrecede(tasks[a], tasks[b], sortBy, sortOrder)
  {
    LexReflexive(tasks[a].title);
    LexReflexive(PriorityText(tasks[a].priority));
    LexReflexive(StatusText(tasks[a].status));
    var key := if sortBy.Some? then sortBy.value else ByCreatedAt;
    var x, y := SortCell(tasks[a], key), SortCell(tasks[b], key);
    assert x == y || (if sortOrder == Some(Asc) then ValueLe(x, y) else ValueLe(y, x));
    assert ValueLe(x, x);
  }

  /** The listing has exactly the tasks that the filters keep, each once, in the order asked for. */
  lemma ListingSpelled(tasks: map<nat, TaskRow>, projects: map<nat, ProjectRow>, projectId: nat, workspaceId: nat,
                       status: Option<Status>, assignedTo: Option<int>, priority: Option<Priority>,
                       search: Option<string>, sortBy: Option<SortKey>, sortOrder: Option<SortOrder>,
                       rank: nat -> int, listing: seq<nat>)
    requires IsListing(listing,
                       WantedIds(tasks, projects,
                                 FilterOf(projectId, workspaceId, status, assignedTo, priority, search)),
                       TaskOrder(tasks, sortBy, sortOrder, rank))
    ensures forall id :: id in listing <==>
              Listed(tasks, projects, projectId, workspaceId, status, assignedTo, priority, search, id)
    ensures forall i, j :: 0 <= i < j < |listing| ==>
              && listing[i] != listing[j] && listing[i] in tasks && listing[j] in tasks
              && MayPrecede(tasks[listing[i]], tasks[listing[j]], sortBy, sortOrder)
  {
    var wanted := WantedIds(tasks, projects, FilterOf(projectId, workspaceId, status, assignedTo, priority, search));
    forall id ensures id in wanted <==>
                Listed(tasks, projects, projectId, workspaceId, status, assignedTo, priority, search, id) {}
    forall i, j | 0 <= i < j < |listing|
      ensures listing[i] != listing[j] && listing[i] in tasks && listing[j] in tasks
      ensures MayPrecede(tasks[listing[i]], tasks[listing[j]], sortBy, sortOrder)
    {
      assert listing[i] in listing && listing[j] in listing;
      assert listing[i] in wanted && listing[j] in wanted;
      assert TaskOrder(tasks, sortBy, sortOrder, rank)(listing[i], listing[j]);
      PrecedesSpelled(tasks, sortBy, sortOrder, rank, listing[i], listing[j]);
    }
  }

  /** The listing that the filter and the order determine is unique. */
  lemma WantedListingUnique(tasks: map<nat, TaskRow>, projects: map<nat, ProjectRow>, f: Filter,
                            sortBy: Option<SortKey>, sortOrder: Option<SortOrder>, rank: nat -> int,
                            xs: seq<nat>, ys: seq<nat>)
    requires Breaks(rank)
    requires IsListing(xs, WantedIds(tasks, projects, f), TaskOrder(tasks, sortBy, sortOrder, rank))
    requires IsListing(ys, WantedIds(tasks, projects, f), TaskOrder(tasks, sortBy, sortOrder, rank))
    ensures xs == ys
  {
    var key := if sortBy.Some? then sortBy.value else ByCreatedAt;
    forall a, b, c | a in tasks && b in tasks && c in tasks
      ensures ListedBefore(tasks, sortBy, sortOrder, rank, a, b) || ListedBefore(tasks, sortBy, sortOrder, rank, b, a)
      ensures ListedBefore(tasks, sortBy, sortOrder, rank, a, b) && ListedBefore(tasks, sortBy, sortOrder, rank, b, a)
              ==> a == b
      ensures ListedBefore(tasks, sortBy, sortOrder, rank, a, b) && ListedBefore(tasks, sortBy, sortOrder, rank, b, c)
              ==> ListedBefore(tasks, sortBy, sortOrder, rank, a, c)
    {
      RowLeTotal(SortCell(tasks[a], key), SortCell(tasks[b], key), SortCell(tasks[c], key), sortOrder == Some(Asc),
                 rank(a), rank(b), rank(c));
    }
    ListingUnique(xs, ys, WantedIds(tasks, projects, f), TaskOrder(tasks, sortBy, sortOrder, rank));
  }

  /** Sorting by priority goes by the text of the column, not by urgency: in ascending order high comes first and
      urgent last, and in descending order every low task is listed before every high one. */
  lemma PrioritySortIsAlphabetical(tasks: map<nat, TaskRow>, sortOrder: Option<SortOrder>, rank: nat -> int, a: nat,
                                   b: nat)
    requires a in tasks && b in tasks && tasks[a].priority != tasks[b].priority
    ensures var place := (p: Priority) => match p case High => 0 case Low => 1 case Medium => 2 case Urgent => 3;
            ListedBefore(tasks, Some(ByPriority), sortOrder, rank, a, b) <==>
              if sortOrder == Some(Asc) then place(tasks[a].priority) < place(tasks[b].priority)
              else place(tasks[b].priority) < place(tasks[a].priority)
  {
    PriorityTextInjective(tasks[a].priority, tasks[b].priority);
    assert PriorityText(Low)[0] == 'l' && PriorityText(Medium)[0] == 'm';
    assert PriorityText(High)[0] == 'h' && PriorityText(Urgent)[0] == 'u';
  }
}
