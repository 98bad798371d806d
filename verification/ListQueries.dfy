/**
  The two lists with a fixed query text: the projects of a workspace and the workspaces of a user. Only createdAt and
  updatedAt are mapped to a column there; any other sort key prints `ORDER BY undefined`, which is an error.
*/
module ListQueries {
  import opened Basics
  import opened Schema
  import opened SqlQueries
  import opened Listings
  import opened TaskQueries
  import LikePatterns

  // ---------------------------------------------------------------- the direct specification

  function Term(search: Option<string>): string {
    if search.Some? then search.value else ""
  }

  predicate Sortable(sortBy: Option<SortKey>) {
    sortBy.None? || sortBy.value == ByCreatedAt || sortBy.value == ByUpdatedAt
  }

  /** By one of the two instants, newest first unless ascending order is asked for; ties go by rank. */
  predicate InstantBefore(x: int, y: int, sortOrder: Option<SortOrder>, rankX: int, rankY: int) {
    if x == y then rankX <= rankY else if sortOrder == Some(Asc) then x < y else y < x
  }

  function WantedProjects(projects: map<nat, ProjectRow>, workspaces: set<nat>, ws: int, search: Option<string>)
    : set<nat>
  {
    set id | id in projects && projects[id].workspaceId in workspaces && projects[id].workspaceId == ws
             && LikePatterns.SearchKeeps(Term(search), projects[id].name)
  }

  ghost function ProjectOrder(projects: map<nat, ProjectRow>, sortBy: Option<SortKey>, sortOrder: Option<SortOrder>,
                              rank: nat -> int): (nat, nat) -> bool
  {
    (a: nat, b: nat) =>
      a in projects && b in projects
      && if sortBy == Some(ByUpdatedAt)
         then InstantBefore(projects[a].updatedAt, projects[b].updatedAt, sortOrder, rank(a), rank(b))
         else InstantBefore(projects[a].createdAt, projects[b].createdAt, sortOrder, rank(a), rank(b))
  }

  /** A membership is a pair of workspace and user; the list shows the workspaces of one user. */
  function WantedMemberships(workspaces: map<nat, WorkspaceRow>, members: map<(nat, int), Role>, user: int,
                             search: Option<string>): set<(nat, int)>
  {
    set m | m in members && m.0 in workspaces && m.1 == user
            && LikePatterns.SearchKeeps(Term(search), workspaces[m.0].name)
  }

  ghost function MembershipOrder(workspaces: map<nat, WorkspaceRow>, sortBy: Option<SortKey>,
                                 sortOrder: Option<SortOrder>, rank: ((nat, int)) -> int)
    : ((nat, int), (nat, int)) -> bool
  {
    (a: (nat, int), b: (nat, int)) =>
      a.0 in workspaces && b.0 in workspaces
      && if sortBy == Some(ByUpdatedAt)
         then InstantBefore(workspaces[a.0].updatedAt, workspaces[b.0].updatedAt, sortOrder, rank(a), rank(b))
         else InstantBefore(workspaces[a.0].createdAt, workspaces[b.0].createdAt, sortOrder, rank(a), rank(b))
  }

  // ---------------------------------------------------------------- the queries

  function ListColumn(sortBy: Option<SortKey>): Option<Column> {
    if sortBy.None? || sortBy.value == ByCreatedAt then Some(CreatedAt)
    else if sortBy.value == ByUpdatedAt then Some(UpdatedAt)
    else None
  }

  /** WHERE key = $1 AND ($2 = '' OR name ILIKE '%' || $2 || '%') ORDER BY ... LIMIT 20 OFFSET $3 */
  function ListQuery(key: Column, name: Column, orderBy: Column, sortOrder: Option<SortOrder>): Query {
    Query([Eq(Col(key), Param(1)), SearchCond(name, 2)], orderBy, sortOrder == Some(Asc), PAGE_SIZE, Param(3))
  }

  function ListValues(key: int, search: Option<string>, page: int): seq<Value> {
    [Int(key), Text(Term(search)), Int((page - 1) * PAGE_SIZE)]
  }

  lemma ListQueryBound(key: Column, name: Column, orderBy: Column, sortOrder: Option<SortOrder>)
    ensures BoundQuery(ListQuery(key, name, orderBy, sortOrder), 3)
  {
    SearchCondMeans(name, "", (c: Column) => Text(""), [Null, Text(""), Null], 2);
    var where := ListQuery(key, name, orderBy, sortOrder).where;
    assert BoundCond(where[0], 3) && BoundCond(where[1], 3);
  }

  lemma RowWanted(key: Column, name: Column, id: int, search: Option<string>, page: int, row: Row,
                  orderBy: Column, sortOrder: Option<SortOrder>)
    requires row(name).Text? && BoundConds(ListQuery(key, name, orderBy, sortOrder).where, 3)
    ensures Holds(ListQuery(key, name, orderBy, sortOrder).where, row, ListValues(id, search, page)) <==>
              row(key) == Int(id) && LikePatterns.SearchKeeps(Term(search), row(name).s)
  {
    var where, values := ListQuery(key, name, orderBy, sortOrder).where, ListValues(id, search, page);
    EqMeans(key, row, values, 1);
    SearchCondMeans(name, Term(search), row, values, 2);
    assert Holds(where, row, values) <==> IsTrue(where[0], row, values) && IsTrue(where[1], row, values);
  }

  // ---------------------------------------------------------------- projects

  function ProjectCell(id: nat, row: ProjectRow, c: Column): Value {
    match c
    case ProjectId => Int(id)
    case WorkspaceId => Int(row.workspaceId)
    case ProjectName => Text(row.name)
    case CreatedAt => Int(row.createdAt)
    case UpdatedAt => Int(row.updatedAt)
    case _ => Null
  }

  function ProjectCells(id: nat, row: ProjectRow): Row {
    (c: Column) => ProjectCell(id, row, c)
  }

  /** FROM projects p JOIN workspaces w ON w.id = p.workspace_id */
  function ProjectsJoinWorkspaces(projects: map<nat, ProjectRow>, workspaces: set<nat>): map<nat, Row> {
    map id | id in projects && projects[id].workspaceId in workspaces :: ProjectCells(id, projects[id])
  }

  lemma ProjectsMatching(projects: map<nat, ProjectRow>, workspaces: set<nat>, ws: int, page: int,
                         search: Option<string>,
                         orderBy: Column, sortOrder: Option<SortOrder>)
    requires BoundQuery(ListQuery(WorkspaceId, ProjectName, orderBy, sortOrder), 3)
    ensures Matching(ProjectsJoinWorkspaces(projects, workspaces),
                     ListQuery(WorkspaceId, ProjectName, orderBy, sortOrder),
                     ListValues(ws, search, page))
            == WantedProjects(projects, workspaces, ws, search)
  {
    var q, values := ListQuery(WorkspaceId, ProjectName, orderBy, sortOrder), ListValues(ws, search, page);
    var from := ProjectsJoinWorkspaces(projects, workspaces);
    forall id | id in from
      ensures Holds(q.where, from[id], values) <==>
                projects[id].workspaceId == ws && LikePatterns.SearchKeeps(Term(search), projects[id].name)
    {
      assert from[id] == ProjectCells(id, projects[id]);
      RowWanted(WorkspaceId, ProjectName, ws, search, page, from[id], orderBy, sortOrder);
    }
  }

  lemma SameProjectOrder(projects: map<nat, ProjectRow>, workspaces: set<nat>, sortBy: Option<SortKey>,
                         sortOrder: Option<SortOrder>, rank: nat -> int, a: nat, b: nat)
    requires Sortable(sortBy)
    requires Before(ProjectsJoinWorkspaces(projects, workspaces), ListColumn(sortBy).value, sortOrder == Some(Asc),
                    rank, a, b)
    ensures ProjectOrder(projects, sortBy, sortOrder, rank)(a, b)
  {
  }

  /** The query lists exactly the projects wanted, in the order asked for. */
  lemma ProjectsListed(projects: map<nat, ProjectRow>, workspaces: set<nat>, ws: int, search: Option<string>,
                       sortBy: Option<SortKey>, sortOrder: Option<SortOrder>, rank: nat -> int,
                       q: Query, values: seq<Value>)
    requires Sortable(sortBy) && Breaks(rank) && BoundQuery(q, |values|)
    requires q.orderBy == ListColumn(sortBy).value && q.ascending == (sortOrder == Some(Asc))
    requires Matching(ProjectsJoinWorkspaces(projects, workspaces), q, values)
             == WantedProjects(projects, workspaces, ws, search)
    ensures IsListing(Select(ProjectsJoinWorkspaces(projects, workspaces), q, values, rank).1,
                      WantedProjects(projects, workspaces, ws, search), ProjectOrder(projects, sortBy, sortOrder, rank))
  {
    var from := ProjectsJoinWorkspaces(projects, workspaces);
    SelectLists(from, q, values, rank);
    var xs := Select(from, q, values, rank).1;
    forall i, j | 0 <= i < j < |xs| ensures ProjectOrder(projects, sortBy, sortOrder, rank)(xs[i], xs[j]) {
      assert Order(from, q, rank)(xs[i], xs[j]);
      SameProjectOrder(projects, workspaces, sortBy, sortOrder, rank, xs[i], xs[j]);
    }
  }

  lemma ProjectListAnswer(projects: map<nat, ProjectRow>, workspaces: set<nat>, ws: int, page: int,
                          search: Option<string>, sortBy: Option<SortKey>, sortOrder: Option<SortOrder>,
                          rank: nat -> int)
    requires Sortable(sortBy) && Breaks(rank)
    ensures var q := ListQuery(WorkspaceId, ProjectName, ListColumn(sortBy).value, sortOrder);
            BoundQuery(q, |ListValues(ws, search, page)|)
    ensures var q := ListQuery(WorkspaceId, ProjectName, ListColumn(sortBy).value, sortOrder);
            var values := ListValues(ws, search, page);
            var (r, listing) := Select(ProjectsJoinWorkspaces(projects, workspaces), q, values, rank);
            && IsListing(listing, WantedProjects(projects, workspaces, ws, search),
                         ProjectOrder(projects, sortBy, sortOrder, rank))
            && r == if page < 1 then Failure(QueryFailed) else Success(Page(listing, page))
  {
    var column := ListColumn(sortBy).value;
    ListQueryBound(WorkspaceId, ProjectName, column, sortOrder);
    ProjectsMatching(projects, workspaces, ws, page, search, column, sortOrder);
    ProjectsListed(projects, workspaces, ws, search, sortBy, sortOrder, rank,
                   ListQuery(WorkspaceId, ProjectName, column, sortOrder), ListValues(ws, search, page));
  }

  lemma InstantBeforeTotal(x: int, y: int, z: int, sortOrder: Option<SortOrder>, i: int, j: int, k: int)
    ensures InstantBefore(x, y, sortOrder, i, j) || InstantBefore(y, x, sortOrder, j, i)
    ensures InstantBefore(x, y, sortOrder, i, j) && InstantBefore(y, x, sortOrder, j, i) ==> i == j
    ensures InstantBefore(x, y, sortOrder, i, j) && InstantBefore(y, z, sortOrder, j, k)
            ==> InstantBefore(x, z, sortOrder, i, k)
  {
  }

  /** Search and order determine the listing, so the pages of all requests are cut from one. */
  lemma ProjectListingUnique(projects: map<nat, ProjectRow>, workspaces: set<nat>, ws: int, search: Option<string>,
                             sortBy: Option<SortKey>, sortOrder: Option<SortOrder>, rank: nat -> int,
                             xs: seq<nat>, ys: seq<nat>)
    requires Breaks(rank)
    requires IsListing(xs, WantedProjects(projects, workspaces, ws, search),
                       ProjectOrder(projects, sortBy, sortOrder, rank))
    requires IsListing(ys, WantedProjects(projects, workspaces, ws, search),
                       ProjectOrder(projects, sortBy, sortOrder, rank))
    ensures xs == ys
  {
    var before := ProjectOrder(projects, sortBy, sortOrder, rank);
    forall a, b, c | a in projects && b in projects && c in projects
      ensures before(a, b) || before(b, a)
      ensures before(a, b) && before(b, a) ==> a == b
      ensures before(a, b) && before(b, c) ==> before(a, c)
    {
      var p, q, r := projects[a], projects[b], projects[c];
      InstantBeforeTotal(p.updatedAt, q.updatedAt, r.updatedAt, sortOrder, rank(a), rank(b), rank(c));
      InstantBeforeTotal(p.createdAt, q.createdAt, r.createdAt, sortOrder, rank(a), rank(b), rank(c));
    }
    ListingUnique(xs, ys, WantedProjects(projects, workspaces, ws, search), before);
  }

  /** The search is empty, or the pattern built from it matches the name. */
  predicate Found(search: Option<string>, name: string) {
    search.Some? && search.value != "" ==> LikePatterns.ILike(name, "%" + search.value + "%")
  }

  /** x may stand before y: newest first, oldest first if ascending order is asked for. */
  predicate MayPrecede(x: int, y: int, sortOrder: Option<SortOrder>) {
    if sortOrder == Some(Asc) then x <= y else y <= x
  }

  /** The listing has exactly the projects of the workspace that the search finds, each once, in the order asked for. */
  lemma ProjectListingSpelled(projects: map<nat, ProjectRow>, workspaces: set<nat>, ws: nat, search: Option<string>,
                              sortBy: Option<SortKey>, sortOrder: Option<SortOrder>, rank: nat -> int, xs: seq<nat>)
    requires IsListing(xs, WantedProjects(projects, workspaces, ws, search),
                       ProjectOrder(projects, sortBy, sortOrder, rank))
    ensures forall id :: id in xs <==>
              id in projects && projects[id].workspaceId == ws && ws in workspaces && Found(search, projects[id].name)
    ensures forall i, j :: 0 <= i < j < |xs| ==>
              && xs[i] != xs[j] && xs[i] in projects && xs[j] in projects
              && if sortBy == Some(ByUpdatedAt)
                 then MayPrecede(projects[xs[i]].updatedAt, projects[xs[j]].updatedAt, sortOrder)
                 else MayPrecede(projects[xs[i]].createdAt, projects[xs[j]].createdAt, sortOrder)
  {
    var before := ProjectOrder(projects, sortBy, sortOrder, rank);
    forall i, j | 0 <= i < j < |xs|
      ensures xs[i] in projects && xs[j] in projects && before(xs[i], xs[j])
    {
      assert xs[i] in xs && xs[j] in xs;
    }
  }

  // ---------------------------------------------------------------- workspaces

  function WorkspaceCell(user: int, row: WorkspaceRow, c: Column): Value {
    match c
    case MemberUser => Int(user)
    case WorkspaceName => Text(row.name)
    case CreatedAt => Int(row.createdAt)
    case UpdatedAt => Int(row.updatedAt)
    case _ => Null
  }

  function WorkspaceCells(user: int, row: WorkspaceRow): Row {
    (c: Column) => WorkspaceCell(user, row, c)
  }

  /** FROM workspaces w JOIN members m ON m.workspace_id = w.id */
  function WorkspacesJoinMembers(workspaces: map<nat, WorkspaceRow>, members: map<(nat, int), Role>)
    : map<(nat, int), Row>
  {
    map m | m in members && m.0 in workspaces :: WorkspaceCells(m.1, workspaces[m.0])
  }

  lemma MembershipsMatching(workspaces: map<nat, WorkspaceRow>, members: map<(nat, int), Role>, user: int, page: int,
                            search: Option<string>, orderBy: Column, sortOrder: Option<SortOrder>)
    requires BoundQuery(ListQuery(MemberUser, WorkspaceName, orderBy, sortOrder), 3)
    ensures Matching(WorkspacesJoinMembers(workspaces, members),
                     ListQuery(MemberUser, WorkspaceName, orderBy, sortOrder),
                     ListValues(user, search, page))
            == WantedMemberships(workspaces, members, user, search)
  {
    var q, values := ListQuery(MemberUser, WorkspaceName, orderBy, sortOrder), ListValues(user, search, page);
    var from := WorkspacesJoinMembers(workspaces, members);
    forall m | m in from
      ensures Holds(q.where, from[m], values) <==>
                m.1 == user && LikePatterns.SearchKeeps(Term(search), workspaces[m.0].name)
    {
      assert from[m] == WorkspaceCells(m.1, workspaces[m.0]);
      RowWanted(MemberUser, WorkspaceName, user, search, page, from[m], orderBy, sortOrder);
    }
  }

  lemma SameMembershipOrder(workspaces: map<nat, WorkspaceRow>, members: map<(nat, int), Role>, sortBy: Option<SortKey>,
                            sortOrder: Option<SortOrder>, rank: ((nat, int)) -> int, a: (nat, int), b: (nat, int))
    requires Sortable(sortBy)
    requires Before(WorkspacesJoinMembers(workspaces, members), ListColumn(sortBy).value, sortOrder == Some(Asc), rank,
                    a, b)
    ensures MembershipOrder(workspaces, sortBy, sortOrder, rank)(a, b)
  {
  }

  /** The query lists exactly the workspaces wanted, in the order asked for. */
  lemma WorkspacesListed(workspaces: map<nat, WorkspaceRow>, members: map<(nat, int), Role>, user: int,
                         search: Option<string>, sortBy: Option<SortKey>, sortOrder: Option<SortOrder>,
                         rank: ((nat, int)) -> int, q: Query, values: seq<Value>)
    requires Sortable(sortBy) && Breaks(rank) && BoundQuery(q, |values|)
    requires q.orderBy == ListColumn(sortBy).value && q.ascending == (sortOrder == Some(Asc))
    requires Matching(WorkspacesJoinMembers(workspaces, members), q, values)
             == WantedMemberships(workspaces, members, user, search)
    ensures IsListing(Select(WorkspacesJoinMembers(workspaces, members), q, values, rank).1,
                      WantedMemberships(workspaces, members, user, search),
                      MembershipOrder(workspaces, sortBy, sortOrder, rank))
  {
    var from := WorkspacesJoinMembers(workspaces, members);
    SelectLists(from, q, values, rank);
    var xs := Select(from, q, values, rank).1;
    forall i, j | 0 <= i < j < |xs| ensures MembershipOrder(workspaces, sortBy, sortOrder, rank)(xs[i], xs[j]) {
      assert Order(from, q, rank)(xs[i], xs[j]);
      SameMembershipOrder(workspaces, members, sortBy, sortOrder, rank, xs[i], xs[j]);
    }
  }

  lemma WorkspaceListAnswer(workspaces: map<nat, WorkspaceRow>, members: map<(nat, int), Role>, user: int, page: int,
                            search: Option<string>, sortBy: Option<SortKey>, sortOrder: Option<SortOrder>,
                            rank: ((nat, int)) -> int)
    requires Sortable(sortBy) && Breaks(rank)
    ensures var q := ListQuery(MemberUser, WorkspaceName, ListColumn(sortBy).value, sortOrder);
            BoundQuery(q, |ListValues(user, search, page)|)
    ensures var q := ListQuery(MemberUser, WorkspaceName, ListColumn(sortBy).value, sortOrder);
            var values := ListValues(user, search, page);
            var (r, listing) := Select(WorkspacesJoinMembers(workspaces, members), q, values, rank);
            && IsListing(listing, WantedMemberships(workspaces, members, user, search),
                         MembershipOrder(workspaces, sortBy, sortOrder, rank))
            && r == if page < 1 then Failure(QueryFailed) else Success(Page(listing, page))
  {
    var column := ListColumn(sortBy).value;
    ListQueryBound(MemberUser, WorkspaceName, column, sortOrder);
    MembershipsMatching(workspaces, members, user, page, search, column, sortOrder);
    WorkspacesListed(workspaces, members, user, search, sortBy, sortOrder, rank,
                     ListQuery(MemberUser, WorkspaceName, column, sortOrder), ListValues(user, search, page));
  }

  /** Search and order determine the listing, so the pages of all requests are cut from one. */
  lemma MembershipListingUnique(workspaces: map<nat, WorkspaceRow>, members: map<(nat, int), Role>, user: int,
                                search: Option<string>, sortBy: Option<SortKey>, sortOrder: Option<SortOrder>,
                                rank: ((nat, int)) -> int, xs: seq<(nat, int)>, ys: seq<(nat, int)>)
    requires Breaks(rank)
    requires IsListing(xs, WantedMemberships(workspaces, members, user, search),
                       MembershipOrder(workspaces, sortBy, sortOrder, rank))
    requires IsListing(ys, WantedMemberships(workspaces, members, user, search),
                       MembershipOrder(workspaces, sortBy, sortOrder, rank))
    ensures xs == ys
  {
    var keys := WantedMemberships(workspaces, members, user, search);
    var before := MembershipOrder(workspaces, sortBy, sortOrder, rank);
    forall a, b, c | a in keys && b in keys && c in keys
      ensures before(a, b) || before(b, a)
      ensures before(a, b) && before(b, a) ==> a == b
      ensures before(a, b) && before(b, c) ==> before(a, c)
    {
      var p, q, r := workspaces[a.0], workspaces[b.0], workspaces[c.0];
      InstantBeforeTotal(p.updatedAt, q.updatedAt, r.updatedAt, sortOrder, rank(a), rank(b), rank(c));
      InstantBeforeTotal(p.createdAt, q.createdAt, r.createdAt, sortOrder, rank(a), rank(b), rank(c));
    }
    ListingUnique(xs, ys, keys, before);
  }

  /** The listing has exactly the workspaces of the user that the search finds, each once, in the order asked for. */
  lemma MembershipListingSpelled(workspaces: map<nat, WorkspaceRow>, members: map<(nat, int), Role>, user: int,
                                 search: Option<string>, sortBy: Option<SortKey>, sortOrder: Option<SortOrder>,
                                 rank: ((nat, int)) -> int, xs: seq<(nat, int)>)
    requires IsListing(xs, WantedMemberships(workspaces, members, user, search),
                       MembershipOrder(workspaces, sortBy, sortOrder, rank))
    ensures forall m :: m in xs <==>
              m in members && m.1 == user && m.0 in workspaces && Found(search, workspaces[m.0].name)
    ensures forall i, j :: 0 <= i < j < |xs| ==>
              && xs[i] != xs[j] && xs[i].0 in workspaces && xs[j].0 in workspaces
              && if sortBy == Some(ByUpdatedAt)
                 then MayPrecede(workspaces[xs[i].0].updatedAt, workspaces[xs[j].0].updatedAt, sortOrder)
                 else MayPrecede(workspaces[xs[i].0].createdAt, workspaces[xs[j].0].createdAt, sortOrder)
  {
    var before := MembershipOrder(workspaces, sortBy, sortOrder, rank);
    forall i, j | 0 <= i < j < |xs|
      ensures xs[i].0 in workspaces && xs[j].0 in workspaces && before(xs[i], xs[j])
    {
      assert xs[i] in xs && xs[j] in xs;
    }
  }
}
