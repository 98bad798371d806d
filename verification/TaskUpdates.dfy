/**
  The UPDATE statement that updateTask builds, and what it does to the tasks table: a patch of one row.
*/
module TaskUpdates {
  import opened Basics
  import opened Schema
  import opened SqlQueries

  /** A property of the request body: left out, or given, possibly as an explicit null. */
  datatype Field<+T> = Absent | Given(value: Option<T>)

  datatype Patch = Patch(title: Field<string>, instructions: Field<string>, assignedTo: Field<int>,
                         priority: Field<Priority>, status: Field<Status>, completedAt: Field<int>)

  const EMPTY_PATCH := Patch(Absent, Absent, Absent, Absent, Absent, Absent)

  // ---------------------------------------------------------------- the direct specification

  /** The constraints of the table on what is written: three columns are NOT NULL, the assignee must exist. */
  predicate Allowed(p: Patch, users: set<int>) {
    && p.title != Given(None) && p.priority != Given(None) && p.status != Given(None)
    && (p.assignedTo.Given? && p.assignedTo.value.Some? ==> p.assignedTo.value.value in users)
  }

  function Override<T>(was: Option<T>, f: Field<T>): Option<T> {
    if f.Given? then f.value else was
  }

  function Required<T>(was: T, f: Field<T>): T {
    if f.Given? && f.value.Some? then f.value.value else was
  }

  function PatchRow(t: TaskRow, p: Patch): TaskRow {
    t.(title := Required(t.title, p.title), instructions := Override(t.instructions, p.instructions),
       assignedTo := Override(t.assignedTo, p.assignedTo), priority := Required(t.priority, p.priority),
       status := Required(t.status, p.status), completedAt := Override(t.completedAt, p.completedAt))
  }

  function Patched(t: TaskRow, p: Patch, users: set<int>): Result<TaskRow> {
    if Allowed(p, users) then Success(PatchRow(t, p)) else Failure(QueryFailed)
  }

  /** The patch gives at least one field. */
  predicate SaysSomething(p: Patch) {
    p.title.Given? || p.instructions.Given? || p.assignedTo.Given? || p.priority.Given? || p.status.Given?
    || p.completedAt.Given?
  }

  /** No null for the title, the priority or the status, and an assignee who exists. */
  predicate Writable(p: Patch, users: set<int>) {
    && (p.title.Given? ==> p.title.value.Some?)
    && (p.priority.Given? ==> p.priority.value.Some?)
    && (p.status.Given? ==> p.status.value.Some?)
    && (p.assignedTo.Given? && p.assignedTo.value.Some? ==> p.assignedTo.value.value in users)
  }

  /** row is what was is with the patch applied, field by field: given fields overwrite, null included. */
  predicate FieldsPatched(was: TaskRow, row: TaskRow, p: Patch) {
    && (if p.title.Given? then p.title.value == Some(row.title) else row.title == was.title)
    && row.instructions == (if p.instructions.Given? then p.instructions.value else was.instructions)
    && row.assignedTo == (if p.assignedTo.Given? then p.assignedTo.value else was.assignedTo)
    && (if p.priority.Given? then p.priority.value == Some(row.priority) else row.priority == was.priority)
    && (if p.status.Given? then p.status.value == Some(row.status) else row.status == was.status)
    && row.completedAt == (if p.completedAt.Given? then p.completedAt.value else was.completedAt)
    && row.projectId == was.projectId && row.createdAt == was.createdAt && row.updatedAt == was.updatedAt
  }

  function Later<T>(a: Field<T>, b: Field<T>): Field<T> {
    if b.Given? then b else a
  }

  /** The patch that says what b says, and for the rest what a says. */
  function Merge(a: Patch, b: Patch): Patch {
    Patch(Later(a.title, b.title), Later(a.instructions, b.instructions), Later(a.assignedTo, b.assignedTo),
          Later(a.priority, b.priority), Later(a.status, b.status), Later(a.completedAt, b.completedAt))
  }

  // ---------------------------------------------------------------- the statement

  datatype Assign = Assign(column: Column, value: Expr)

  function TextValue(v: Option<string>): Value {
    if v.Some? then Text(v.value) else Null
  }

  function NumberValue(v: Option<int>): Value {
    if v.Some? then Int(v.value) else Null
  }

  function PriorityValue(v: Option<Priority>): Value {
    if v.Some? then Text(PriorityText(v.value)) else Null
  }

  function StatusValue(v: Option<Status>): Value {
    if v.Some? then Text(StatusText(v.value)) else Null
  }

  /** Writing one cell, with the column's type and its constraints. */
  function SetCell(t: TaskRow, c: Column, v: Value, users: set<int>): Result<TaskRow> {
    match c
    case Title => if v.Text? then Success(t.(title := v.s)) else Failure(QueryFailed)
    case Instructions =>
      if v.Int? then Failure(QueryFailed) else Success(t.(instructions := if v.Text? then Some(v.s) else None))
    case AssignedTo =>
      if v.Int? && v.n in users then Success(t.(assignedTo := Some(v.n)))
      else if v.Null? then Success(t.(assignedTo := None)) else Failure(QueryFailed)
    case PriorityColumn =>
      if v == Text(PriorityText(Low)) then Success(t.(priority := Low))
      else if v == Text(PriorityText(Medium)) then Success(t.(priority := Medium))
      else if v == Text(PriorityText(High)) then Success(t.(priority := High))
      else if v == Text(PriorityText(Urgent)) then Success(t.(priority := Urgent))
      else Failure(QueryFailed)
    case StatusColumn =>
      if v == Text(StatusText(Pending)) then Success(t.(status := Pending))
      else if v == Text(StatusText(Done)) then Success(t.(status := Done))
      else if v == Text(StatusText(Failed)) then Success(t.(status := Failed))
      else Failure(QueryFailed)
    case CompletedAt =>
      if v.Text? then Failure(QueryFailed) else Success(t.(completedAt := if v.Int? then Some(v.n) else None))
    case _ => Failure(QueryFailed)
  }

  predicate BoundSets(sets: seq<Assign>, n: nat) {
    forall i :: 0 <= i < |sets| ==> sets[i].value.Param? && Bound(sets[i].value, n)
  }

  function RunSets(sets: seq<Assign>, values: seq<Value>, t: TaskRow, users: set<int>): Result<TaskRow>
    requires BoundSets(sets, |values|)
  {
    if sets == [] then Success(t)
    else
      var last := sets[|sets| - 1];
      var r := RunSets(sets[..|sets| - 1], values, t, users);
      if r.Failure? then r else SetCell(r.value, last.column, values[last.value.k - 1], users)
  }

  /** UPDATE tasks SET ... WHERE id = $k; one row that breaks a constraint fails the statement. */
  function RunUpdate(tasks: map<nat, TaskRow>, sets: seq<Assign>, k: nat, values: seq<Value>, users: set<int>)
    : Result<map<nat, TaskRow>>
    requires BoundSets(sets, |values|) && 1 <= k <= |values|
  {
    if exists id :: id in tasks && values[k - 1] == Int(id) && RunSets(sets, values, tasks[id], users).Failure?
    then Failure(QueryFailed)
    else Success(map id | id in tasks ::
           if values[k - 1] == Int(id) then RunSets(sets, values, tasks[id], users).value else tasks[id])
  }

  /** The SET list built so far has, on any row, the effect of patch p. */
  ghost predicate Effects(sets: seq<Assign>, values: seq<Value>, p: Patch) {
    && BoundSets(sets, |values|)
    && forall t: TaskRow, users: set<int> {:trigger RunSets(sets, values, t, users)} ::
         RunSets(sets, values, t, users) == Patched(t, p, users)
  }

  lemma {:induction false} RunSetsStable(sets: seq<Assign>, values: seq<Value>, more: seq<Value>, t: TaskRow,
                                         users: set<int>)
    requires BoundSets(sets, |values|)
    ensures BoundSets(sets, |values + more|)
    ensures RunSets(sets, values + more, t, users) == RunSets(sets, values, t, users)
  {
    if sets != [] {
      RunSetsStable(sets[..|sets| - 1], values, more, t, users);
    }
  }

  /** The last assignment of q acts, on any row that p has patched, as the cell written. */
  ghost predicate CellExtends(c: Column, v: Value, p: Patch, q: Patch) {
    forall t: TaskRow, users: set<int> ::
      (if Allowed(p, users) then SetCell(PatchRow(t, p), c, v, users) else Failure(QueryFailed)) == Patched(t, q, users)
  }

  lemma AssignmentPushed(sets: seq<Assign>, values: seq<Value>, c: Column, v: Value, p: Patch, q: Patch)
    requires Effects(sets, values, p) && CellExtends(c, v, p, q)
    ensures Effects(sets + [Assign(c, Param(|values| + 1))], values + [v], q)
  {
    var sets2, values2 := sets + [Assign(c, Param(|values| + 1))], values + [v];
    forall t: TaskRow, users: set<int>
      ensures BoundSets(sets2, |values2|) && RunSets(sets2, values2, t, users) == Patched(t, q, users)
    {
      RunSetsStable(sets, values, [v], t, users);
      assert sets2[..|sets2| - 1] == sets;
      assert RunSets(sets, values, t, users) == Patched(t, p, users);
    }
    RunSetsStable(sets, values, [v], TaskRow(0, "", None, None, Low, Pending, None, 0, 0), {});
  }

  lemma TitlePushed(was: seq<Assign>, before: seq<Value>, fields: seq<Assign>, values: seq<Value>, f: Field<string>,
                    p: Patch)
    requires Effects(was, before, p) && p.title.Absent? && f.Given?
    requires values == before + [TextValue(f.value)] && fields == was + [Assign(Title, Param(|values|))]
    ensures Effects(fields, values, p.(title := f))
  {
    AssignmentPushed(was, before, Title, TextValue(f.value), p, p.(title := f));
  }

  lemma InstructionsPushed(was: seq<Assign>, before: seq<Value>, fields: seq<Assign>, values: seq<Value>,
                           f: Field<string>, p: Patch)
    requires Effects(was, before, p) && p.instructions.Absent? && f.Given?
    requires values == before + [TextValue(f.value)] && fields == was + [Assign(Instructions, Param(|values|))]
    ensures Effects(fields, values, p.(instructions := f))
  {
    AssignmentPushed(was, before, Instructions, TextValue(f.value), p, p.(instructions := f));
  }

  lemma AssignedToPushed(was: seq<Assign>, before: seq<Value>, fields: seq<Assign>, values: seq<Value>, f: Field<int>,
                         p: Patch)
    requires Effects(was, before, p) && p.assignedTo.Absent? && f.Given?
    requires values == before + [NumberValue(f.value)] && fields == was + [Assign(AssignedTo, Param(|values|))]
    ensures Effects(fields, values, p.(assignedTo := f))
  {
    AssignmentPushed(was, before, AssignedTo, NumberValue(f.value), p, p.(assignedTo := f));
  }

  lemma PriorityPushed(was: seq<Assign>, before: seq<Value>, fields: seq<Assign>, values: seq<Value>,
                       f: Field<Priority>, p: Patch)
    requires Effects(was, before, p) && p.priority.Absent? && f.Given?
    requires values == before + [PriorityValue(f.value)] && fields == was + [Assign(PriorityColumn, Param(|values|))]
    ensures Effects(fields, values, p.(priority := f))
  {
    if f.value.Some? {
      PriorityTextInjective(f.value.value, Low);
      PriorityTextInjective(f.value.value, Medium);
      PriorityTextInjective(f.value.value, High);
    }
    AssignmentPushed(was, before, PriorityColumn, PriorityValue(f.value), p, p.(priority := f));
  }

  lemma StatusPushed(was: seq<Assign>, before: seq<Value>, fields: seq<Assign>, values: seq<Value>, f: Field<Status>,
                     p: Patch)
    requires Effects(was, before, p) && p.status.Absent? && f.Given?
    requires values == before + [StatusValue(f.value)] && fields == was + [Assign(StatusColumn, Param(|values|))]
    ensures Effects(fields, values, p.(status := f))
  {
    if f.value.Some? {
      StatusTextInjective(f.value.value, Pending);
      StatusTextInjective(f.value.value, Done);
    }
    AssignmentPushed(was, before, StatusColumn, StatusValue(f.value), p, p.(status := f));
  }

  lemma CompletedAtPushed(was: seq<Assign>, before: seq<Value>, fields: seq<Assign>, values: seq<Value>, f: Field<int>,
                          p: Patch)
    requires Effects(was, before, p) && p.completedAt.Absent? && f.Given?
    requires values == before + [NumberValue(f.value)] && fields == was + [Assign(CompletedAt, Param(|values|))]
    ensures Effects(fields, values, p.(completedAt := f))
  {
    AssignmentPushed(was, before, CompletedAt, NumberValue(f.value), p, p.(completedAt := f));
  }

  lemma NothingPushed()
    ensures Effects([], [], EMPTY_PATCH)
  {
    forall t: TaskRow, users: set<int> ensures RunSets([], [], t, users) == Patched(t, EMPTY_PATCH, users) {
      assert PatchRow(t, EMPTY_PATCH) == t;
    }
  }

  /** The fields and values of updateTask, pushed in step, before the id of the row is pushed. Every placeholder is the
      length of the array right after its value was pushed. */
  method BuildSets(body: Patch) returns (fields: seq<Assign>, values: seq<Value>)
    ensures Effects(fields, values, body)
    ensures fields == [] <==> body == EMPTY_PATCH
  {
    fields, values := [], [];
    ghost var p := EMPTY_PATCH;
    NothingPushed();
    if body.title.Given? {
      ghost var was, before := fields, values;
      values := values + [TextValue(body.title.value)];
      fields := fields + [Assign(Title, Param(|values|))];
      TitlePushed(was, before, fields, values, body.title, p);
    } else {
      assert p.(title := body.title) == p;
    }
    p := p.(title := body.title);
    assert Effects(fields, values, p) && (fields == [] <==> p == EMPTY_PATCH);
    if body.instructions.Given? {
      ghost var was, before := fields, values;
      values := values + [TextValue(body.instructions.value)];
      fields := fields + [Assign(Instructions, Param(|values|))];
      InstructionsPushed(was, before, fields, values, body.instructions, p);
    } else {
      assert p.(instructions := body.instructions) == p;
    }
    p := p.(instructions := body.instructions);
    assert Effects(fields, values, p) && (fields == [] <==> p == EMPTY_PATCH);
    if body.assignedTo.Given? {
      ghost var was, before := fields, values;
      values := values + [NumberValue(body.assignedTo.value)];
      fields := fields + [Assign(AssignedTo, Param(|values|))];
      AssignedToPushed(was, before, fields, values, body.assignedTo, p);
    } else {
      assert p.(assignedTo := body.assignedTo) == p;
    }
    p := p.(assignedTo := body.assignedTo);
    assert Effects(fields, values, p) && (fields == [] <==> p == EMPTY_PATCH);
    if body.priority.Given? {
      ghost var was, before := fields, values;
      values := values + [PriorityValue(body.priority.value)];
      fields := fields + [Assign(PriorityColumn, Param(|values|))];
      PriorityPushed(was, before, fields, values, body.priority, p);
    } else {
      assert p.(priority := body.priority) == p;
    }
    p := p.(priority := body.priority);
    assert Effects(fields, values, p) && (fields == [] <==> p == EMPTY_PATCH);
    if body.status.Given? {
      ghost var was, before := fields, values;
      values := values + [StatusValue(body.status.value)];
      fields := fields + [Assign(StatusColumn, Param(|values|))];
      StatusPushed(was, before, fields, values, body.status, p);
    } else {
      assert p.(status := body.status) == p;
    }
    p := p.(status := body.status);
    assert Effects(fields, values, p) && (fields == [] <==> p == EMPTY_PATCH);
    if body.completedAt.Given? {
      ghost var was, before := fields, values;
      values := values + [NumberValue(body.completedAt.value)];
      fields := fields + [Assign(CompletedAt, Param(|values|))];
      CompletedAtPushed(was, before, fields, values, body.completedAt, p);
    } else {
      assert p.(completedAt := body.completedAt) == p;
    }
    p := p.(completedAt := body.completedAt);
    assert Effects(fields, values, p) && (fields == [] <==> p == EMPTY_PATCH);
    assert p == body;
  }

  /** The UPDATE statement with the id pushed last changes row taskId as the patch says, and no other row. */
  lemma UpdatePatchesOneRow(tasks: map<nat, TaskRow>, fields: seq<Assign>, values: seq<Value>, taskId: nat,
                            body: Patch, users: set<int>)
    requires Effects(fields, values, body) && taskId in tasks
    ensures BoundSets(fields, |values + [Int(taskId)]|)
    ensures RunUpdate(tasks, fields, |values| + 1, values + [Int(taskId)], users) ==
              if Allowed(body, users) then Success(tasks[taskId := PatchRow(tasks[taskId], body)])
              else Failure(QueryFailed)
  {
    var t := tasks[taskId];
    RunSetsStable(fields, values, [Int(taskId)], t, users);
    assert RunSets(fields, values, t, users) == Patched(t, body, users);
    var r := RunUpdate(tasks, fields, |values| + 1, values + [Int(taskId)], users);
    if Allowed(body, users) {
      assert r.Success?;
      assert r.value == tasks[taskId := PatchRow(t, body)];
    }
  }

  // ---------------------------------------------------------------- the operation

  /** The checks of updateTask and its effect. The SELECT returns assigned_to without an alias, so the check that a
      member is the assignee compares with undefined and refuses every member. */
  function UpdateTask(tasks: map<nat, TaskRow>, projects: map<nat, ProjectRow>, users: set<int>, role: Option<Role>,
                      workspaceId: nat, projectId: nat, taskId: nat, body: Patch): (map<nat, TaskRow>, Result<TaskRow>)
  {
    if taskId !in tasks || tasks[taskId].projectId != projectId || projectId !in projects
       || projects[projectId].workspaceId != workspaceId
    then (tasks, Failure(NotFound))
    else if role == Some(Member) then (tasks, Failure(Forbidden))
    else if body == EMPTY_PATCH then (tasks, Failure(BadRequest))
    else if !Allowed(body, users) then (tasks, Failure(QueryFailed))
    else
      var row := PatchRow(tasks[taskId], body);
      (tasks[taskId := row], Success(row))
  }

  /** Fields given overwrite, null included; fields left out keep their value, and so do the project of the task and
      its two timestamps: no trigger moves updated_at. No other row changes. */
  lemma UpdateTaskIsPatch(tasks: map<nat, TaskRow>, projects: map<nat, ProjectRow>, users: set<int>, role: Option<Role>,
                          workspaceId: nat, projectId: nat, taskId: nat, body: Patch)
    ensures var (tasks2, r) := UpdateTask(tasks, projects, users, role, workspaceId, projectId, taskId, body);
            && tasks2.Keys == tasks.Keys
            && (forall id :: id in tasks && id != taskId ==> tasks2[id] == tasks[id])
            && (forall id :: id in tasks ==>
                  && tasks2[id].projectId == tasks[id].projectId
                  && tasks2[id].createdAt == tasks[id].createdAt && tasks2[id].updatedAt == tasks[id].updatedAt)
            && (r.Success? ==>
                  && taskId in tasks && r.value == tasks2[taskId]
                  && (body.title.Given? ==> Some(tasks2[taskId].title) == body.title.value)
                  && (body.title.Absent? ==> tasks2[taskId].title == tasks[taskId].title)
                  && (body.instructions.Given? ==> tasks2[taskId].instructions == body.instructions.value)
                  && (body.instructions.Absent? ==> tasks2[taskId].instructions == tasks[taskId].instructions)
                  && (body.assignedTo.Given? ==> tasks2[taskId].assignedTo == body.assignedTo.value)
                  && (body.assignedTo.Absent? ==> tasks2[taskId].assignedTo == tasks[taskId].assignedTo)
                  && (body.priority.Given? ==> Some(tasks2[taskId].priority) == body.priority.value)
                  && (body.priority.Absent? ==> tasks2[taskId].priority == tasks[taskId].priority)
                  && (body.status.Given? ==> Some(tasks2[taskId].status) == body.status.value)
                  && (body.status.Absent? ==> tasks2[taskId].status == tasks[taskId].status)
                  && (body.completedAt.Given? ==> tasks2[taskId].completedAt == body.completedAt.value)
                  && (body.completedAt.Absent? ==> tasks2[taskId].completedAt == tasks[taskId].completedAt))
            && (r.Failure? ==> tasks2 == tasks)
            && (role == Some(Member) ==> r.Failure?)
  {
  }

  /** Who may update a task according to the documentation: a member only the tasks assigned to them. */
  predicate MayUpdate(role: Option<Role>, t: TaskRow, user: int) {
    role != Some(Member) || t.assignedTo == Some(user)
  }

  /** The code keeps to that rule exactly when the caller is not a member who is the assignee: it refuses those too. */
  lemma RuleKeptExceptForAssignees(tasks: map<nat, TaskRow>, projects: map<nat, ProjectRow>, users: set<int>,
                                   role: Option<Role>, user: int, workspaceId: nat, projectId: nat, taskId: nat,
                                   body: Patch)
    requires taskId in tasks && tasks[taskId].projectId == projectId && projectId in projects
             && projects[projectId].workspaceId == workspaceId
    ensures var r := UpdateTask(tasks, projects, users, role, workspaceId, projectId, taskId, body).1;
            (r != Failure(Forbidden) <==> MayUpdate(role, tasks[taskId], user))
            <==> !(role == Some(Member) && tasks[taskId].assignedTo == Some(user))
  {
  }

  /** Two updates that both succeed are together one update by the right-biased merge of their patches. */
  lemma UpdatesCompose(tasks: map<nat, TaskRow>, projects: map<nat, ProjectRow>, users: set<int>, role: Option<Role>,
                       workspaceId: nat, projectId: nat, taskId: nat, a: Patch, b: Patch)
    requires UpdateTask(tasks, projects, users, role, workspaceId, projectId, taskId, a).1.Success?
    requires UpdateTask(UpdateTask(tasks, projects, users, role, workspaceId, projectId, taskId, a).0,
                        projects, users, role, workspaceId, projectId, taskId, b).1.Success?
    ensures UpdateTask(UpdateTask(tasks, projects, users, role, workspaceId, projectId, taskId, a).0,
                       projects, users, role, workspaceId, projectId, taskId, b)
            == UpdateTask(tasks, projects, users, role, workspaceId, projectId, taskId, Merge(a, b))
  {
    assert PatchRow(PatchRow(tasks[taskId], a), b) == PatchRow(tasks[taskId], Merge(a, b));
    assert tasks[taskId := PatchRow(tasks[taskId], a)][taskId := PatchRow(tasks[taskId], Merge(a, b))]
           == tasks[taskId := PatchRow(tasks[taskId], Merge(a, b))];
  }

  /** Patches compose on every row, and merging is associative with the empty patch as its unit. */
  lemma PatchesCompose(t: TaskRow, a: Patch, b: Patch, c: Patch, users: set<int>)
    requires Allowed(a, users) && Allowed(b, users)
    ensures Allowed(Merge(a, b), users) && PatchRow(PatchRow(t, a), b) == PatchRow(t, Merge(a, b))
    ensures Merge(a, Merge(b, c)) == Merge(Merge(a, b), c)
    ensures Merge(a, EMPTY_PATCH) == Merge(EMPTY_PATCH, a) == a
  {
  }
}
