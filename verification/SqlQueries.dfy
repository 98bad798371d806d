/**
  The fragment of SQL that the list queries are written in: conditions over columns, literals and numbered
  parameters, evaluated in three-valued logic; ORDER BY one column; LIMIT and OFFSET.
*/
module SqlQueries {
  import opened Basics
  import opened Listings
  import LikePatterns

  datatype Value = Null | Int(n: int) | Text(s: string)

  datatype Column =
    | WorkspaceId | WorkspaceName
    | MemberUser
    | ProjectId | ProjectWorkspace | ProjectName
    | Title | Instructions | AssignedTo | PriorityColumn | StatusColumn | CompletedAt
    | CreatedAt | UpdatedAt

  datatype Expr = Param(k: int) | Literal(v: Value) | Col(c: Column) | Append(left: Expr, right: Expr)

  datatype Cond = Eq(left: Expr, right: Expr) | ILike(left: Expr, right: Expr) | Either(a: Cond, b: Cond)

  /** where is the list of conditions joined by AND. */
  datatype Query = Query(where: seq<Cond>, orderBy: Column, ascending: bool, limit: nat, offset: Expr)

  type Row = Column -> Value

  datatype Truth = True | False | Unknown

  /** Parameters are numbered from 1, and every number used must be bound. */
  predicate Bound(e: Expr, n: nat) {
    match e
    case Param(k) => 1 <= k <= n
    case Append(left, right) => Bound(left, n) && Bound(right, n)
    case _ => true
  }

  predicate BoundCond(c: Cond, n: nat) {
    match c
    case Eq(left, right) => Bound(left, n) && Bound(right, n)
    case ILike(left, right) => Bound(left, n) && Bound(right, n)
    case Either(a, b) => BoundCond(a, n) && BoundCond(b, n)
  }

  predicate BoundConds(cs: seq<Cond>, n: nat) {
    forall i :: 0 <= i < |cs| ==> BoundCond(cs[i], n)
  }

  function Eval(e: Expr, row: Row, params: seq<Value>): Value
    requires Bound(e, |params|)
  {
    match e
    case Param(k) => params[k - 1]
    case Literal(v) => v
    case Col(c) => row(c)
    case Append(left, right) =>
      var l, r := Eval(left, row, params), Eval(right, row, params);
      if l.Text? && r.Text? then Text(l.s + r.s) else Null
  }

  function Or(a: Truth, b: Truth): Truth {
    if a == True || b == True then True else if a == False && b == False then False else Unknown
  }

  function Judge(known: bool, truth: bool): Truth {
    if !known then Unknown else if truth then True else False
  }

  function EvalCond(c: Cond, row: Row, params: seq<Value>): Truth
    requires BoundCond(c, |params|)
  {
    match c
    case Eq(left, right) =>
      var l, r := Eval(left, row, params), Eval(right, row, params);
      Judge(l != Null && r != Null, l == r)
    case ILike(left, right) =>
      var l, r := Eval(left, row, params), Eval(right, row, params);
      Judge(l.Text? && r.Text?, l.Text? && r.Text? && LikePatterns.ILike(l.s, r.s))
    case Either(a, b) => Or(EvalCond(a, row, params), EvalCond(b, row, params))
  }

  predicate IsTrue(c: Cond, row: Row, params: seq<Value>)
    requires BoundCond(c, |params|)
  {
    EvalCond(c, row, params) == True
  }

  /** AND keeps a row only if every condition is true of it; unknown is not enough. */
  predicate Holds(cs: seq<Cond>, row: Row, params: seq<Value>)
    requires BoundConds(cs, |params|)
  {
    forall i :: 0 <= i < |cs| ==> IsTrue(cs[i], row, params)
  }

  lemma {:induction false} EvalStable(e: Expr, row: Row, params: seq<Value>, more: seq<Value>)
    requires Bound(e, |params|)
    ensures Bound(e, |params + more|) && Eval(e, row, params + more) == Eval(e, row, params)
  {
    match e
    case Append(left, right) =>
      EvalStable(left, row, params, more);
      EvalStable(right, row, params, more);
    case _ =>
  }

  lemma {:induction false} EvalCondStable(c: Cond, row: Row, params: seq<Value>, more: seq<Value>)
    requires BoundCond(c, |params|)
    ensures BoundCond(c, |params + more|) && EvalCond(c, row, params + more) == EvalCond(c, row, params)
  {
    match c
    case Either(a, b) =>
      EvalCondStable(a, row, params, more);
      EvalCondStable(b, row, params, more);
    case _ =>
      EvalStable(c.left, row, params, more);
      EvalStable(c.right, row, params, more);
  }

  lemma HoldsStable(cs: seq<Cond>, row: Row, params: seq<Value>, more: seq<Value>)
    requires BoundConds(cs, |params|)
    ensures BoundConds(cs, |params + more|) && Holds(cs, row, params + more) == Holds(cs, row, params)
  {
    forall i | 0 <= i < |cs|
      ensures BoundCond(cs[i], |params + more|) && IsTrue(cs[i], row, params + more) == IsTrue(cs[i], row, params)
    {
      EvalCondStable(cs[i], row, params, more);
    }
  }

  /** Pushing a value and adding a condition that mentions it never changes what the conditions before it mean. */
  lemma ConditionAdded(cs: seq<Cond>, c: Cond, row: Row, params: seq<Value>, more: seq<Value>)
    requires BoundConds(cs, |params|) && BoundCond(c, |params + more|)
    ensures BoundConds(cs + [c], |params + more|)
    ensures Holds(cs + [c], row, params + more) <==>
              Holds(cs, row, params) && IsTrue(c, row, params + more)
  {
    HoldsStable(cs, row, params, more);
    assert (cs + [c])[|cs|] == c;
    forall i | 0 <= i < |cs| ensures (cs + [c])[i] == cs[i] {}
    if Holds(cs + [c], row, params + more) {
      forall i | 0 <= i < |cs| ensures IsTrue(cs[i], row, params + more) {
        assert IsTrue((cs + [c])[i], row, params + more);
      }
    }
  }

  // ---------------------------------------------------------------- ORDER BY

  function LexLe(s: string, t: string): bool {
    s == [] || (t != [] && (s[0] < t[0] || (s[0] == t[0] && LexLe(s[1..], t[1..]))))
  }

  lemma {:induction false} LexTotal(s: string, t: string)
    ensures LexLe(s, t) || LexLe(t, s)
    ensures LexLe(s, t) && LexLe(t, s) ==> s == t
    decreases |s|
  {
    if s != [] && t != [] && s[0] == t[0] {
      LexTotal(s[1..], t[1..]);
      assert s == [s[0]] + s[1..] && t == [t[0]] + t[1..];
    }
  }

  lemma {:induction false} LexTransitive(s: string, t: string, u: string)
    requires LexLe(s, t) && LexLe(t, u)
    ensures LexLe(s, u)
    decreases |s|
  {
    if s != [] && s[0] == t[0] && t[0] == u[0] {
      LexTransitive(s[1..], t[1..], u[1..]);
    }
  }

  /** Numbers and instants by size, texts by their characters; the sorted columns are NOT NULL. */
  predicate ValueLe(a: Value, b: Value) {
    match a
    case Int(n) => if b.Int? then n <= b.n else true
    case Text(s) => if b.Text? then LexLe(s, b.s) else b.Null?
    case Null => b.Null?
  }

  /** The order of two rows: by the sort column, and by the database's own whim, rank, where that ties. */
  predicate RowLe(a: Value, b: Value, ascending: bool, rankA: int, rankB: int) {
    if a == b then rankA <= rankB else if ascending then ValueLe(a, b) else ValueLe(b, a)
  }

  predicate Before<K(==)>(from: map<K, Row>, column: Column, ascending: bool, rank: K -> int, a: K, b: K) {
    a in from && b in from && RowLe(from[a](column), from[b](column), ascending, rank(a), rank(b))
  }

  ghost predicate Breaks<K(!new)>(rank: K -> int) {
    forall a: K, b: K :: rank(a) == rank(b) ==> a == b
  }

  lemma ValueLeTotal(a: Value, b: Value, c: Value)
    ensures ValueLe(a, b) || ValueLe(b, a)
    ensures ValueLe(a, b) && ValueLe(b, a) ==> a == b
    ensures ValueLe(a, b) && ValueLe(b, c) ==> ValueLe(a, c)
  {
    if a.Text? && b.Text? {
      LexTotal(a.s, b.s);
      if c.Text? && LexLe(a.s, b.s) && LexLe(b.s, c.s) {
        LexTransitive(a.s, b.s, c.s);
      }
    }
  }

  lemma RowLeTotal(a: Value, b: Value, c: Value, ascending: bool, i: int, j: int, k: int)
    ensures RowLe(a, b, ascending, i, j) || RowLe(b, a, ascending, j, i)
    ensures RowLe(a, b, ascending, i, j) && RowLe(b, a, ascending, j, i) ==> i == j
    ensures RowLe(a, b, ascending, i, j) && RowLe(b, c, ascending, j, k) ==> RowLe(a, c, ascending, i, k)
  {
    ValueLeTotal(a, b, c);
    ValueLeTotal(b, a, c);
    ValueLeTotal(c, b, a);
  }

  lemma OrderIsTotal<K(!new)>(from: map<K, Row>, column: Column, ascending: bool, rank: K -> int, keys: set<K>)
    requires Breaks(rank) && keys <= from.Keys
    ensures TotalOrder(keys, (a, b) => Before(from, column, ascending, rank, a, b))
  {
    var before := (a, b) => Before(from, column, ascending, rank, a, b);
    forall a, b, c | a in keys && b in keys && c in keys
      ensures before(a, b) || before(b, a)
      ensures before(a, b) && before(b, a) ==> a == b
      ensures before(a, b) && before(b, c) ==> before(a, c)
    {
      RowLeTotal(from[a](column), from[b](column), from[c](column), ascending, rank(a), rank(b), rank(c));
    }
  }

  // ---------------------------------------------------------------- the whole query

  predicate BoundQuery(q: Query, n: nat) {
    BoundConds(q.where, n) && Bound(q.offset, n)
  }

  ghost function Order<K(!new)>(from: map<K, Row>, q: Query, rank: K -> int): (K, K) -> bool {
    (a, b) => Before(from, q.orderBy, q.ascending, rank, a, b)
  }

  function Matching<K(==)>(from: map<K, Row>, q: Query, params: seq<Value>): set<K>
    requires BoundConds(q.where, |params|)
  {
    set k | k in from && Holds(q.where, from[k], params)
  }

  /** The answer of the database; from holds the joined rows, under the key of the table listed. A negative or
      non-numeric OFFSET is an error. The second component is the listing before LIMIT and OFFSET. */
  function Select<K(==, !new)>(from: map<K, Row>, q: Query, params: seq<Value>, rank: K -> int)
    : (Result<seq<K>>, seq<K>)
    requires BoundQuery(q, |params|) && Breaks(rank)
  {
    OrderIsTotal(from, q.orderBy, q.ascending, rank, Matching(from, q, params));
    var listing := Sorted(Matching(from, q, params), (a, b) => Before(from, q.orderBy, q.ascending, rank, a, b));
    var offset := Eval(q.offset, (c: Column) => Null, params);
    if offset.Int? && 0 <= offset.n then (Success(Window(listing, q.limit, offset.n)), listing)
    else (Failure(QueryFailed), listing)
  }

  /** What Select lists is the one listing of the matching rows in the order of the query. */
  lemma SelectLists<K(!new)>(from: map<K, Row>, q: Query, params: seq<Value>, rank: K -> int)
    requires BoundQuery(q, |params|) && Breaks(rank)
    ensures IsListing(Select(from, q, params, rank).1, Matching(from, q, params), Order(from, q, rank))
  {
    OrderIsTotal(from, q.orderBy, q.ascending, rank, Matching(from, q, params));
    var xs := Select(from, q, params, rank).1;
    forall i, j | 0 <= i < j < |xs| ensures Order(from, q, rank)(xs[i], xs[j]) {
      assert Before(from, q.orderBy, q.ascending, rank, xs[i], xs[j]);
    }
  }
}
