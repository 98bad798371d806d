/**
  TransactionService.run over a database of type T, with queries that may fail at any point.

  The work of a transaction is the list of its queries; each reads and writes the tables, hands on the local
  variables L of the code around it, and may end in an exception of that code (Threw). A query goes either through
  the leased client, or through the pool, in which case it commits on its own. Which queries fail is decided by a
  schedule, fails, indexed by the number of queries issued before; BEGIN, COMMIT, ROLLBACK and connect count.
*/
module Transactions {
  import opened Basics

  datatype Reply<+T, +L> = Answered(tables: T, locals: L) | Threw(error: Error)

  datatype Step<!T, !L> = OnClient(act: (T, L) -> Reply<T, L>) | OnPool(act: (T, L) -> Reply<T, L>)

  /** committed: what others see; view: what the open transaction sees; next: queries issued so far. */
  datatype Ran<+T, +L> = Ran(committed: T, view: T, outcome: Result<L>, next: nat)

  function RunSteps<T, L>(work: seq<Step<T, L>>, committed: T, view: T, locals: L, fails: nat -> bool, n: nat)
    : Ran<T, L>
  {
    if work == [] then Ran(committed, view, Success(locals), n)
    else if fails(n) then Ran(committed, view, Failure(QueryFailed), n + 1)
    else
      match work[0]
      case OnClient(act) =>
        (match act(view, locals)
         case Threw(error) => Ran(committed, view, Failure(error), n + 1)
         case Answered(view2, locals2) => RunSteps(work[1..], committed, view2, locals2, fails, n + 1))
      case OnPool(act) =>
        (match act(committed, locals)
         case Threw(error) => Ran(committed, view, Failure(error), n + 1)
         case Answered(committed2, locals2) =>
           RunSteps(work[1..], committed2, Shown(act, view, locals), locals2, fails, n + 1))
  }

  /** A write committed through the pool shows in the open transaction too (READ COMMITTED). */
  function Shown<T, L>(act: (T, L) -> Reply<T, L>, view: T, locals: L): T {
    match act(view, locals)
    case Threw(_) => view
    case Answered(view2, _) => view2
  }

  /** ROLLBACK; if it fails itself, its error replaces the one that caused it. */
  function RolledBack<T, L>(committed: T, error: Error, fails: nat -> bool, n: nat): Ran<T, L> {
    Ran(committed, committed, Failure(if fails(n) then QueryFailed else error), n + 1)
  }

  function Transaction<T, L>(tables: T, work: seq<Step<T, L>>, locals: L, fails: nat -> bool, n: nat): Ran<T, L> {
    if fails(n) then Ran(tables, tables, Failure(QueryFailed), n + 1)
    else if fails(n + 1) then RolledBack(tables, QueryFailed, fails, n + 2)
    else
      var r := RunSteps(work, tables, tables, locals, fails, n + 2);
      if r.outcome.Failure? then RolledBack(r.committed, r.outcome.error, fails, r.next)
      else if fails(r.next) then RolledBack(r.committed, QueryFailed, fails, r.next + 1)
      else Ran(r.view, r.view, r.outcome, r.next + 1)
  }

  // ---------------------------------------------------------------- all or nothing

  predicate ClientOnly<T, L>(work: seq<Step<T, L>>) {
    forall i :: 0 <= i < |work| ==> work[i].OnClient?
  }

  /** The work done in one go, with nothing failing in the database. */
  function InOneGo<T, L>(work: seq<Step<T, L>>, tables: T, locals: L): Reply<T, L> {
    if work == [] then Answered(tables, locals)
    else
      match work[0].act(tables, locals)
      case Threw(error) => Threw(error)
      case Answered(tables2, locals2) => InOneGo(work[1..], tables2, locals2)
  }

  ghost predicate NoFault(fails: nat -> bool, n: nat, count: nat) {
    forall k :: n <= k < n + count ==> !fails(k)
  }

  lemma {:induction false} StepsInOneGo<T, L>(work: seq<Step<T, L>>, committed: T, view: T, locals: L,
                                             fails: nat -> bool, n: nat)
    requires ClientOnly(work)
    ensures var r := RunSteps(work, committed, view, locals, fails, n);
            && r.committed == committed && n <= r.next <= n + |work|
            && (r.outcome.Success? <==> NoFault(fails, n, |work|) && InOneGo(work, view, locals).Answered?)
            && (r.outcome.Success? ==>
                  && r.next == n + |work|
                  && InOneGo(work, view, locals) == Answered(r.view, r.outcome.value))
  {
    if work != [] {
      match work[0].act(view, locals) {
        case Threw(_) =>
        case Answered(view2, locals2) =>
          StepsInOneGo(work[1..], committed, view2, locals2, fails, n + 1);
          if !fails(n) {
            assert NoFault(fails, n, |work|) <==> NoFault(fails, n + 1, |work| - 1) by {
              if NoFault(fails, n + 1, |work| - 1) {
                forall k | n <= k < n + |work| ensures !fails(k) {}
              }
            }
          }
      }
    }
  }

  /** A transaction whose queries all go through its client succeeds exactly when no query of it fails and the work
      does not throw; then all of its effect is committed, and otherwise none of it. */
  lemma AllOrNothing<T, L>(tables: T, work: seq<Step<T, L>>, locals: L, fails: nat -> bool, n: nat)
    requires ClientOnly(work)
    ensures var r := Transaction(tables, work, locals, fails, n);
            && (r.outcome.Success? <==> NoFault(fails, n, |work| + 3) && InOneGo(work, tables, locals).Answered?)
            && (r.outcome.Success? ==> InOneGo(work, tables, locals) == Answered(r.committed, r.outcome.value))
            && (r.outcome.Failure? ==> r.committed == tables)
  {
    StepsInOneGo(work, tables, tables, locals, fails, n + 2);
    var m := |work|;
    if NoFault(fails, n + 2, m) && !fails(n) && !fails(n + 1) && !fails(n + 2 + m) {
      forall k | n <= k < n + m + 3 ensures !fails(k) {}
    }
  }

  lemma {:induction false} StepsThrow<T, L>(work: seq<Step<T, L>>, committed: T, view: T, locals: L, error: Error,
                                          fails: nat -> bool, n: nat)
    requires ClientOnly(work) && NoFault(fails, n, |work|) && InOneGo(work, view, locals) == Threw(error)
    ensures var r := RunSteps(work, committed, view, locals, fails, n);
            r.outcome == Failure(error) && r.next <= n + |work|
  {
    assert work != [] && !fails(n);
    match work[0].act(view, locals) {
      case Threw(_) =>
      case Answered(view2, locals2) =>
        StepsThrow(work[1..], committed, view2, locals2, error, fails, n + 1);
    }
  }

  /** An exception of the work is rethrown as it is when no query fails, the ROLLBACK included. */
  lemma ErrorPassedOn<T, L>(tables: T, work: seq<Step<T, L>>, locals: L, error: Error, fails: nat -> bool, n: nat)
    requires ClientOnly(work) && NoFault(fails, n, |work| + 3) && InOneGo(work, tables, locals) == Threw(error)
    ensures Transaction(tables, work, locals, fails, n).outcome == Failure(error)
  {
    assert !fails(n) && !fails(n + 1);
    StepsInOneGo(work, tables, tables, locals, fails, n + 2);
    StepsThrow(work, tables, tables, locals, error, fails, n + 2);
    assert !fails(RunSteps(work, tables, tables, locals, fails, n + 2).next);
  }

  // ---------------------------------------------------------------- the objects

  /** The connection pool and the database behind it. */
  class Pool<T> {
    var tables: T
    var queries: nat
    var leased: nat
    var returned: nat
    const fails: nat -> bool

    constructor (tables: T, fails: nat -> bool)
      ensures this.tables == tables && this.fails == fails && queries == leased == returned == 0
    {
      this.tables, this.fails := tables, fails;
      queries, leased, returned := 0, 0, 0;
    }

    /** One round trip; what a successful one does is up to the caller. */
    method Attempt() returns (ok: bool)
      modifies this`queries
      ensures queries == old(queries) + 1 && ok == !fails(old(queries))
    {
      ok := !fails(queries);
      queries := queries + 1;
    }
  }

  class TransactionService<T> {
    const pool: Pool<T>

    constructor (pool: Pool<T>)
      ensures this.pool == pool
    {
      this.pool := pool;
    }

    /** try { BEGIN; work; COMMIT } catch { ROLLBACK; rethrow } finally { release }. The client is returned once for
        every lease, on every path, a failing ROLLBACK included. */
    method Run<L>(work: seq<Step<T, L>>, locals: L) returns (outcome: Result<L>)
      modifies pool
      ensures var r := Transaction(old(pool.tables), work, locals, pool.fails, old(pool.queries));
              pool.tables == r.committed && outcome == r.outcome && pool.queries == r.next
      ensures pool.leased == old(pool.leased) + (if pool.fails(old(pool.queries)) then 0 else 1)
      ensures pool.returned - old(pool.returned) == pool.leased - old(pool.leased)
    {
      var connected := pool.Attempt();
      if !connected {
        return Failure(QueryFailed);
      }
      pool.leased := pool.leased + 1;
      outcome := Success(locals);
      var begun := pool.Attempt();
      if !begun {
        outcome := Failure(QueryFailed);
      } else {
        var view;
        outcome, view := Work(work, locals);
        if outcome.Success? {
          var committed := pool.Attempt();
          if committed {
            pool.tables := view;
          } else {
            outcome := Failure(QueryFailed);
          }
        }
      }
      if outcome.Failure? {
        var rolledBack := pool.Attempt();
        if !rolledBack {
          outcome := Failure(QueryFailed);
        }
      }
      pool.returned := pool.returned + 1;
    }

    /** The queries of the work, one after the other, until one fails or throws. */
    method Work<L>(work: seq<Step<T, L>>, locals: L) returns (outcome: Result<L>, view: T)
      modifies pool`tables, pool`queries
      ensures var r := RunSteps(work, old(pool.tables), old(pool.tables), locals, pool.fails, old(pool.queries));
              pool.tables == r.committed && view == r.view && outcome == r.outcome && pool.queries == r.next
    {
      ghost var start := RunSteps(work, pool.tables, pool.tables, locals, pool.fails, pool.queries);
      view := pool.tables;
      var vars := locals;
      var i := 0;
      while i < |work|
        invariant 0 <= i <= |work|
        invariant RunSteps(work[i..], pool.tables, view, vars, pool.fails, pool.queries) == start
      {
        var ok := pool.Attempt();
        if !ok {
          return Failure(QueryFailed), view;
        }
        assert work[i..][0] == work[i] && work[i..][1..] == work[i + 1..];
        match work[i] {
          case OnClient(act) =>
            match act(view, vars) {
              case Threw(error) => return Failure(error), view;
              case Answered(view2, vars2) => view, vars := view2, vars2;
            }
          case OnPool(act) =>
            match act(pool.tables, vars) {
              case Threw(error) => return Failure(error), view;
              case Answered(tables2, vars2) =>
                view := Shown(act, view, vars);
                pool.tables, vars := tables2, vars2;
            }
        }
        i := i + 1;
      }
      return Success(vars), view;
    }
  }
}
