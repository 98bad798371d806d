/** MemberService, WorkspaceService's transactions and WorkspaceGuard as objects over one pool, proved against
    Members. */
module MemberServices {
  import opened Basics
  import opened Schema
  import opened Transactions
  import Members

  type Directory = Members.Directory

  class MemberService {
    const pool: Pool<Directory>
    const transactionService: TransactionService<Directory>
    const choose: set<int> -> int    // the row that LIMIT 1 without ORDER BY returns

    constructor (transactionService: TransactionService<Directory>, choose: set<int> -> int)
      ensures Wired() && this.transactionService == transactionService && this.choose == choose
    {
      this.transactionService, this.choose := transactionService, choose;
      pool := transactionService.pool;
    }

    /** Both constructor arguments of the source lead to the same pool. */
    predicate Wired() {
      transactionService.pool == pool
    }

    method AddMember(workspaceId: nat, userId: int, role: Role) returns (r: Result<()>)
      modifies pool`tables, pool`queries
      ensures pool.queries == old(pool.queries) + 1
      ensures var added := Members.AddMember(old(pool.tables), workspaceId, userId, role);
              if pool.fails(old(pool.queries)) || added.Failure?
              then r == Failure(QueryFailed) && pool.tables == old(pool.tables)
              else r == Success(()) && pool.tables == added.value
    {
      var ok := pool.Attempt();
      var added := Members.AddMember(pool.tables, workspaceId, userId, role);
      if !ok || added.Failure? {
        return Failure(QueryFailed);
      }
      pool.tables := added.value;
      return Success(());
    }

    method GetMemberRole(workspaceId: nat, userId: int) returns (r: Result<Option<Role>>)
      modifies pool`queries
      ensures pool.queries == old(pool.queries) + 1
      ensures r == if pool.fails(old(pool.queries)) then Failure(QueryFailed)
                   else Success(Members.RoleOf(pool.tables, workspaceId, userId))
    {
      var ok := pool.Attempt();
      if !ok {
        return Failure(QueryFailed);
      }
      return Success(Members.RoleOf(pool.tables, workspaceId, userId));
    }

    method ChangeOwner(currentOwnerId: int, workspaceId: nat, newOwnerId: Option<int>) returns (r: Result<()>)
      requires Wired()
      modifies pool
      ensures var ran := Members.ChangeOwner(old(pool.tables), currentOwnerId, workspaceId, newOwnerId, choose,
                                             pool.fails, old(pool.queries));
              && pool.tables == ran.committed && pool.queries == ran.next
              && r == if ran.outcome.Failure? then Failure(ran.outcome.error) else Success(())
      ensures pool.returned - old(pool.returned) == pool.leased - old(pool.leased)
    {
      var outcome := transactionService.Run(
        Members.ChangeOwnerWork(currentOwnerId, workspaceId, newOwnerId, choose),
        if newOwnerId.Some? then newOwnerId.value else 0);
      return if outcome.Failure? then Failure(outcome.error) else Success(());
    }

    method RemoveMember(userId: int, workspaceId: nat, memberId: int) returns (r: Result<()>)
      requires Wired()
      modifies pool
      ensures (pool.tables, r) == Members.RemoveMember(old(pool.tables), userId, workspaceId, memberId, choose,
                                                       pool.fails, old(pool.queries))
      ensures pool.returned - old(pool.returned) == pool.leased - old(pool.leased)
    {
      if memberId == 0 {
        return Failure(BadRequest);
      }
      var read := GetMemberRole(workspaceId, userId);
      if read.Failure? {
        return Failure(read.error);
      }
      var userRole := read.value;
      read := GetMemberRole(workspaceId, memberId);
      if read.Failure? {
        return Failure(read.error);
      }
      if read.value.None? {
        return Failure(NotFound);
      }
      var memberRole := read.value.value;
      if (userRole == Some(Admin) && memberRole == Admin && userId != memberId)
         || (userRole == Some(Admin) && memberRole == Owner)
      {
        return Failure(Forbidden);
      }
      if (userRole == Some(Member) && (memberRole == Owner || memberRole == Admin))
         || (userRole == Some(Member) && memberRole == Member && userId != memberId)
      {
        return Failure(Forbidden);
      }
      if userRole == Some(Owner) && userId == memberId {
        var handed := ChangeOwner(userId, workspaceId, None);
        if handed.Failure? {
          return handed;
        }
      }
      var ok := pool.Attempt();
      if !ok {
        return Failure(QueryFailed);
      }
      pool.tables := Members.DeleteMember(pool.tables, workspaceId, memberId);
      return Success(());
    }

    method UpdateRole(userId: int, workspaceId: nat, memberId: int, role: Role) returns (r: Result<()>)
      requires Wired()
      modifies pool
      ensures (pool.tables, r) == Members.UpdateRole(old(pool.tables), userId, workspaceId, memberId, role, choose,
                                                     pool.fails, old(pool.queries))
      ensures pool.returned - old(pool.returned) == pool.leased - old(pool.leased)
    {
      if role == Owner {
        r := ChangeOwner(userId, workspaceId, Some(memberId));
      } else if userId == memberId && (role == Admin || role == Member) {
        r := ChangeOwner(userId, workspaceId, None);
      } else {
        var ok := pool.Attempt();
        if !ok {
          return Failure(QueryFailed);
        }
        if Members.RoleOf(pool.tables, workspaceId, memberId).None? {
          return Failure(NotFound);
        }
        pool.tables := Members.SetRole(pool.tables, workspaceId, memberId, role);
        return Success(());
      }
    }
  }

  class WorkspaceService {
    const pool: Pool<Directory>
    const transactionService: TransactionService<Directory>

    constructor (transactionService: TransactionService<Directory>)
      ensures Wired() && this.transactionService == transactionService
    {
      this.transactionService := transactionService;
      pool := transactionService.pool;
    }

    predicate Wired() {
      transactionService.pool == pool
    }

    method CreateWorkspace(createdBy: int) returns (r: Result<nat>)
      requires Wired()
      modifies pool
      ensures var ran := Members.CreateWorkspace(old(pool.tables), createdBy, pool.fails, old(pool.queries));
              pool.tables == ran.committed && pool.queries == ran.next && r == ran.outcome
      ensures pool.returned - old(pool.returned) == pool.leased - old(pool.leased)
    {
      r := transactionService.Run(Members.CreateWorkspaceWork(createdBy), 0);
    }

    method DeleteWorkspace(workspaceId: nat) returns (r: Result<()>)
      modifies pool`tables, pool`queries
      ensures (pool.tables, r) == Members.DeleteWorkspace(old(pool.tables), workspaceId, pool.fails, old(pool.queries))
    {
      var ok := pool.Attempt();
      if !ok {
        return Failure(QueryFailed);
      }
      if workspaceId !in pool.tables.workspaces {
        return Failure(NotFound);
      }
      pool.tables := Members.DeleteRow(pool.tables, workspaceId);
      return Success(());
    }
  }

  class WorkspaceGuard {
    const memberService: MemberService

    constructor (memberService: MemberService)
      ensures this.memberService == memberService
    {
      this.memberService := memberService;
    }

    /** Lets the request through, or throws; reads one row and changes nothing. */
    method CanActivate(workspaceId: nat, userId: int, requiredRoles: Option<set<Role>>) returns (r: Result<()>)
      modifies memberService.pool`queries
      ensures r == Members.CanActivate(memberService.pool.tables, workspaceId, userId, requiredRoles,
                                       memberService.pool.fails, old(memberService.pool.queries))
      ensures memberService.pool.queries == old(memberService.pool.queries) + 1
    {
      var member := memberService.GetMemberRole(workspaceId, userId);
      if member.Failure? {
        return Failure(member.error);
      }
      if member.value.None? {
        return Failure(Forbidden);
      }
      if requiredRoles.Some? && member.value.value !in requiredRoles.value {
        return Failure(Forbidden);
      }
      return Success(());
    }
  }
}
