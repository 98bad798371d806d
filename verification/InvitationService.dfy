/** InvitationService as an object over one pool, proved against Invitations. */
module InvitationServices {
  import opened Basics
  import opened Transactions
  import opened Invitations

  /** What verifyToken hands on: the row, its workspace, and the email of the token. */
  datatype Verified = Verified(invitationId: nat, workspaceId: nat, email: string)

  class InvitationService {
    const pool: Pool<Desk>
    const transactionService: TransactionService<Desk>
    const bcrypt: Bcrypt<Token>
    const first: set<nat> -> nat

    constructor (transactionService: TransactionService<Desk>, bcrypt: Bcrypt<Token>, first: set<nat> -> nat)
      ensures Wired() && this.transactionService == transactionService && this.bcrypt == bcrypt && this.first == first
    {
      this.transactionService, this.bcrypt, this.first := transactionService, bcrypt, first;
      pool := transactionService.pool;
    }

    predicate Wired() {
      transactionService.pool == pool
    }

    method ExistInvitation(email: string) returns (r: Result<bool>)
      modifies pool`queries
      ensures pool.queries == old(pool.queries) + 1
      ensures r == if pool.fails(old(pool.queries)) then Failure(QueryFailed)
                   else Success(Invitations.ExistInvitation(pool.tables, email))
    {
      var ok := pool.Attempt();
      return if ok then Success(Invitations.ExistInvitation(pool.tables, email)) else Failure(QueryFailed);
    }

    method StoreInvitation(row: Invite) returns (r: Result<()>)
      modifies pool`tables, pool`queries
      ensures pool.queries == old(pool.queries) + 1
      ensures var stored := Invitations.StoreInvitation(old(pool.tables), row);
              if pool.fails(old(pool.queries)) || stored.Failure?
              then r == Failure(QueryFailed) && pool.tables == old(pool.tables)
              else r == Success(()) && pool.tables == stored.value
    {
      var ok := pool.Attempt();
      var stored := Invitations.StoreInvitation(pool.tables, row);
      if !ok || stored.Failure? {
        return Failure(QueryFailed);
      }
      pool.tables := stored.value;
      return Success(());
    }

    method GenerateInvitation(workspaceId: nat, email: string, env: Env) returns (r: Result<()>)
      modifies pool`tables, pool`queries
      ensures (pool.tables, r) == Invitations.GenerateInvitation(old(pool.tables), workspaceId, email, bcrypt, env,
                                                                 pool.fails, old(pool.queries))
    {
      var invitationToken := Token(email, workspaceId, env.exp);
      var hashToken := bcrypt.hash(invitationToken, env.salt);
      var exist := ExistInvitation(email);
      if exist.Failure? {
        return Failure(exist.error);
      }
      if exist.value {
        return Failure(Conflict);
      }
      r := StoreInvitation(Invite(workspaceId, email, hashToken, Pending, env.now, env.expiresAt));
      if r.Failure? {
        return;
      }
      // from here on the token can reach the invited person
      pool.tables := pool.tables.(issued := pool.tables.issued + {invitationToken});
      var context := pool.Attempt();
      if !context {
        return Failure(QueryFailed);
      }
      var queued := pool.Attempt();
      return if queued then Success(()) else Failure(QueryFailed);
    }

    method VerifyToken(invitationToken: Token, now: int) returns (r: Result<Verified>)
      modifies pool`queries
      ensures var id := Invitations.VerifyToken(pool.tables, invitationToken, bcrypt, first, now,
                                                pool.fails, old(pool.queries));
              if id.Failure? then r == Failure(id.error)
              else
                && pool.queries == old(pool.queries) + 1 && id.value in pool.tables.invites
                && r == Success(Verified(id.value, pool.tables.invites[id.value].workspaceId, invitationToken.email))
    {
      if !Verifies(pool.tables, invitationToken, now) {
        return Failure(Unauthorized);
      }
      if invitationToken.email == "" || invitationToken.workspaceId == 0 {
        return Failure(NotFound);
      }
      var ok := pool.Attempt();
      if !ok {
        return Failure(QueryFailed);
      }
      var rows := PendingIds(pool.tables, invitationToken.email, invitationToken.workspaceId);
      if rows == {} {
        return Failure(NotFound);
      }
      var id := first(Newest(pool.tables, rows));
      if id !in pool.tables.invites {
        return Failure(QueryFailed);
      }
      var tokenRow := pool.tables.invites[id];
      if !bcrypt.compare(invitationToken, tokenRow.tokenHash) {
        return Failure(Unauthorized);
      }
      if tokenRow.expiresAt < now {
        return Failure(Unauthorized);
      }
      return Success(Verified(id, tokenRow.workspaceId, invitationToken.email));
    }

    method AcceptInvitation(invitationToken: Token, userId: int, now: int) returns (r: Result<()>)
      requires Wired()
      modifies pool
      ensures (pool.tables, r) == Invitations.AcceptInvitation(old(pool.tables), invitationToken, userId, bcrypt, first,
                                                               now, pool.fails, old(pool.queries))
      ensures pool.returned - old(pool.returned) == pool.leased - old(pool.leased)
    {
      var verified := VerifyToken(invitationToken, now);
      if verified.Failure? {
        return Failure(verified.error);
      }
      r := transactionService.Run(AcceptWork(verified.value.invitationId, verified.value.workspaceId, userId), ());
    }

    method DeclineInvitation(invitationToken: Token, now: int) returns (r: Result<()>)
      modifies pool`tables, pool`queries
      ensures (pool.tables, r) == Invitations.DeclineInvitation(old(pool.tables), invitationToken, bcrypt, first, now,
                                                                pool.fails, old(pool.queries))
    {
      var verified := VerifyToken(invitationToken, now);
      if verified.Failure? {
        return Failure(verified.error);
      }
      var ok := pool.Attempt();
      if !ok {
        return Failure(QueryFailed);
      }
      pool.tables := SetStatus(pool.tables, verified.value.invitationId, Declined);
      return Success(());
    }
  }
}
