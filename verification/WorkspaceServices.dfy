/** The part of WorkspaceService that reads and renames workspace rows; its transactions are in MemberServices. */
module WorkspaceServices {
  import opened Basics
  import opened Schema
  import opened Transactions
  import opened SqlQueries
  import opened Listings
  import opened TaskQueries
  import ListQueries

  datatype Tables = Tables(workspaces: map<nat, WorkspaceRow>, members: map<(nat, int), Role>)

  function WorkspaceViews(t: Tables, memberships: seq<(nat, int)>): (views: seq<WorkspaceRow>)
    requires forall i :: 0 <= i < |memberships| ==> memberships[i].0 in t.workspaces
  {
    seq(|memberships|, i requires 0 <= i < |memberships| => t.workspaces[memberships[i].0])
  }

  class WorkspaceService {
    const pool: Pool<Tables>
    const rank: ((nat, int)) -> int    // how the database happens to break ties

    constructor (pool: Pool<Tables>, rank: ((nat, int)) -> int)
      ensures this.pool == pool && this.rank == rank
    {
      this.pool, this.rank := pool, rank;
    }

    method UpdateWorkspace(workspaceId: nat, name: string, now: int) returns (r: Result<()>)
      modifies pool`tables, pool`queries
      ensures var t := old(pool.tables);
              if pool.fails(old(pool.queries)) then r == Failure(QueryFailed) && pool.tables == t
              else if workspaceId !in t.workspaces then r == Failure(NotFound) && pool.tables == t
              else r == Success(())
                   && pool.tables == t.(workspaces := t.workspaces[workspaceId :=
                                          t.workspaces[workspaceId].(name := name, updatedAt := now)])
    {
      var ok := pool.Attempt();
      if !ok {
        return Failure(QueryFailed);
      }
      var t := pool.tables;
      if workspaceId !in t.workspaces {
        return Failure(NotFound);
      }
      var row := t.workspaces[workspaceId].(name := name, updatedAt := now);
      pool.tables := t.(workspaces := t.workspaces[workspaceId := row]);
      return Success(());
    }

    /** One page of the workspaces that the user is a member of. */
    method GetWorkspaces(userId: int, page: int, search: Option<string>, sortBy: Option<SortKey>,
                         sortOrder: Option<SortOrder>)
      returns (r: Result<seq<WorkspaceRow>>, ghost listing: seq<(nat, int)>)
      requires Breaks(rank)
      modifies pool`queries
      ensures var t := pool.tables;
              ListQueries.Sortable(sortBy) ==>
                && IsListing(listing, ListQueries.WantedMemberships(t.workspaces, t.members, userId, search),
                             ListQueries.MembershipOrder(t.workspaces, sortBy, sortOrder, rank))
                && (forall m :: m in listing <==>
                      m in t.members && m.1 == userId && m.0 in t.workspaces
                      && ListQueries.Found(search, t.workspaces[m.0].name))
      ensures pool.fails(old(pool.queries)) || !ListQueries.Sortable(sortBy) || page < 1 ==> r == Failure(QueryFailed)
      ensures !pool.fails(old(pool.queries)) && ListQueries.Sortable(sortBy) && 1 <= page ==>
                && r.Success? && |r.value| == |Page(listing, page)|
                && forall i :: 0 <= i < |r.value| ==>
                     && Page(listing, page)[i].0 in pool.tables.workspaces
                     && r.value[i] == pool.tables.workspaces[Page(listing, page)[i].0]
    {
      listing := [];
      var column := ListQueries.ListColumn(sortBy);
      var ok := pool.Attempt();
      if column.None? {
        return Failure(QueryFailed), listing;
      }
      var t := pool.tables;
      ListQueries.WorkspaceListAnswer(t.workspaces, t.members, userId, page, search, sortBy, sortOrder, rank);
      var answer := Select(ListQueries.WorkspacesJoinMembers(t.workspaces, t.members),
                           ListQueries.ListQuery(MemberUser, WorkspaceName, column.value, sortOrder),
                           ListQueries.ListValues(userId, search, page), rank);
      listing := answer.1;
      ListQueries.MembershipListingSpelled(t.workspaces, t.members, userId, search, sortBy, sortOrder, rank, listing);
      if !ok || answer.0.Failure? {
        return Failure(QueryFailed), listing;
      }
      PageListed(listing, page);
      return Success(WorkspaceViews(t, answer.0.value)), listing;
    }
  }
}
