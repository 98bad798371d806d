# Verified model of the task manager backend

This project models the state machines that the backend runs over its SQL tables and proves what they keep over whole
runs. A table is a map from id to row with a serial counter that never goes back. A service is a class whose methods
change those maps; each method is proved equal to a function on values, and the lemmas are about runs of those
functions. Clock, UUIDs, salts, object store and the choice a database makes where a query leaves it open are
parameters.

Check everything with `dafny verify dfyconfig.toml`.

## The four components

**Refresh-token rotation.** `RefreshTokens` has the queries and the requests as functions, `RefreshTokenService.dfy`
the three classes. `RefreshTokenRuns` proves the rotation scheme of section 5.2.2.3 of RFC 6819 and section 4.14.2 of
RFC 9700 for serialised requests: families are chains, a token is accepted at most once, reuse and logout are final.
`RefreshTokenRaces` takes the same protocol apart into single queries of requests in flight together and proves what
survives every schedule. At-most-once acceptance and the finality of logout and of reuse detection do not.
`RefreshTokenRaceLimits` proves for each of them, for every run and every instant c, exactly when a continuation from c
on can break it; what a continuation may do, time included, is in `RefreshTokenContinuations`, and
`RefreshTokenSchedules` has runs that break them. `RefreshTokenSerial` ties the two models together: requests in one go
are schedules of single queries, and the three promises hold for requests one at a time even when each is stopped at any
query. A signed token is its payload; it verifies if
it is in the set of issued payloads and, by section 4.1.4 of RFC 7519, not expired. Of bcrypt only
`compare(t, hash(t))` is assumed. The documentation says that a used token revokes its family at once; the code does so
only while the row has not expired: `ExpiredReuseGoesUnnoticed` is a run in which it does not, and
`RevokesExactlyOnReuse` gives the exact condition.

**Query building, filtering and paging.** `LikePatterns` is the LIKE matcher, `SqlQueries` the fragment of SQL with
numbered parameters and three-valued logic, `Listings` ordered listings and their pages. `TaskQueries` has the builder of
`getTask` and proves that it means its direct specification at every step; `TaskUpdates` does the same for the SET list
of `updateTask`, which is a patch of one row. `ListQueries` covers the project and workspace lists.

**Membership, succession and invitations.** `Transactions` is `TransactionService.run` with a schedule that lets any
query fail. `Members` and `Invitations` are the requests, with failures at every cut point; `MemberRuns` and
`InvitationRuns` prove what holds over all runs, and the two service files hold the classes. The code is modelled as it
stands: a transfer of ownership to oneself succeeds and leaves no owner, and the membership insert of an acceptance does
not use the client of its transaction.

**The tenant tree.** `StorageKeys` prints and reads storage keys; `TenantTree` has all requests on projects, tasks and
files beside those on people, with cascades; `TenantRuns` follows files through runs; `TenantLinks` shows that links are
never rewritten and deletions are final; `TenantIsolation` shows that workspaces do not touch each other; `TenantPeople`
carries the facts on owners and invitations over to the whole system. `TenantServices` and `WorkspaceServices` hold the
classes. `WorkspaceService` appears twice: its transactions in `MemberServices`, its list and its renaming in
`WorkspaceServices`.

The modules whose names end in `Outcomes` say of every request, without the functions that compute it, who may make it,
when it succeeds and what the tables hold afterwards. A run is a sequence of calls with their environment: the clock, the rows that unordered queries of this call find first
and, where queries can fail, a failure schedule. All of these may differ from call to call. The main results on updates
are `BuildSets`, `UpdatePatchesOneRow` and `TaskService.UpdateTask`; the other rows on `TaskUpdates` say what their
specification amounts to. `Runs` has the
induction principles used for runs given by a step function; the tenant tree records states and replies beside the
calls. A ghost result `listing` of the list methods is the whole ordered result that the page is cut from.

## Model

| member | source | states |
|---|---|---|
| `RefreshTokenServices.RefreshTokenService.ReserveTokenRow` | src/auth/refresh-token.service.ts:29-38 | inserts one unused, unrevoked row without a hash under the next id, and returns that id |
| `RefreshTokenServices.RefreshTokenService.SetTokenHash` | src/auth/refresh-token.service.ts:40-47 | writes the hash of the token into the row with that id and touches nothing else |
| `RefreshTokenServices.RefreshTokenService.CreateRefreshToken` | src/auth/refresh-token.service.ts:49-64 | row, signed token and hash of one new token, in the family given or in a new one |
| `RefreshTokenServices.RefreshTokenService.GetTokenRow` | src/auth/refresh-token.service.ts:66-88 | the row, or Unauthorized when there is none |
| `RefreshTokenServices.RefreshTokenService.RevokeTokenFamily` | src/auth/refresh-token.service.ts:90-95 | every row of the family, and no other, is revoked now |
| `RefreshTokenServices.RefreshTokenService.IsRevokedToken` | src/auth/refresh-token.service.ts:97-106 | false for a family without rows, otherwise what one row of it says |
| `RefreshTokenServices.RefreshTokenService.DeleteToken` | src/auth/refresh-token.service.ts:108-112 | exactly the rows of the family are gone |
| `RefreshTokenServices.RefreshTokenService.MarkRefreshTokenAsUsed` | src/auth/refresh-token.service.ts:114-119 | the row is used, all else as before |
| `RefreshTokenServices.RefreshTokenService.ValidateRefreshToken` | src/auth/refresh-token.service.ts:121-161 | the whole decision and its effect: each check in the order of the code, the family revoked on reuse, the row marked on success |
| `RefreshTokenServices.AuthService.CreateTokens` | src/auth/auth.service.ts:21-38 | issues one refresh token in the family given, or in a new family |
| `RefreshTokenServices.AuthService.Logout` | src/auth/auth.service.ts:75-86 | deletes the family of a token that verifies, and refuses any other token without a change |
| `RefreshTokenServices.AuthController.Refresh` | src/auth/auth.controller.ts:57-85 | one rotation step: validate, then issue the next token of the same family and user; the state machine that the runs are about takes this very step |
| `RefreshTokenServices.AuthController.Logout` | src/auth/auth.controller.ts:87-101 | the logout request as a step of the same state machine |
| `RefreshTokenRuns.ServeKeepsChains` | src/auth/auth.controller.ts:57-101 | every login, refresh and logout keeps each family a chain: all rows but the newest used, one user, one revoked status, a genuine token and a matching hash for each row |
| `RefreshTokenRuns.ReachableChains` | src/auth/refresh-token.service.ts:49-64 | the chain invariant holds in every reachable state |
| `RefreshTokenRuns.RevokedIsUniform` | src/auth/refresh-token.service.ts:97-106 | looking at one arbitrary row of a family decides for the whole family |
| `RefreshTokenRuns.AcceptedExactlyWhen` | src/auth/refresh-token.service.ts:121-161 | a token is accepted if and only if it was issued, is unexpired as a token and as a row, and its row is there, unused and unrevoked |
| `RefreshTokenRuns.OneLiveTokenPerFamily` | src/auth/refresh-token.service.ts:146-160 | in every reachable state at most one token of a family would be accepted, whenever presented |
| `RefreshTokenRuns.AcceptedAtMostOnce` | src/auth/refresh-token.service.ts:153-160 | over every run a token is accepted at most once |
| `RefreshTokenRuns.RevokesExactlyOnReuse` | src/auth/refresh-token.service.ts:149-156 | a refresh revokes a live family if and only if it presents a genuine, unexpired, already used token of it; the expiry of the row is checked before reuse |
| `RefreshTokenRuns.ExpiredReuseGoesUnnoticed` | src/auth/refresh-token.service.ts:149-156 | a run in which a genuine used token is presented again after its row has expired: it is refused, nothing changes, and the token it had bought is accepted |
| `RefreshTokenRuns.ReuseKillsFamily` | src/auth/refresh-token.service.ts:90-95 | such a presentation is refused, and no token of the family, the newest included, is accepted at any later point of the run |
| `RefreshTokenRuns.LogoutIsFinal` | src/auth/auth.service.ts:75-86 | after a logout no token of the family is ever accepted again in the run |
| `RefreshTokenRuns.NewTokenIsAccepted` | src/auth/auth.controller.ts:70-84 | right after a login or refresh the token handed out is accepted exactly until one of its two expiry instants has passed |
| `RefreshTokenRaces.ReachableSound` | src/auth/refresh-token.service.ts:29-161 | under every interleaving of single queries, with requests stopping anywhere: rows, tokens and requests in flight agree on the user of a family, and inserts are paid for by acceptances |
| `RefreshTokenRaces.InsertsNeverExceedAcceptances` | src/auth/refresh-token.service.ts:29-38 | under every interleaving the rows ever inserted in a family never exceed one plus its accepted validations |
| `RefreshTokenRaces.RowsNeverGoBack` | src/auth/refresh-token.service.ts:90-119 | under every interleaving used never reverts, revoked_at never returns to null, and a row keeps its user and family |
| `RefreshTokenRaces.DeletedRowsStayDeleted` | src/auth/refresh-token.service.ts:108-112 | under every interleaving a deleted row id never comes back |
| `RefreshTokenRaces.FamilyKeepsUser` | src/auth/refresh-token.service.ts:29-38 | any two rows of one family, at any two moments of any interleaving, belong to one user |
| `RefreshTokenRaces.LateReaderNeverAccepted` | src/auth/refresh-token.service.ts:133-158 | a validation that reads its row after the mark, or after the deletion, is never accepted |
| `RefreshTokenRaces.DeletedQuietFamilyStaysGone` | src/auth/refresh-token.service.ts:108-112 | once the rows are deleted and no request holds an unused row of the family, the family stays empty and nothing of it is accepted, under every continuation |
| `RefreshTokenRaces.RevokedFamilyStaysBarred` | src/auth/refresh-token.service.ts:90-106 | a revoked family with no request past its checks stays revoked and unaccepted for as long as no logout names it |
| `RefreshTokenRaceLimits.AcceptedAgainExactlyWhen` | src/auth/refresh-token.service.ts:133-158 | at most once, exactly: after any run, a token whose row is used or gone can be accepted again from instant c on if and only if a request is about to mark it, or has read its row unused and unexpired at c while the family is not sealed |
| `RefreshTokenRaceLimits.AcceptedIsUsedOrGone` | src/auth/refresh-token.service.ts:114-119 | every token accepted in an interleaved run has its row used or gone, so the condition decides about its second acceptance |
| `RefreshTokenRaceLimits.SealedWhereItLeads` | src/auth/refresh-token.service.ts:97-106 | a family is sealed at c when its rows are all revoked, no request will add or delete one, and its tokens have expired: from then on nothing of it is accepted |
| `RefreshTokenRaceLimits.DeletedFamilyReturnsExactlyWhen` | src/auth/auth.service.ts:75-86 | logout, exactly: a family without rows gets a row again, and has a token accepted again, from c on if and only if a request of it is past its checks and has not inserted, or has read its row unused and unexpired at c |
| `RefreshTokenRaceLimits.RevokedFamilyAcceptedExactlyWhen` | src/auth/refresh-token.service.ts:90-106 | reuse detection, exactly: a family all of whose rows are revoked, with no logout of it in flight, has a token accepted again from c on, without a logout, if and only if a request of it is past its checks and has not inserted its row |
| `RefreshTokenRaceLimits.FamilyAcceptedAgainExactlyWhen` | src/auth/refresh-token.service.ts:97-160 | the same for every family in every state and everything that may follow from c on: a request past its checks, or an unsealed family with a reader in time or a token that can still be read unused, unexpired and with its hash |
| `RefreshTokenContinuations.LeadsToRun` | src/auth/refresh-token.service.ts:121-161 | every continuation meant by these theorems makes a longer run of the same protocol |
| `RefreshTokenSchedules.SameTokenAcceptedTwice` | src/auth/refresh-token.service.ts:133-158 | a schedule in which two requests are accepted with one token |
| `RefreshTokenSchedules.LogoutOvertaken` | src/auth/auth.service.ts:75-86 | a schedule in which a request accepted after the logout completed revives the family |
| `RefreshTokenSchedules.ReuseOvertaken` | src/auth/refresh-token.service.ts:153-158 | a schedule without any logout in which a token of the family is accepted after reuse detection revoked all its rows |
| `RefreshTokenSerial.RefreshIsSchedule` | src/auth/auth.controller.ts:57-85 | a refresh served in one go has the store and the outcome of its single queries run one after the other |
| `RefreshTokenSerial.LoginIsSchedule` | src/auth/auth.service.ts:21-38 | likewise for the tokens of a login |
| `RefreshTokenSerial.LogoutIsSchedule` | src/auth/auth.service.ts:75-86 | likewise for a logout |
| `RefreshTokenSerial.SerialRunIsSchedule` | src/auth/auth.controller.ts:57-101 | every run of requests served in one go is a run of single queries with the same store after every request |
| `RefreshTokenSerial.AcceptedAtMostOnce` | src/auth/refresh-token.service.ts:133-158 | requests one at a time, each stopped at any query: no two are accepted with one token |
| `RefreshTokenSerial.LogoutIsFinal` | src/auth/refresh-token.service.ts:108-112 | requests one at a time, each stopped at any query: once the DELETE of a logout has run, the family stays empty and nothing of it is accepted |
| `RefreshTokenSerial.ReuseIsFinal` | src/auth/refresh-token.service.ts:90-95 | requests one at a time, each stopped at any query: once the UPDATE of reuse detection has run, nothing of the family is accepted |
| `RefreshTokenOutcomes.LoginServed` | src/auth/refresh-token.service.ts:49-64 | the token a login hands out and the one live row it adds, column by column |
| `RefreshTokenOutcomes.RefreshServed` | src/auth/auth.controller.ts:57-85 | a refresh, case by case: an unused presentable token has its row marked and buys one row of its user and family; a used one has exactly the rows of its family revoked; in every other case nothing changes; every refusal is Unauthorized |
| `RefreshTokenOutcomes.ValidatedExactlyWhen` | src/auth/refresh-token.service.ts:121-161 | on any table: what a validation asks of the token, of its row and hash, and of the row of the family looked at, and that success marks exactly that row |
| `RefreshTokenOutcomes.LogoutServed` | src/auth/auth.service.ts:75-86 | a logout with a token that verifies deletes exactly the rows of its family; with any other it changes nothing |
| `RefreshTokenOutcomes.OthersUntouched` | src/auth/refresh-token.service.ts:90-112 | no request changes the rows of a family it is not about |
| `RefreshTokenOutcomes.FamilyStays` | src/auth/refresh-token.service.ts:90-112 | over any stretch of a run in which no call is about a family its rows stay the same |
| `RefreshTokenOutcomes.TokenStaysGood` | src/auth/refresh-token.service.ts:121-161 | a token that would be accepted is accepted at any later point without a call about its family, exactly until one of its two expiries has passed |
| `LikePatterns.PlainSearch` | src/workspace/task/task.service.ts:274-275 | for a search free of %, _ and backslash the clause keeps exactly the titles in which it occurs letter by letter, ignoring case |
| `LikePatterns.SearchMeansContainsExactlyWhenPlain` | src/workspace/task/task.service.ts:274-275 | the clause means that occurrence on all titles if and only if the search is free of the three metacharacters, which are not escaped |
| `SqlQueries.ConditionAdded` | src/workspace/task/task.service.ts:259-275 | pushing a value and appending a condition on it leaves the meaning of all conditions built before unchanged |
| `SqlQueries.SelectLists` | src/workspace/task/task.service.ts:277-293 | the answer before the window is the one listing of the matching rows in the order of the query |
| `TaskQueries.EqPushed` | src/workspace/task/task.service.ts:259-272 | pushing a value and then the condition on its placeholder turns a query that means one filter into one that means the narrower filter, for every possible row |
| `TaskQueries.BuildTaskQuery` | src/workspace/task/task.service.ts:233-281 | after every push the conditions and the parameter array mean the filter given so far; the finished query means project, workspace, optional filters and search, sorts by the column of the sort key, and skips twenty rows for every page before the one asked for |
| `TaskQueries.SearchCondMeans` | src/workspace/task/task.service.ts:274-275 | the search condition over its placeholder is true exactly where the search keeps the column, NULL logic included |
| `TaskQueries.QueryListsWanted` | src/workspace/task/task.service.ts:248-293 | a query that means a filter, run over the joined tables, lists exactly the tasks wanted, each once, in the order asked for |
| `TaskQueries.TaskListAnswer` | src/workspace/task/task.service.ts:277-280 | the answer is the given page of the listing, or an error for a page below 1 |
| `TaskQueries.WantedListingUnique` | src/workspace/task/task.service.ts:235-243 | filter and order determine the listing |
| `TaskQueries.PrioritySortIsAlphabetical` | schema.sql:98 | the priority sort goes by text: high, low, medium, urgent |
| `TenantServices.TaskService.GetTask` | src/workspace/task/task.service.ts:211-294 | returns for each row of the page its eight columns as the table has them; the rows are those of the listing that the filters and the order determine; a page below 1 is an error |
| `ListQueries.ProjectListAnswer` | src/workspace/project/project.service.ts:101-128 | the fixed project query answers with the given page of exactly the projects of the workspace that the search keeps, newest first by default |
| `ListQueries.WorkspaceListAnswer` | src/workspace/workspace.service.ts:106-135 | the fixed workspace query answers with the given page of exactly the workspaces the user is a member of that the search keeps |
| `ListQueries.ProjectListingUnique` | src/workspace/project/project.service.ts:103-108 | search and order determine the project listing, so all pages are cut from one |
| `ListQueries.MembershipListingUnique` | src/workspace/workspace.service.ts:108-113 | search and order determine the workspace listing, so all pages are cut from one |
| `TenantServices.ProjectService.GetProject` | src/workspace/project/project.service.ts:88-131 | the page of that listing; a sort key other than createdAt and updatedAt makes the query fail |
| `WorkspaceServices.WorkspaceService.GetWorkspaces` | src/workspace/workspace.service.ts:92-138 | the page of that listing; a sort key other than createdAt and updatedAt makes the query fail |
| `WorkspaceServices.WorkspaceService.UpdateWorkspace` | src/workspace/workspace.service.ts:59-74 | renames that workspace only, or reports that it does not exist |
| `Listings.ListingUnique` | src/workspace/task/task.service.ts:277-280 | under a fixed total order there is only one listing of a set of rows |
| `Listings.PagesPartition` | src/workspace/task/task.service.ts:233-233 | the pages one after the other are the whole listing, all but the last have twenty rows, later pages are empty |
| `Listings.OnExactlyOnePage` | src/workspace/task/task.service.ts:277-280 | each row stands at exactly one place of exactly one page |
| `TaskQueries.ListingSpelled` | src/workspace/task/task.service.ts:233-293 | the listing has exactly the tasks of that project and workspace that every filter given keeps, each once, by the column asked for, descending unless asc is |
| `ListQueries.ProjectListingSpelled` | src/workspace/project/project.service.ts:101-128 | the listing has exactly the projects of that workspace that the search finds, each once, by the instant asked for |
| `ListQueries.MembershipListingSpelled` | src/workspace/workspace.service.ts:106-135 | the listing has exactly the workspaces of that user that the search finds, each once, by the instant asked for |
| `Listings.PageRows` | src/workspace/task/task.service.ts:233-233 | row i of page p is row 20(p - 1) + i of the listing, and a page holds all there are up to twenty |
| `TaskUpdates.BuildSets` | src/workspace/task/task.service.ts:128-163 | fields and values grow in step; the SET list has on every row the effect of the patch, and is empty only for the empty patch |
| `TaskUpdates.UpdatePatchesOneRow` | src/workspace/task/task.service.ts:165-182 | the UPDATE with the id pushed last patches that row and no other, and fails on a null in a NOT NULL column or an unknown assignee |
| `TaskUpdates.UpdatesCompose` | src/workspace/task/task.service.ts:128-187 | two successful updates are together one update by the right-biased merge of their patches |
| `TaskUpdates.PatchesCompose` | src/workspace/task/task.service.ts:128-163 | patching composes by merging on every row; merging is associative with the empty patch as unit |
| `TenantServices.TaskService.UpdateTask` | src/workspace/task/task.service.ts:88-188 | lookup, role, builder and UPDATE together, with any query failing: success exactly when the task is there, the caller is no plain member and the patch is writable, and then exactly the given fields of that row are overwritten and answered |
| `TaskUpdates.UpdateTaskIsPatch` | src/workspace/task/task.service.ts:128-187 | the specification read field by field: fields given overwrite, explicit null included, fields left out keep their value, timestamps and project stay, no other row changes; a member never changes anything |
| `TaskUpdates.RuleKeptExceptForAssignees` | src/workspace/task/task.service.ts:102-126 | the specification beside the documented rule that members may update the tasks assigned to them: they agree if and only if the caller is not such a member |
| `Transactions.StepsInOneGo` | src/database/Transaction.service.ts:12-13 | client-issued queries succeed exactly when none fails and the work does not throw, and then have the effect of doing them in one go |
| `Transactions.AllOrNothing` | src/database/Transaction.service.ts:9-22 | a transaction of client-issued queries commits all of its effect exactly when no query fails and nothing throws, and otherwise none |
| `Transactions.TransactionService.Run` | src/database/Transaction.service.ts:9-22 | the try, catch and finally sequence; the client is returned exactly once for every lease on every path, a failing ROLLBACK included |
| `Transactions.ErrorPassedOn` | src/database/Transaction.service.ts:16-18 | an exception of the work is rethrown as it is when no query fails, the ROLLBACK included |
| `MemberServices.MemberService.AddMember` | src/workspace/member/member.service.ts:20-30 | inserts the pair, or fails without a change when it exists or the workspace does not |
| `MemberServices.MemberService.GetMemberRole` | src/workspace/member/member.service.ts:32-43 | the role of the pair, or none |
| `MemberServices.MemberService.ChangeOwner` | src/workspace/member/member.service.ts:63-93 | the transaction as a list of queries over the pool, with any of them failing, and the client returned |
| `MemberServices.MemberService.RemoveMember` | src/workspace/member/member.service.ts:95-133 | the whole decision on both roles, the hand-over of a leaving owner, and the deletion, each query able to fail |
| `MemberServices.MemberService.UpdateRole` | src/workspace/member/member.service.ts:135-155 | transfer, stepping down, or a plain role change, each query able to fail |
| `MemberServices.WorkspaceService.CreateWorkspace` | src/workspace/workspace.service.ts:23-57 | the workspace and the owner row in one transaction |
| `MemberServices.WorkspaceService.DeleteWorkspace` | src/workspace/workspace.service.ts:76-90 | the workspace goes with its members, or it is reported missing |
| `MemberServices.WorkspaceGuard.CanActivate` | src/workspace/guards/workspace.guard.ts:19-40 | lets through exactly the members holding one of the required roles, and changes nothing |
| `MemberRuns.ChangeOwnerOutcome` | src/workspace/member/member.service.ts:63-93 | cut off anywhere, changeOwner has handed over completely or changed nothing; uncut it succeeds exactly when there is a successor |
| `MemberRuns.CreateWorkspaceOutcome` | src/workspace/workspace.service.ts:26-56 | cut off anywhere, createWorkspace has committed both rows or neither |
| `MemberRuns.CreatedWithOwner` | src/workspace/workspace.service.ts:26-56 | a workspace is never left without its owner row |
| `MemberRuns.RemoveOutcome` | src/workspace/member/member.service.ts:95-133 | the only ends of a removal: no change, one row of someone else deleted, or a hand-over with or without the deletion of the leaver |
| `MemberRuns.ReachableSound` | src/workspace/member/member.service.ts:63-155 | in every run with failures anywhere, every live workspace has exactly one owner, or none after a completed transfer of an owner to themselves |
| `MemberRuns.OneOwnerUnlessSelfTransfer` | src/workspace/member/member.service.ts:83-91 | exactly one owner if and only if no owner has completed a transfer to themselves; never two |
| `MemberRuns.HandedAwayIsHistory` | src/workspace/member/member.service.ts:135-142 | the record of self-transfers is exactly the answered self-transfers of the run |
| `MemberRuns.SelfTransferOrphans` | src/workspace/member/member.service.ts:83-91 | the transfer to oneself succeeds and leaves the workspace without an owner: the second UPDATE undoes the first |
| `MemberRuns.OwnerLeaves` | src/workspace/member/member.service.ts:125-132 | an owner leaves exactly when there is an admin; a former admin is then sole owner, the leaver is gone, every other row is unchanged, and there is one row less; otherwise nothing changes |
| `MemberOutcomes.GuardLetsThrough` | src/workspace/guards/workspace.guard.ts:19-40 | the guard admits exactly the members who hold one of the required roles, and answers Forbidden otherwise |
| `MemberOutcomes.RoleChangeServed` | src/workspace/member/member.service.ts:146-154 | only the owner changes a role; the row then holds the role asked for and no other row is touched; it succeeds exactly when the member exists |
| `MemberOutcomes.TransferServed` | src/workspace/member/member.service.ts:63-93 | a transfer writes owner to the target and then admin to the acting owner, or changes nothing, whatever fails |
| `MemberOutcomes.SteppingDownServed` | src/workspace/member/member.service.ts:143-144 | an owner who asks for another role makes some admin the owner and becomes admin; it succeeds exactly when there is an admin |
| `MemberOutcomes.RemovalServed` | src/workspace/member/member.service.ts:95-133 | who may remove whom, and that exactly the row of the member goes; otherwise nothing changes and the error says why |
| `MemberOutcomes.LeavingServed` | src/workspace/member/member.service.ts:125-132 | an owner leaving, cut off anywhere: gone with an admin in place, or still there as owner or admin |
| `MemberOutcomes.RemovedIsGone` | src/workspace/member/member.service.ts:129-132 | whatever fails, a removal answered with success has removed the row |
| `MemberOutcomes.JoinServed` | src/workspace/member/member.service.ts:20-30 | the insert of a plain member, for a user who had no row, in a workspace that exists |
| `MemberOutcomes.DeletionServed` | src/workspace/workspace.service.ts:76-90 | only the owner deletes a workspace, and exactly its members go with it |
| `MemberOutcomes.CreationServed` | src/workspace/workspace.service.ts:23-57 | a new workspace under the next number with its creator as owner, or nothing; without failures it always succeeds |
| `InvitationServices.InvitationService.ExistInvitation` | src/invitations/invitation.service.ts:82-91 | whether any row of any workspace and status has the email |
| `InvitationServices.InvitationService.StoreInvitation` | src/invitations/invitation.service.ts:93-104 | inserts a pending row, subject to the two unique constraints and the foreign key |
| `InvitationServices.InvitationService.GenerateInvitation` | src/invitations/invitation.service.ts:106-149 | the order of check, insert, context query and mail queue, each able to fail |
| `InvitationServices.InvitationService.VerifyToken` | src/invitations/invitation.service.ts:151-234 | the row the token settles with its workspace and email, or the error, in the order of the checks |
| `InvitationServices.InvitationService.AcceptInvitation` | src/invitations/invitation.service.ts:236-251 | the membership insert through the pool and the status through the client of the transaction |
| `InvitationServices.InvitationService.DeclineInvitation` | src/invitations/invitation.service.ts:253-260 | the row of the token is declined |
| `InvitationRuns.AcceptOutcome` | src/invitations/invitation.service.ts:243-250 | an acceptance ends in nothing, in the membership alone, or in membership and accepted row, and the last exactly when no query fails |
| `InvitationRuns.OnePending` | src/invitations/invitation.service.ts:168-173 | there is only one candidate row, so ORDER BY and LIMIT decide nothing |
| `InvitationRuns.OwnRow` | src/invitations/invitation.service.ts:185-234 | the row a token settles is pending and was made with that very token, whatever bcrypt accepts |
| `InvitationRuns.OneInvitationPerPair` | src/invitations/invitation.service.ts:82-127 | a pair of email and workspace has at most one invitation row in the whole history |
| `InvitationRuns.SettledByOwnToken` | src/invitations/invitation.service.ts:236-260 | status moves only from pending, to accepted or declined, and only by the token the row was made with |
| `InvitationRuns.SettledOnce` | src/invitations/invitation.service.ts:236-260 | a token settles at most once over every run |
| `InvitationRuns.AcceptedOnlyAfterJoining` | src/invitations/invitation.service.ts:244-249 | for every accepted invitation of every reachable state there is an earlier acceptance, made with the token of that very row, that found it pending and committed the membership of the user who presented it |
| `InvitationRuns.FailedAcceptLeavesPending` | src/invitations/invitation.service.ts:243-250 | an acceptance that fails leaves the invitations as they were; a failed insert leaves everything as it was |
| `InvitationRuns.AcceptsExactlyWhen` | src/invitations/invitation.service.ts:185-251 | acceptance succeeds if and only if the token verifies, its row is pending and unexpired, the user is no member yet, and no query fails |
| `InvitationOutcomes.InvitationServed` | src/invitations/invitation.service.ts:106-149 | an owner or admin invites an email without any invitation; the pending row with both its instants is there once the insert has passed, success needs the context and the queue as well, and in every other case nothing changes |
| `InvitationOutcomes.AcceptanceServed` | src/invitations/invitation.service.ts:236-251 | a successful acceptance adds the plain membership of its user and sets the status of the row of its token, and nothing else |
| `InvitationOutcomes.AcceptCutOff` | src/invitations/invitation.service.ts:243-250 | which query fails decides what is committed: nothing, the membership alone, or both |
| `InvitationOutcomes.MembershipAloneExactlyWhen` | src/invitations/invitation.service.ts:244-244 | the membership is committed without the status exactly when its insert passed and only the status update or the COMMIT fails |
| `InvitationOutcomes.TokenRefused` | src/invitations/invitation.service.ts:185-234 | on any tables: which error a token gets that is not genuine, expired, nameless or without a pending row, and what a verified one must satisfy, its hash included |
| `InvitationOutcomes.DeclineServed` | src/invitations/invitation.service.ts:253-260 | a successful decline sets the status of the row of its token and nothing else; a failed one changes nothing |
| `InvitationOutcomes.InvitationIsAccepted` | src/invitations/invitation.service.ts:111-127 | while its row is pending, the token of an invitation is accepted for a user who is no member, with no query failing, exactly until one of the two instants given to the invitation has passed |
| `StorageKeys.ParseInvertsPrint` | src/storage/storage.service.ts:47-47 | every key is read back from its print, for all ids and any file id |
| `StorageKeys.PrintInvertsParse` | src/storage/storage.service.ts:82-82 | whatever is read as a key is the print of that key |
| `StorageKeys.PrintIsInjective` | src/storage/storage.service.ts:134-134 | two keys print alike only if they agree in all four parts |
| `StorageKeys.DecimalReads` | src/storage/storage.service.ts:47-47 | the decimal of an id has no leading zeros and reads back as that id |
| `StorageKeys.PathKeysFaithful` | src/storage/storage.service.ts:47-47 | the template is a faithful codec, which is all the tenant tree relies on |
| `TenantServices.ProjectService.CreateProject` | src/workspace/project/project.service.ts:19-37 | inserts a project, or fails when the workspace does not exist |
| `TenantServices.ProjectService.UpdateProject` | src/workspace/project/project.service.ts:39-68 | ownership lookup, then the UPDATE by id |
| `TenantServices.ProjectService.DeleteProject` | src/workspace/project/project.service.ts:70-86 | ownership lookup, then the DELETE by id with its cascade |
| `TenantServices.TaskService.CreateTask` | src/workspace/task/task.service.ts:33-86 | ownership lookup of the project, then the insert |
| `TenantServices.TaskService.DeleteTask` | src/workspace/task/task.service.ts:190-209 | lookup by workspace alone, then the DELETE by id with its cascade |
| `TenantServices.StorageService.CreateUploadUrl` | src/storage/storage.service.ts:27-60 | signs the key of the path and a fresh file id, for a task that is there |
| `TenantServices.StorageService.ConfirmUpload` | src/storage/storage.service.ts:62-126 | lookup, HEAD, insert unless the key is there, id of the row that is there |
| `TenantServices.StorageService.GetFile` | src/storage/storage.service.ts:128-162 | signs the key found by the joined lookup |
| `TenantOutcomes.ProjectCreated` | src/workspace/project/project.service.ts:19-37 | owners and admins add a project under the next number with that name |
| `TenantOutcomes.ProjectRenamed` | src/workspace/project/project.service.ts:39-68 | owners and admins write name and instant to that project of that workspace, which is the answer |
| `TenantOutcomes.ProjectDeleted` | src/workspace/project/project.service.ts:70-86 | owners and admins delete that project of that workspace with exactly its tasks and their files |
| `TenantOutcomes.TaskCreated` | src/workspace/task/task.service.ts:33-86 | every member adds a task with exactly the fields of the body to a project of that workspace; the assignee must exist |
| `TenantOutcomes.TaskUpdated` | src/workspace/task/task.service.ts:88-188 | owners and admins overwrite exactly the given fields of exactly that task, and the answer is the row now in the table; in every other case the error says why and nothing changes |
| `TenantOutcomes.TaskUpdatedInRun` | src/workspace/task/task.service.ts:165-187 | the same of the reply and the next tree of any run |
| `TenantOutcomes.TaskDeleted` | src/workspace/task/task.service.ts:190-209 | owners and admins delete a task of that workspace with exactly its files |
| `TenantOutcomes.UploadSigned` | src/storage/storage.service.ts:27-60 | owners and admins get the key of the path and a fresh file id for a task that is there |
| `TenantOutcomes.UploadConfirmed` | src/storage/storage.service.ts:90-114 | the first confirmation writes one row with the name given and the size and content type that the store says |
| `TenantOutcomes.UploadConfirmedBefore` | src/storage/storage.service.ts:116-125 | a later confirmation changes nothing and answers the id of the row that is there |
| `TenantOutcomes.FileSigned` | src/storage/storage.service.ts:128-162 | every member gets the key signed when a file with the key of that path hangs under that task, and not found otherwise |
| `TenantOutcomes.NotUploaded` | src/storage/storage.service.ts:85-99 | an object that is missing, or lacks its length or content type, is refused and nothing changes |
| `TenantRuns.TaskCascadeExact` | schema.sql:141-141 | deleting a task takes exactly its files with it |
| `TenantRuns.ProjectCascadeExact` | schema.sql:94-94 | deleting a project takes exactly its tasks and their files with it |
| `TenantRuns.ReachableSound` | schema.sql:78-149 | in every state of every run rows hang under rows, storage keys are unique, and every key names the true path |
| `TenantRuns.KeyPrintsThePath` | src/storage/storage.service.ts:82-82 | the key of a file row is the print of the workspace, project and task it actually hangs under, through all creates, updates and cascades |
| `TenantRuns.KeySpellsThePath` | src/storage/storage.service.ts:82-82 | the same with the template itself: the stored key is workspaces/W/projects/P/tasks/T/files/F of that path |
| `TenantRuns.DownloadSpellsThePath` | src/storage/storage.service.ts:134-158 | the key signed for a download is the template of the path asked for |
| `TenantRuns.PresentExactlyWhenLive` | src/storage/storage.service.ts:101-126 | a row with the key exists exactly while some confirmation of it succeeded and nothing above it was deleted since |
| `TenantRuns.FoundExactlyWhenLive` | src/storage/storage.service.ts:128-162 | getFile answers if and only if the caller is a member, no query fails, an earlier confirmUpload of the same path succeeded, and nothing above it was deleted since |
| `TenantRuns.ConfirmedAgain` | src/storage/storage.service.ts:112-125 | a repeated confirmation returns the same id, leaves the first row as it was and adds no second |
| `TenantLinks.EveryCallSequenceRuns` | schema.sql:78-149 | every sequence of calls has exactly one run, so the statements about runs are about all of them |
| `TenantLinks.LinksNeverRewritten` | schema.sql:78-149 | between any two points of a run foreign keys and storage keys are unchanged and no number is given out twice |
| `TenantLinks.DeletionIsFinal` | src/storage/storage.service.ts:62-126 | after a task, its project or its workspace was deleted no upload or download under that path ever succeeds |
| `TenantLinks.RefusedLeaveNoTrace` | src/workspace/project/project.service.ts:49-51 | requests of the tree that are refused, for whatever reason, leave no trace: the run of the other calls gets the same replies and ends in the same tree |
| `TenantLinks.UploadThenDownload` | src/storage/storage.service.ts:27-162 | the key signed for the upload, looked up in the store, kept in the row and signed for the download is one and the same |
| `TenantIsolation.OthersUntouched` | src/workspace/task/task.service.ts:177-203 | a request scoped to one workspace leaves members, invitations, projects, tasks and files of every other as they were |
| `TenantIsolation.IsolationAlong` | src/workspace/project/project.service.ts:44-80 | over any stretch of a run in which no request is about a workspace, its whole share of the tables stays the same |
| `TenantPeople.DeskIsARun` | src/invitations/invitation.service.ts:106-260 | members and invitations of the whole system go through a run of the invitation machine |
| `TenantPeople.DirectoryIsARun` | src/workspace/member/member.service.ts:20-155 | the members table of the whole system goes through a run of the membership machine |
| `TenantPeople.OneInvitationPerPair` | src/invitations/invitation.service.ts:82-91 | at any time of any run of the whole system a pair has at most one invitation |
| `TenantPeople.OneOwnerUnlessSelfTransfer` | src/workspace/member/member.service.ts:83-91 | in every state of every run of the whole system, failures included, a workspace has exactly one owner if and only if no owner of it completed a transfer to themselves |

## Left out

- RefreshTokenServices.RefreshTokenService.ValidateRefreshToken: its queries do not fail and nothing runs in between; requests that stop at any query are in `RefreshTokenSerial`, and among others in flight in `RefreshTokenRaces`.
- RefreshTokenServices.RefreshTokenService.CreateRefreshToken: likewise; a row left without a hash by a lost request is in `RefreshTokenRaces` only.
- RefreshTokenServices.AuthController.Refresh: the access token and the cookie are not modelled, only the refresh token handed out.
- RefreshTokenServices.AuthService.CreateTokens: the access token is not modelled.
- MemberServices.MemberService.AddMember: the call through the pool; the call with the client of a transaction is the step `Members.InsertOwner`.
- MemberServices.MemberService.GetMemberRole: the call through the pool; the call with the client of a transaction is the step `Members.RequireMember`.
- MemberServices.WorkspaceService.CreateWorkspace: the directory keeps the id of the workspace; its name and timestamps are left out.
- The chain shape of families and the single live token of a family are proved for serialised requests only.
- TenantServices.StorageService.ConfirmUpload: the object store is a map given for the call; any failure of the HEAD request counts as a missing object, as in the code.
- JWT signing, bcrypt, UUID generation, S3 and its signed URLs: parameters. UUIDs of token families are assumed not to repeat; bcrypt may accept anything besides a value's own hash.
- `expiresIn` of the token and invitation services: the two expiry instants are inputs, so calendar arithmetic is not modelled. A continuation is free to choose the expiry of the rows it inserts.
- The users table, login and registration checks, and foreign keys on user ids, except for assignees of tasks and creators of file rows.
- HTTP plumbing, validation of request bodies, decorators, cookies, the email queue and the realtime events: no state of the tables.
- Ids are unbounded and serial counters have no gaps: overflow of the 32-bit columns, and numbers lost to failed inserts, are not modelled.
- Case folding is that of the ASCII letters, and text sorts by code point: collations and Unicode folding are not modelled.
- Ties in a sort column are broken by a fixed but arbitrary ranking of the rows; page stability between concurrent writes is not claimed.
- The row an unordered query finds first is a constant of the service objects; the runs take it anew for every call.
- Outcome of a COMMIT whose reply is lost: a failing COMMIT is taken to have committed nothing.
- Interleaving of single queries is modelled for refresh tokens only; members, invitations and the tenant tree are served one request at a time, each cut off anywhere.
- `updated_at` of tasks: the trigger function in schema.sql is attached to no table, so it never moves and no claim is made beyond that; `updated_at` of members and invitations is not modelled.
- The texts of error messages. The conflict message of `generateInvitation` speaks of a pending invitation in this workspace, but the check is by email alone, in any workspace and any status; the model follows the check.
- An invitation token signed for a request that is then refused is not disclosed to anyone, and so is not among the issued tokens.
- A role asked for when an owner changes their own role is ignored by `updateRole`: the owner always becomes admin. The model follows the code.
- The tenant tree keeps the ids of workspaces, not their names; renaming and listing workspaces are modelled on their own tables in `WorkspaceServices`.
- DELETE and UPDATE inside a class replace a map held by the pool object; locks and row versions below that are not modelled.
