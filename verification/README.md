# Tenancy manager and Keycloak tenant controller: a verified model

The tenancy manager keeps orgs, folders, projects, controller status rows and an event log in a database.
Every create and every soft delete commits its row and its event in one transaction. Controllers learn of
changes by polling the log with a cursor; one that restarts is first fed a replay synthesized from the
tables. The Keycloak tenant controller turns each event into roles and groups whose names are made from
templates. This project models these parts and proves what they promise together:

* **Store.** `Tenancy.dfy`, `EventLog.dfy`, `Worlds.dfy` and `Transactions.dfy` say what each transaction
  commits, over the tables and two history variables: the log that clean-up never truncates, and the UUIDs
  ever handed out. `Store.dfy` has the operations as they run, a class whose methods work statement by
  statement on a copy of the tables, where any statement may fail and only a commit publishes the copy.
  `Status.dfy` and `Cleanup.dfy` have the derived status and hard deletion.
* **Everybody around it.** `Cleaners.dfy` takes hard deletion apart into its statements, `Controllers.dfy` a
  session of a controller into its reads, fetches and deliveries, and `Fleet.dfy` lets all of it interleave
  with requests. `Runs.dfy`, `CatchUp.dfy`, `Sessions.dfy`, `Replay.dfy` and `Payloads.dfy` state what holds
  of every run; `Operations.dfy` that the operations of the class are its actions; `Witnesses.dfy` has concrete
  runs.
* **Keycloak.** `Templates.dfy` and `Names.dfy` are about substitution, `Keycloak.dfy` and `Handler.dfy` about
  the client against a Keycloak that may fail, drop creations it has answered, or have done what it reports
  as failed. `EndToEnd.dfy`, `RealmRuns.dfy` and `Leftovers.dfy` join them to the store: the realm follows the
  tables, and exactly so for which templates.
* **Smaller protocols.** `CompareAndSet.dfy` and `Hierarchy.dfy` are concurrent creations and deletions at the
  level of statements, `Upsert.dfy` concurrent status upserts; `Bootstrap.dfy` and `Password.dfy` the creation of
  the tenant admin; `Roles.dfy` and `Scope.dfy` role strings, authorization and the org scope of a request.

`dafny verify dfyconfig.toml` checks the whole project.

## What is assumed

* Transactions commit atomically, and event ids and commit times do not decrease in commit order. The store
  opens its transactions without an isolation level, so this is an assumption about the database. Modules
  CompareAndSet and Hierarchies do without it for deletions and for creations of projects, from their first query
  to their commit. The hierarchy then fails (`ProjectsSlipIn`). It holds throughout a run if and only if no project is
  inserted under an org that is no longer active and no deletion of an org commits without having found every
  project active under it (`HierarchyExactly`). What callers can see to is enough (`QuietRunsKeepHierarchy`): no
  creation looks up an org while a deletion of it is under way, and no deletion of an org begins while a
  creation that has found it is pending.
* UUIDs are fresh, have the canonical text form (section 4 of RFC 9562) and are never reused.
* The unique indexes and foreign keys of the schema hold: org names are unique, deleted orgs included, a
  project name is unique in its folder, a folder name in its org, a status row for its controller, type and id.
* Failures are nondeterministic. A database, Keycloak or cluster flagged `reliable` has none, and the contracts
  say that operations then succeed exactly when their specification does.
* A statement or remote call outside a transaction that reports an error has either had its effect or not,
  and has not a late effect afterwards; a status statement that reports an error has had none.
* Templates: whatever ids are substituted, a name contains those and no other (`Clean`), and a project template
  that names the org names the project too. `TidyIsClean` gives a condition that can be seen: brackets only for
  placeholders, no digit next to one, nothing after one that could be the rest of an id, no id in the text. That
  a template contains its own placeholder is not needed: it decides whether names are left behind.

## Where code and documentation differ

* `SynthesizeReplayEvents` promises one snapshot (store.go:548-550), but its transaction is opened without an
  isolation level, and a replay can be the picture of no state at all (`ReplayIsTorn`). Convergence is
  therefore proved for reads that others' commits may fall between, and needs only that the largest event id is
  read first.
* api.go:684-688 says that the store takes an empty scope for "all orgs"; the store refuses it
  (store.go:330-332 and the same guard elsewhere). The handlers' own guard is redundant (`ScopeFollowsRoles`).
* `checkRolesAndGroupsCreated` was added for creations that Keycloak answers and drops (client.go:290-292).
  With lists that tell the truth such a drop already fails in `addRolesToGroup`, without a retry; a further
  round starts only after a list request has failed, as the contract of `CreateRolesAndGroups` says.
* Deletion by id removes only what mentions the id (client.go:243-288). What templates give without the
  placeholder of their own kind is left behind when the last of the kind is deleted, unless the realm had it
  before (`ExactlyIfProvided`). The shipped templates for projects have such names
  (charts/keycloak-tenant-controller/values.yaml:112-123).
* `ensureUserAndPassword` is meant to be safe across restarts. One runner is exactly if the Secret, where it
  exists, has its key and holds the user's password (`SafeAloneExactly`); several at once are exactly if all is
  there already (`SafeTogetherExactly`); and what can be repaired at all is exactly what is `Reconcilable`.

## Model

| member | source | states |
|---|---|---|
| EventLog.WellFormedIsClosed | tenancy-manager/internal/store/store.go:185-245 | a log in which every event is admissible leaves no live project without its live org, and no id on two resources |
| EventLog.EventsAreUnique | tenancy-manager/internal/store/store.go:197-235 | no resource is created twice and none is deleted twice |
| EventLog.FoldIsHistory | tenancy-manager/internal/store/store.go:73-109 | folding the log: born exactly with a created event, dead exactly with a deleted event |
| EventLog.EventsNest | tenancy-manager/internal/store/store.go:185-245 | both events of a project lie strictly between its org's created and deleted events, the deletion after the creation |
| EventLog.HasIsOnce | tenancy-manager/internal/store/store.go:197-235 | a change that is in the log is there once |
| Worlds.AddOrgKeepsInv | tenancy-manager/internal/store/store.go:73-109 | creating an org with its default folder and event keeps the invariant of tables and log |
| Worlds.AddProjectKeepsInv | tenancy-manager/internal/store/store.go:261-307 | creating a project under an active org keeps it |
| Worlds.DropOrgKeepsInv | tenancy-manager/internal/store/store.go:172-248 | deleting an org with its listed active projects keeps it, and changes exactly the listed projects, only to deleted |
| Worlds.DropProjectsLogs | tenancy-manager/internal/store/store.go:197-222 | the cascade logs one deletion for each listed project, in that order, with consecutive ids and the org and folder of its row |
| Worlds.RecentIsSuffix | tenancy-manager/internal/store/store.go:841-846 | with commit times in order, clean-up removes exactly the events older than the cut-off, and they are a prefix |
| Worlds.TruncateKeepsInv | tenancy-manager/internal/store/store.go:841-846 | truncation keeps the invariant and never brings events back |
| Worlds.EraseFoldersKeepsInv | tenancy-manager/internal/store/store.go:891-894 | removing the folders of a dead org without project rows keeps the invariant and leaves it no folder |
| Worlds.EraseOrgKeepsInv | tenancy-manager/internal/store/store.go:895-899 | removing a dead org without folders keeps the invariant |
| Transactions.FindOrg | tenancy-manager/internal/store/store.go:132-136 | the active org of a name, or nothing when there is none |
| Transactions.FindProject | tenancy-manager/internal/store/store.go:329-358 | the only active project of a name in scope; not found and ambiguous are told apart |
| Transactions.CreateOrgKeepsInv | tenancy-manager/internal/store/store.go:73-109 | what a successful CreateOrg commits keeps the invariant |
| Transactions.CreateProjectKeepsInv | tenancy-manager/internal/store/store.go:261-307 | what a successful CreateProject commits keeps the invariant |
| Transactions.DeleteOrgKeepsInv | tenancy-manager/internal/store/store.go:172-248 | what a successful DeleteOrg commits keeps the invariant |
| Transactions.DeleteProjectKeepsInv | tenancy-manager/internal/store/store.go:426-488 | what a successful DeleteProject commits keeps the invariant |
| Transactions.UpdatesKeepInv | tenancy-manager/internal/store/store.go:383-419 | what successful updates of orgs and projects commit keeps the invariant |
| Transactions.UnscopedIsScopedToAllOrgs | tenancy-manager/internal/store/store.go:329-358 | a query without a scope finds what one scoped to the names of all active orgs finds; the explicit empty scope finds nothing |
| Transactions.Hierarchy | tenancy-manager/internal/store/store.go:261-307 | every project's folder and its org exist, no active project lies under a deleted org, every active org has exactly one folder and it is the default one |
| Transactions.LogRefinesTables | tenancy-manager/internal/store/store.go:73-109 | folding the log gives exactly the active rows; a deleted event exists exactly for what was created and is not active |
| Stores.Store.CreateOrg | tenancy-manager/internal/store/store.go:73-109 | success commits org, folder and event in full; an error leaves tables and log untouched; without a database failure it succeeds exactly for a name of 1 to 253 characters that no org has, and the error says which it is |
| Stores.Store.CreateProject | tenancy-manager/internal/store/store.go:261-307 | success commits one new active row under the default folder of the active org of the name, and its event; an error changes nothing and is told: no such org, a bad name, or one taken in the org |
| Stores.Store.UpdateOrg | tenancy-manager/internal/store/store.go:148-168 | success changes the description of the active org of the name and nothing else, and returns it; an error changes nothing |
| Stores.Store.DeleteOrg | tenancy-manager/internal/store/store.go:172-248 | success soft-deletes the org and its active projects and changes nothing else in their rows or in others, through guarded updates and their loop; an error changes nothing |
| Stores.Store.QueryProject | tenancy-manager/internal/store/store.go:329-358 | guard for the empty scope and filter for the others find what the specification finds, unless the query fails |
| Stores.Store.DeleteProject | tenancy-manager/internal/store/store.go:426-488 | success soft-deletes the one project in scope, otherwise unchanged, with its event; an error changes nothing |
| Stores.Store.UpdateProject | tenancy-manager/internal/store/store.go:383-419 | success changes the description of the one project in scope and nothing else, and returns it; an error changes nothing |
| Stores.Store.CleanupOldEvents | tenancy-manager/internal/store/store.go:841-846 | removes the old events from the table and nothing else, and counts them; a failure removes nothing |
| Stores.Store.UpsertControllerStatus | tenancy-manager/internal/store/store.go:678-726 | undisturbed, a call that succeeds has put its row and one that fails nothing |
| Stores.Store.DeleteControllerStatus | tenancy-manager/internal/store/store.go:729-738 | removes the row of the key and no other |
| Stores.Store.HasNoRegisteredStatuses | tenancy-manager/internal/store/store.go:907-919 | true only when no registered controller has a row for the resource, and exactly then unless the query fails |
| Stores.Store.CleanOrphanedStatuses | tenancy-manager/internal/store/store.go:923-934 | removes exactly the resource's rows of unregistered controllers, and nothing when none is registered or the statement fails |
| Stores.Store.CleanupHardDelete | tenancy-manager/internal/store/store.go:850-904 | a pass, whatever statements of it fail, keeps the invariant and removes no active row; without failures it leaves exactly the tables that Cleanup specifies |
| Statuses.DeriveStatusFromRows | tenancy-manager/internal/store/store.go:762-836 | active: in error exactly if a registered controller reports a failure, idle exactly if every one has reported completion, otherwise in progress; deleted: gone exactly if none has a report, in error exactly if one reports a failure, otherwise in progress; the message explains it |
| Statuses.OnlyRegisteredRowsMatter | tenancy-manager/internal/store/store.go:762-836 | order of rows, order and repetition of registered controllers and rows of others never change the indicator |
| Statuses.MessageNamesTheUnfinished | tenancy-manager/internal/store/store.go:808-834 | the in-progress message of an active resource names exactly the missing and the running controllers, in registered order |
| Statuses.MessageNamesTheRemaining | tenancy-manager/internal/store/store.go:776-806 | the in-progress message of a deleted resource names exactly the registered controllers that still have a row, none of which has failed |
| Cleanup.UnreportedIsGone | tenancy-manager/internal/store/store.go:907-919 | hard deletion's test holds exactly when the derived status of the deleted resource is DELETED |
| Cleanup.SweepAgreesWithStatus | tenancy-manager/internal/store/store.go:850-904 | a pass removes exactly the deleted projects whose status is DELETED, the deleted orgs that are DELETED and have no project row left, and the folders of these orgs |
| Cleanup.SweepLeavesNoStatus | tenancy-manager/internal/store/store.go:923-934 | a status row of a removed resource survives only where no controller is registered for its kind |
| Cleanup.SweepKeepsOtherStatuses | tenancy-manager/internal/store/store.go:923-934 | no other status row is touched |
| Cleanup.SweepIsIdempotent | tenancy-manager/internal/store/store.go:850-904 | a second pass removes nothing |
| Cleanup.SweepKeepsInv | tenancy-manager/internal/store/store.go:850-904 | a pass keeps the invariant of the store |
| Cleaners.CleanerIsStable | tenancy-manager/internal/store/store.go:850-904 | what a pass in progress knows stays true whatever others commit |
| Cleaners.StepKeepsWorld | tenancy-manager/internal/store/store.go:850-904 | every single statement of a pass, executed or failing, keeps the invariant |
| Cleaners.OnlyDeadRowsGo | tenancy-manager/internal/store/store.go:850-904 | a statement removes a row only of what is soft-deleted, and an org only when no project row belongs to it |
| Cleaners.OnlyFreeFoldersGo | tenancy-manager/internal/store/store.go:891-894 | a folder goes only when no project row refers to it and its org is soft-deleted |
| Cleaners.ForeignKeysNeverBlock | tenancy-manager/internal/store/store.go:880-899 | the foreign keys never refuse the deletion of folders, nor of an org whose folders were deleted |
| Cleaners.UndisturbedPassIsSweep | tenancy-manager/internal/store/store.go:850-904 | a pass taken statement by statement, with no failure and nobody else at work, comes to its end and has removed exactly what a pass should, whatever the order of its listings |
| Paging.GetEventsAfter | tenancy-manager/internal/store/store.go:525-531 | the next rows beyond the cursor, in ascending order, up to the limit |
| Paging.PollEvents | tenancy-manager/internal/api/api.go:529-575 | an invalid query is refused; a valid one gets the next page and the cursor to continue from |
| Paging.PollingIsExact | tenancy-manager/internal/api/api.go:529-575 | polling a fixed table with any limits delivers the events beyond the cursor once each, in order, up to the sum of the limits |
| Paging.EnoughPolls | tenancy-manager/internal/api/api.go:529-575 | with limits from 1 to 1000, as many polls as there are events deliver all of them and nothing else |
| Replays.SynthesizeReplayEvents | tenancy-manager/internal/store/store.go:551-660 | in one snapshot: the largest event id and the events for active orgs, active projects, deleted projects and deleted orgs |
| Replays.GetEvents | tenancy-manager/internal/api/api.go:491-575 | the replay list with the cursor the log continues from, or a page; missing and invalid parameters are refused |
| Replays.SnapshotNamesEveryRowOnce | tenancy-manager/internal/store/store.go:571-659 | a replay read in one snapshot names every org and project row exactly once, as created if and only if it is active |
| Replays.SnapshotOrdersParents | tenancy-manager/internal/store/store.go:571-659 | project events name the project's org; parents come first among creations and last among deletions |
| Witnesses.ReplayIsTorn | tenancy-manager/internal/store/store.go:548-604 | for every registry there is a run whose replay is the snapshot of no state of the store, of that run or any other |
| Replays.UndisturbedReadsAreASnapshot | tenancy-manager/internal/store/store.go:551-660 | the separate reads of a session amount to that snapshot when nothing happens between them |
| Controllers.ReadKeepsInv | tenancy-manager/internal/store/store.go:551-660 | each read of a replay, whatever was committed since the one before, keeps what convergence rests on |
| Controllers.FetchKeepsInv | tenancy-manager/internal/api/api.go:529-575 | so does fetching a page |
| Controllers.DeliverKeepsInv | keycloak-tenant-controller/README.md:74-76 | so does handling an event and moving the cursor |
| Controllers.AttemptKeepsInv | keycloak-tenant-controller/README.md:68-76 | so does an attempt that fails and will be retried |
| Controllers.ControllerIsStable | tenancy-manager/internal/store/store.go:551-660 | so does anything anybody else commits |
| Controllers.PageIsNext | tenancy-manager/internal/store/store.go:525-531 | unless clean-up overtook the cursor, the next page is the next stretch of the full log |
| Controllers.Converges | tenancy-manager/internal/store/store.go:551-660 | once the cursor has reached the last event, the resources regarded as existing are exactly the live ones and the orphans |
| CatchingUp.CatchesUp | keycloak-tenant-controller/README.md:13 | a polling controller left alone catches up after handling as many events as it is behind |
| Fleets.NextKeepsInv | tenancy-manager/internal/store/store.go:73-904 | every action of requests, hard-deletion passes and the controller keeps the common invariant |
| Fleets.RunKeepsInv | tenancy-manager/internal/store/store.go:73-904 | so does every run |
| Operations.CallIsAction | tenancy-manager/internal/store/store.go:73-488 | whatever a call of an operation makes of the store, with success or with an error, is one action of the combined system |
| Operations.HousekeepingIsAction | tenancy-manager/internal/store/store.go:678-846 | so is each clean-up of events and each write or withdrawal of a status row |
| Operations.PassIsRun | tenancy-manager/internal/store/store.go:850-904 | a hard-deletion pass without failures is a run of a cleaner's statements in the combined system |
| Runs.EveryRunConverges | tenancy-manager/internal/store/store.go:551-660 | in every run, a controller that has caught up regards as existing exactly the active orgs and projects and the orphans |
| Runs.EveryRunLogsEachChangeOnce | tenancy-manager/internal/store/store.go:426-488 | in every run, the log folds to the active rows, each resource created has one created event and one deleted event exactly if it is not active |
| Runs.EveryRunKeepsHierarchy | tenancy-manager/internal/store/store.go:261-307 | in every run, the hierarchy of projects, folders and orgs holds |
| Runs.NothingInUseGoes | tenancy-manager/internal/store/store.go:850-904 | in every run, no action removes an active row or what a project row refers to, and soft deletion is final |
| Sessions.ShieldHolds | tenancy-manager/internal/store/store.go:907-919 | a registered controller's status row keeps the row of its resource through every action but its own withdrawal |
| Sessions.ShieldedSessionHasNoOrphans | tenancy-manager/internal/store/store.go:862-864 | a controller that restarts with status rows for all it holds, and withdraws none before it polls, has no orphans |
| Sessions.DisciplinedRunsHaveNoOrphans | tenancy-manager/internal/store/store.go:862-864 | so has one in every run, with any number of restarts, that observes this at each of them |
| Sessions.OrphansExactly | tenancy-manager/internal/store/store.go:611-657 | of every session, whatever happens during it: held resources without a row at the restart are orphans and orphans have no row once it polls; if no held resource loses its row meanwhile, the orphans are exactly the held resources whose row is gone at the restart |
| Sessions.RowlessIsOrphaned | tenancy-manager/internal/store/store.go:611-657 | a held resource whose row is already gone at a restart stays regarded as existing for the whole session |
| Payloads.NextKeepsTruth | tenancy-manager/internal/store/store.go:223-245 | every action keeps every event of the full log as the tables would tell it now |
| Payloads.ReplayRepeatsTheLog | tenancy-manager/internal/store/store.go:571-659 | in every run, each event of a replay is an event of the full log but for id and time: same names, org and folder |
| CompareAndSet.AtMostOneDeletion | tenancy-manager/internal/store/store.go:197-235 | however the statements of deletions interleave, each resource has at most one deleted event, and exactly one if it is no longer active |
| CompareAndSet.OnlyCommitsShow | tenancy-manager/internal/store/store.go:197-248 | in every run, each deleted row has an event written by a committed transaction together with the event of its goal, and is the goal or a project of it |
| CompareAndSet.LoserLeavesNothing | tenancy-manager/internal/store/store.go:232-235 | in every run, a transaction has events in the log exactly if it has committed, and then everything it found has exactly one; one that lost its goal or was aborted has none |
| CompareAndSet.WinnerDeletesAll | tenancy-manager/internal/store/store.go:197-248 | a commit leaves everything the transaction found with exactly one deleted event, its own or another's |
| Hierarchies.StepHierarchyExactly | tenancy-manager/internal/store/store.go:185-235 | in a state with the hierarchy a statement breaks it exactly if it inserts a project under an org no longer active, or commits the deletion of an org that has not found all projects active under it |
| Hierarchies.HierarchyExactly | tenancy-manager/internal/store/store.go:261-307 | in every interleaving of the statements of creations and deletions, no active project is ever under a deleted or missing org if and only if no statement is of these two kinds |
| Hierarchies.QuietRunsKeepHierarchy | tenancy-manager/internal/store/store.go:261-307 | so it is in every run in which no creation looks up an org while a deletion of it is under way and no deletion of an org begins while a creation that has found it is pending |
| Hierarchies.ProjectsSlipIn | tenancy-manager/internal/store/store.go:185-235 | from every state with an active org, whatever its projects, in which nobody else holds a lock: a creation that has found the org breaks the hierarchy by inserting after the deletion's query, and by inserting after its commit |
| Upserts.Linearizes | tenancy-manager/internal/store/store.go:678-726 | any interleaving of upserts and deletions refines atomic puts and removals; success puts exactly once, an error nothing |
| Upserts.OutcomeExactly | tenancy-manager/internal/store/store.go:678-726 | in every run, a call has succeeded, been refused or come so far exactly as what its first three statements met (failure, a row or none) decides |
| Upserts.RefusalHasACause | tenancy-manager/internal/store/store.go:708-724 | in every run, a refused call has had a statement fail, or its row was deleted between its creation and its second update |
| Upserts.UndisturbedCallSucceeds | tenancy-manager/internal/store/store.go:708-724 | a call none of whose statements fails and whose key nobody deletes after its start has succeeded after at most three statements, whatever the other calls do |
| Upserts.RespectsRealTime | tenancy-manager/internal/store/store.go:678-738 | the order of the puts and removals respects which calls came after which |
| Templates.ReplacementsCommute | keycloak-tenant-controller/pkg/keycloak/client.go:181-198 | for ids, replacing org then project equals project then org, and one pass |
| Templates.SubstitutionIsFaithful | keycloak-tenant-controller/pkg/keycloak/client.go:181-198 | substitution leaves no placeholder, contains each id whose placeholder the template had, and is injective in it |
| Templates.EmptyIdsDoNotCommute | keycloak-tenant-controller/pkg/keycloak/client.go:181-198 | with a stray bracket and an empty org id the order matters, on a concrete template |
| Names.BracketedCommute | keycloak-tenant-controller/pkg/keycloak/client.go:181-198 | where every opening bracket begins a placeholder the order does not matter, for ids and for their absence |
| Names.OrderIsIrrelevantExactly | keycloak-tenant-controller/pkg/keycloak/client.go:181-198 | for every template: the order does not matter for any ids or their absence if and only if removing neither placeholder brings about the other |
| Names.TidyIsClean | keycloak-tenant-controller/pkg/keycloak/client.go:181-198 | a sufficient condition on the text of a template: whatever ids are substituted, the name contains exactly those whose placeholder the template has |
| Names.TidyExactly | keycloak-tenant-controller/pkg/keycloak/client.go:181-198 | that condition, position by position: before each placeholder no digit, after it no digit, no bracket and nothing that could go on an id |
| Keycloak.NameReadsAsConflict | keycloak-tenant-controller/pkg/keycloak/client.go:339-341 | under a name containing "409" every error reads as "already exists" |
| Keycloak.ReadsAsConflictExactly | keycloak-tenant-controller/pkg/keycloak/client.go:339-341 | an error reads as "already exists" if and only if the name or the reason contains "409" |
| Keycloak.Client.CreateRolesAndGroups | keycloak-tenant-controller/pkg/keycloak/client.go:168-238 | adds only what the templates expand to; success means every group, role and grant is there and no creation was refused for another reason than that it existed; the first check that gets its lists ends in success; an error means that a round was cut short by a fault or that eleven rounds went through and every check failed to get its lists; without a fault one round succeeds |
| Keycloak.Client.CreateOnce | keycloak-tenant-controller/pkg/keycloak/client.go:179-213 | a round that succeeds has everything there, in whatever order the groups come |
| Keycloak.Client.AddRolesToGroup | keycloak-tenant-controller/pkg/keycloak/gocloak.go:199-222 | succeeds only if the group and all the roles exist, and grants exactly these |
| Keycloak.Client.GetRolesByNames | keycloak-tenant-controller/pkg/keycloak/gocloak.go:227-257 | the roles of the names in their order, or an error if one does not exist |
| Keycloak.Client.GetGroupByName | keycloak-tenant-controller/pkg/keycloak/gocloak.go:262-286 | finds only a group of exactly that name |
| Keycloak.Client.CheckRolesAndGroupsCreated | keycloak-tenant-controller/pkg/keycloak/client.go:293-334 | success only if every expanded group and role is in the lists; where all is there it fails only after a failed list request |
| Keycloak.Client.CheckGroup | keycloak-tenant-controller/pkg/keycloak/client.go:317-331 | true exactly if the lists have the group and all its roles |
| Keycloak.Client.DeleteRolesAndGroups | keycloak-tenant-controller/pkg/keycloak/client.go:243-288 | removes nothing that does not mention the id, and on success all that does |
| Keycloak.Client.CreateOrg | keycloak-tenant-controller/pkg/keycloak/client.go:79-83 | the org templates with no project |
| Keycloak.Client.CreateProject | keycloak-tenant-controller/pkg/keycloak/client.go:100-104 | the project templates with org and project |
| Keycloak.Client.DeleteOrg | keycloak-tenant-controller/pkg/keycloak/client.go:88-92 | everything that mentions the org |
| Keycloak.Client.DeleteProject | keycloak-tenant-controller/pkg/keycloak/client.go:109-113 | everything that mentions the project |
| Handlers.HandleEvent | keycloak-tenant-controller/pkg/tdmclient/tdmclient.go:122-178 | "created" and "deleted" of "org" and "project" have their effect with the ids of the event, in part if they end with an error; other texts change nothing and are no error; an error comes only after a fault |
| Handlers.RetriesAddUp | keycloak-tenant-controller/README.md:68-74 | failed attempts make no difference to the one that succeeds, and handling the event again changes nothing |
| EndToEnd.OrgItemMentions | keycloak-tenant-controller/pkg/keycloak/client.go:168-203 | an item made for an org carries no other id |
| EndToEnd.ProjectItemMentions | keycloak-tenant-controller/pkg/keycloak/client.go:168-203 | an item made for a project that carries an id carries the project's |
| EndToEnd.LiveItemsSurvive | keycloak-tenant-controller/pkg/keycloak/client.go:243-288 | deleting by the id of a dead resource spares every item of a live one |
| EndToEnd.DeliveryKeepsRealm | keycloak-tenant-controller/pkg/tdmclient/tdmclient.go:122-178 | handling an event keeps what ties the realm to the resources regarded as existing |
| EndToEnd.AttemptKeepsRealm | keycloak-tenant-controller/pkg/tdmclient/tdmclient.go:122-178 | so does a handling that ends with an error, in whatever state |
| RealmRuns.StepKeepsRealm | keycloak-tenant-controller/pkg/tdmclient/tdmclient.go:122-178 | so does every action of anybody |
| EndToEnd.SharedByKind | keycloak-tenant-controller/pkg/keycloak/client.go:168-203 | an item without an id made for one resource is made for every resource of the kind |
| RealmRuns.IdFreeExactly | keycloak-tenant-controller/pkg/keycloak/client.go:168-288 | at every point of every run, whatever the templates: a name without an id is there if and only if the base has it or a creation handled before, in full or in part, has brought it |
| RealmRuns.RealmFollowsStore | keycloak-tenant-controller/pkg/keycloak/client.go:168-288 | in every run, once the controller has caught up without orphans, the realm is exactly the base, the items of the active resources, and the names without an id that creations have brought; of these none is more than base and active items if for each kind what the templates give without its placeholder is in the base, or one is active, or none was ever created |
| RealmRuns.RealmFollowsDisciplinedRun | keycloak-tenant-controller/README.md:68-74 | the same for every run in which restarts happen under reports for all that is held, with nothing asked of the final state |
| Leftovers.ExactlyIfProvided | keycloak-tenant-controller/pkg/keycloak/client.go:168-288 | for all clean templates and every registry: the realm is exactly base and active items whenever the controller has caught up without orphans, in every run, if and only if what the templates of each kind give without its placeholder is in the base |
| Bootstrap.EnsureUserAndPassword | tenancy-manager/internal/bootstrap/bootstrap.go:141-215 | a run of the model's runner; wherever it stops, an existing Secret keeps its value and agrees with the user's password if it did, and a password newly set or kept is a generated one of sixteen characters or the Secret's; success gives agreement exactly from the reconcilable states |
| Bootstrap.StartUntilDone | tenancy-manager/internal/bootstrap/bootstrap.go:141-215 | from any state that agrees and through any number of failed starts: agreement throughout, the Secret never changes once written, success returns its value; without a Secret to begin with every password set, kept or returned is a generated one |
| Bootstrap.SafeAloneExactly | tenancy-manager/internal/bootstrap/bootstrap.go:141-215 | stopped between any two calls and restarted any number of times, one runner never reports success falsely, if and only if the Secret has its key and, where it exists, is the user's password |
| Bootstrap.SafeTogetherExactly | tenancy-manager/internal/bootstrap/bootstrap.go:184-212 | any number of interleaving runners never does, if and only if user and Secret are there and agree |
| Bootstrap.RepairableExactly | tenancy-manager/internal/bootstrap/bootstrap.go:141-215 | some run brings user and Secret into agreement if and only if the Secret does not lack its key and does not contradict an existing user |
| Bootstrap.TwoRunnersDisagree | tenancy-manager/internal/bootstrap/bootstrap.go:184-212 | from every state without a Secret two interleaved runners can both report success with different passwords |
| Bootstrap.KeylessSecretLosesPassword | tenancy-manager/internal/bootstrap/k8s.go:182-184 | with a Secret without the key, every run that succeeds, in every interleaving, reports a password that is nowhere kept |
| Bootstrap.LostUserIsNotCrashSafe | tenancy-manager/internal/bootstrap/bootstrap.go:160-182 | with the Secret there and the user missing, a stop after the user's creation leaves a state that no later run repairs |
| Passwords.Shuffle | tenancy-manager/internal/bootstrap/password.go:68-78 | in place, for every sequence of in-range choices: the specified arrangement; only rearranged when randomness fails half-way |
| Passwords.ShufflePermutes | tenancy-manager/internal/bootstrap/password.go:68-78 | the arrangement is a permutation |
| Passwords.EveryArrangementIsReached | tenancy-manager/internal/bootstrap/password.go:68-78 | every permutation comes out for some choices |
| Passwords.ChoicesAreUnique | tenancy-manager/internal/bootstrap/password.go:68-78 | and for different elements for one sequence of choices only |
| Passwords.GeneratePassword | tenancy-manager/internal/bootstrap/password.go:25-57 | the shuffle of one character of each charset and twelve of all, each at the position its random number says; so sixteen characters, all from the four charsets and at least one from each |
| Passwords.EveryStrongPasswordIsMade | tenancy-manager/internal/bootstrap/password.go:25-78 | every password of that kind is made by some random numbers, the four charsets being disjoint |
| Passwords.CharsetsAreApart | tenancy-manager/internal/bootstrap/password.go:14-17 | which they are |
| Roles.ParsesAreUnique | tenancy-manager/internal/api/auth.go:213-222 | a role string has at most one parse, and the match finds it |
| Roles.ExtractOrgUUIDs | tenancy-manager/internal/api/auth.go:226-250 | the orgs named by the roles, each once, in the order of their first occurrence |
| Roles.ExtractedAreNamed | tenancy-manager/internal/api/auth.go:226-250 | the extracted orgs are exactly those some role names, without repeats |
| Roles.DecisionIsTheRule | tenancy-manager/internal/api/auth.go:433-453 | the project decision over the extracted orgs holds exactly if some role by itself grants the request |
| Roles.AuthorizedExactly | tenancy-manager/internal/api/auth.go:363-453 | a request is let in if and only if one of the roles by itself allows it: the superuser's everything, the role of the verb for orgs, the project rule for projects, nothing elsewhere |
| Roles.MoreRolesAllowMore | tenancy-manager/internal/api/auth.go:363-453 | adding roles never turns an allowed request into a refused one |
| Scopes.ResolveCaller | tenancy-manager/internal/api/auth.go:330-353 | the caller's org names are those of the active orgs its roles name, in that order |
| Scopes.ScopeExactly | tenancy-manager/internal/api/api.go:628-691 | the scope in every case: an org asked for, for an admin, without a caller, and for a caller that has it or not; the orgs of the caller; and the default org where nothing else is known |
| Scopes.ScopeFollowsRoles | tenancy-manager/internal/api/api.go:628-691 | a scoped caller finds exactly the active projects of the name in active orgs that one of its roles names and in the org asked for; it is denied exactly if it asks for an org of which no role of its own names an active one; a denied scope finds nothing |

## Left out

- Stores.Store.CleanupHardDelete: an undisturbed pass; interleaving with others is in module Cleaners.
- Stores.Store.UpsertControllerStatus: not interleaved with other callers, so that the second update finds no row; interleaving is in module Upserts.
- Replays.SynthesizeReplayEvents: the order within each of the four listings (creation or deletion time) is any order.
- Keycloak.Client.CreateRolesAndGroups: Keycloak may drop creations of roles and groups it has answered, but not grants; the realm check, group ids and the unused cross-service templates are not modelled, and nobody else changes the realm.
- Bootstrap.SafeAloneExactly: a request of a crashed runner takes effect before the next run starts or not at all; one that comes late acts like a second runner.
- Isolation anomalies of the database and event ids that commit out of order, apart from modules CompareAndSet and Hierarchies.
- Lengths of names are counted in characters, not bytes.
- The polling library is not part of the repository: it is a cursor that applies events in order and retries.
- The parser of UUIDs is a library: a parameter that accepts at least the canonical form.
- Store.Bootstrap: it returns as soon as the org exists, so it does not promise that the project does.
- Waiting for IDLE, adding the user to groups, configuration, logging, deadlines, HTTP, JSON, JWT and JWKS, and the transports of Keycloak, Kubernetes and Vault.
- The cert synchronizer, the secrets and vault set-up, the AWS secrets proxy, the token file server, component status and the build: plumbing with easy properties only.
- The role store of auth-service: a nested expansion that the substitution lemmas already cover.
