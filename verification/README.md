# Verified models of the deploy, transaction and selection logic

This project models the parts of the repository that carry real state or a real protocol, and proves
properties of those models with Dafny 4.11: `dafny verify dfyconfig.toml`.

* `IndexRepair`, `LifecycleAuthority`, `ExecutionIndexes`: the two online index preflights.  Installers
  compete for a PostgreSQL session lock, other sessions build the same index without it, sessions are
  lost, and every statement may throw.  Each program is written out statement by statement and shown to
  follow a small control machine; the theorems hold for every run of that machine among arbitrary
  interference.
* `IndexLifecycle`: the first two together.  Any number of installers share one catalog and run the repair
  while they are inside their work, in every interleaving.
* `Backfill`: the two COALESCE statements of the coverage preflight and their transaction.
* `MemoryStore`, `Savepoints`, `SerialChain`, `Archive`: the in-memory transactional store, that is its
  revision counters with and without transactions, its map of savepoints, its promise chain (also the
  browser's session lock) and its archive statements.
* `Barrier`: the two-transaction barrier, as the product of both callbacks, the promise and the timer.
* `Installer`: runs of the database installer with other releases and the reset flag; they overlap, crash
  and are overtaken between any two statements of the reset.
* `FairSelection`, `Reconciliation`, `Coverage`, `CreatorScope`: traversals and selections, each equal to
  a short specification that knows nothing of pages, chunks or loops.
* `Scanner`, `TokenSearch`, `ChangeHints`, `Pricing`: small algorithmic cores.
* `Wrappers`, `Text`: optional values, results, and what others need of texts: white space, case, decimal
  digits and the order of JavaScript's `<`.

## Where the code does not keep the promise

Each of these comes with the theorem that says exactly when the promise holds, and where it helps with an
input that breaks it.

* A builder outside the lifecycle authority that finishes between the catalog read and the progress read
  has its conforming index dropped (`StaleReadDropsConformingIndex`; `DropIsGuarded` says exactly when).
  As long as no session is lost nobody inside the authority can cause it
  (`IndexRepair.DropsOnlyNonconforming`, `IndexLifecycle.DropsOnlyNonconforming`).
* When a session is lost two installers can be inside their work (`LostSessionLetsAnotherIn`;
  `CanEnterExactlyWhen`, `EntersAtOnceExactlyWhen`), although only one of them can return normally
  (`NormalReturnWorkedAlone`).
* The reset's transaction locks out other resets but no deployment: a receipt recorded between its last read
  of the history and its DROP is lost (`DeploymentIsLost`, `DropsRecordedExactlyWhen`).
* An undefined value empties a guarded column under the same revision (`BlankedColumn`, `AssignTells`), and
  moving a subscription to another agency changes that agency's policy under the same revision
  (`MovedSubscription`, `SubscriptionUpdateTells`).
* A write outside transactions is lost when a transaction commits that was open meanwhile, and the counters
  go back with it (`LostUpdate`, `OverwriteTells`, `VisibleStatesTell`).
* A savepoint name does not always mean the same copy in the map as on PostgreSQL's stack (`ReusedName`,
  `RollbackAfterRelease`, `StaleInnerName`).  They agree exactly when a name is live wherever it is released
  or rolled back to, and its innermost live savepoint is then the last one that was made with it
  (`AgreeExactlyWhenDisciplined`).
* The archive upsert skips a group whose key belongs to another agency (`UpsertCountsUnlessConflict`).
* The release at the end of the phase 4 preflight hides the error of the work
  (`FailedReleaseHidesTheError`); the lifecycle authority does not (`ReleasedExactlyOnce`).
* Ids that are the empty text are never visited by the reconciliation (`Reconcile`, `TotalIsAllRows`).
* The list filter trims requested ids and the single-creator gate does not: they answer alike for everyone
  exactly on the entries that have no white space at their ends, or nothing else (`AlikeExactlyWhen`,
  `TrimmingTells`).

## Model

| member | source | states |
|---|---|---|
| IndexRepair.ReturnMeansConforming | scripts/database/phase3-campaign-coverage-generation-online-preflight.js:119-133 | in every run, a normal return means that the last catalog read was valid, ready, btree, plain, non-unique, non-partial and exactly (creatorId, scanRunId, id), with no build seen since; as long as nobody else has changed the index since, it still is |
| IndexRepair.ConformingRows | scripts/database/phase3-campaign-coverage-generation-online-preflight.js:119-133 | a catalog row is accepted if and only if it is in every column that of the finished index, up to the case of its access method |
| IndexRepair.DropIsGuarded | scripts/database/phase3-campaign-coverage-generation-online-preflight.js:337-419 | before every DROP the last progress read showed no build, the last catalog read did not conform, and no build was seen in between; a conforming index is dropped if and only if others took it from nonconforming to conforming after that catalog read and not back |
| IndexRepair.DropsOnlyNonconforming | scripts/database/phase3-campaign-coverage-generation-online-preflight.js:337-419 | as long as others leave the index as it is, whatever time passes, whatever other builds come and go and whatever throws, every DROP removes a nonconforming index |
| IndexRepair.CreateIsGuarded | scripts/database/phase3-campaign-coverage-generation-online-preflight.js:371-416 | before every CREATE the catalog showed no index, or the index was dropped since, no build was seen since then, and the last progress read showed none |
| IndexRepair.FewStatements | scripts/database/phase3-campaign-coverage-generation-online-preflight.js:329-425 | at most three DROPs and two CREATEs in any run |
| IndexRepair.AloneItSucceeds | scripts/database/phase3-campaign-coverage-generation-online-preflight.js:329-425 | as long as others leave the index as it is, the repair that is over has returned if and only if no statement threw and no build outlasted a wait; a conforming index was then left alone, and otherwise the nonconforming one was dropped once and one was built |
| IndexRepair.FailsExactlyWhen | scripts/database/phase3-campaign-coverage-generation-online-preflight.js:154-172 | in every run, the repair fails if and only if a statement threw, or two clock reads are at least the timeout apart with every progress read between them showing a build, or the catalog read right after a CREATE shows no index or, after the second one, a nonconforming one |
| IndexRepair.NeverStuck | scripts/database/phase3-campaign-coverage-generation-online-preflight.js:329-425 | as long as the repair is not over it has a statement to issue, so that with the bound on its statements it ends |
| IndexRepair.UndisturbedStatements | scripts/database/phase3-campaign-coverage-generation-online-preflight.js:329-425 | when others leave the index alone, nothing throws and no build is met, the statements are exactly the listed ones: two catalog and progress reads for a conforming index, two progress reads before the DROP or CREATE, and one more before the CREATE that follows a DROP |
| IndexRepair.WaitsInStep | scripts/database/phase3-campaign-coverage-generation-online-preflight.js:156-172 | the program sleeps only right after a look at the clock, and looks at it only after progress reads that showed a build; a return reports a settled peer build if and only if it ends with a wait that is not the first one and without a CREATE of its own |
| IndexRepair.RunsAreShort | scripts/database/phase3-campaign-coverage-generation-online-preflight.js:154-172 | however others interfere, the number of statements is bounded by the wait timeout |
| IndexRepair.StaleReadDropsConformingIndex | scripts/database/phase3-campaign-coverage-generation-online-preflight.js:330-367 | a run in which a conforming index is dropped although no build was active |
| IndexRepair.Session.WaitForPeerBuild | scripts/database/phase3-campaign-coverage-generation-online-preflight.js:156-172 | the wait ends with no build at its last progress read, or fails; it always terminates |
| IndexRepair.Session.RepairNonconforming | scripts/database/phase3-campaign-coverage-generation-online-preflight.js:351-369 | the repair branch follows the control machine through its early return and its DROP |
| IndexRepair.Session.AwaitLateBuilder | scripts/database/phase3-campaign-coverage-generation-online-preflight.js:371-389 | the branch without an index follows the control machine |
| IndexRepair.Session.RepairAbandoned | scripts/database/phase3-campaign-coverage-generation-online-preflight.js:400-419 | the second repair follows the control machine |
| IndexRepair.Session.EnsureCurrentRunLookupIndex | scripts/database/phase3-campaign-coverage-generation-online-preflight.js:329-425 | the program refines the control machine: its log is a run of it, it returns exactly where the run is done and throws exactly where it has failed |
| IndexLifecycle.DropsOnlyNonconforming | scripts/database/phase3-campaign-coverage-generation-online-preflight.js:274-425 | any number of installers share one catalog and repair it while they hold the authority: over every interleaving, with no session lost and others leaving the index alone, every DROP of any of them removes a nonconforming index |
| IndexLifecycle.ReturnLeavesConforming | scripts/database/phase3-campaign-coverage-generation-online-preflight.js:421-425 | in the same runs, once any of the calls has returned normally the index conforms, whatever the other installers do afterwards |
| IndexLifecycle.ConformingForGood | scripts/database/phase3-campaign-coverage-generation-online-preflight.js:274-425 | in the same runs, a conforming index conforms for good |
| LifecycleAuthority.OneHealthyHolder | scripts/database/phase3-campaign-coverage-generation-online-preflight.js:208-243 | over every interleaving of any number of installers, at most one whose session is intact is between acquisition and release |
| LifecycleAuthority.OneWorker | scripts/database/phase3-campaign-coverage-generation-online-preflight.js:274-327 | as long as no session is lost at most one installer is inside its work |
| LifecycleAuthority.NormalReturnWorkedAlone | scripts/database/phase3-campaign-coverage-generation-online-preflight.js:228-272 | a call that returns normally held the lock throughout: no other call that returns normally or is healthy was inside at the same time |
| LifecycleAuthority.LostSessionLetsAnotherIn | scripts/database/phase3-campaign-coverage-generation-online-preflight.js:208-226 | with a lost session two installers can be inside their work |
| LifecycleAuthority.CanEnterExactlyWhen | scripts/database/phase3-campaign-coverage-generation-online-preflight.js:208-327 | in every reachable world, an idle installer can still get into its work while another is inside its own, without any further loss of a session, if and only if the other's session is lost and the lock is not stuck with an intact session whose call is over |
| LifecycleAuthority.EntersAtOnceExactlyWhen | scripts/database/phase3-campaign-coverage-generation-online-preflight.js:208-226 | if only the idle installer moves, it gets in if and only if the other's session is lost and nobody holds the lock |
| LifecycleAuthority.ReleasedExactlyOnce | scripts/database/phase3-campaign-coverage-generation-online-preflight.js:306-327 | on every exit the release was attempted exactly as often as the lock was taken, at most once; an error of contract or work is the one thrown whatever the release does; a normal return did its work |
| LifecycleAuthority.WorksExactlyWhen | scripts/database/phase3-campaign-coverage-generation-online-preflight.js:245-272 | over every interleaving, a call is inside its work if and only if its last move was a contract check that found it fit, in the session that took the lock |
| LifecycleAuthority.EndsExactlyWhen | scripts/database/phase3-campaign-coverage-generation-online-preflight.js:284-327 | a call that is over has returned if and only if it was let in, its work threw nothing and it released the lock in the session that took it; it timed out if and only if a look at the clock after a denied attempt came at least the timeout after its beginning; an error of the work is the one thrown |
| LifecycleAuthority.FewAttempts | scripts/database/phase3-campaign-coverage-generation-online-preflight.js:291-304 | a call asks for the lock at most twice more than the timeout holds polling intervals |
| LifecycleAuthority.Client.WithAuthority | scripts/database/phase3-campaign-coverage-generation-online-preflight.js:274-327 | the program is installer `me` of the system: its log is a run that leads to the world it leaves, it terminates, and its result is that installer's outcome |
| LifecycleAuthority.Client.AssertContract | scripts/database/phase3-campaign-coverage-generation-online-preflight.js:245-272 | the contract check lets the installer into its work or leaves the error to be thrown |
| LifecycleAuthority.Client.ReleaseAuthority | scripts/database/phase3-campaign-coverage-generation-online-preflight.js:228-243 | the release ends the call; its error counts only when the work had none |
| ExecutionIndexes.RebuildsOnlyItsOwn | scripts/database/phase4-execution-indexes-online-preflight.js:49-56 | an index is dropped only right after the lock's owner saw it with its proper definition and unusable, and created only right after it was dropped or seen to be missing |
| ExecutionIndexes.ReturnMeansChecked | scripts/database/phase4-execution-indexes-online-preflight.js:45-59 | after a normal return every index whose table exists was last seen usable and proper by the owning session |
| ExecutionIndexes.ReleasedOnce | scripts/database/phase4-execution-indexes-online-preflight.js:42-63 | whatever throws, the lock is released exactly as often as it was taken, at most once |
| ExecutionIndexes.FailedReleaseHidesTheError | scripts/database/phase4-execution-indexes-online-preflight.js:60-63 | an answered release fails exactly when the session was lost, and then hides the pending error |
| ExecutionIndexes.AloneItSucceedsExactlyWhen | scripts/database/phase4-execution-indexes-online-preflight.js:41-64 | without interference the preflight returns if and only if no index of an existing table has a foreign definition, and then all are usable and proper |
| ExecutionIndexes.ReturnsExactlyWhen | scripts/database/phase4-execution-indexes-online-preflight.js:41-64 | under any interference, a run that is over has returned if and only if none of its statements threw or showed a taken lock, an index in another session or with a foreign definition, a missing or unusable index right after its CREATE, or a lock that was not its own to release |
| ExecutionIndexes.Preflight.EnsureIndex | scripts/database/phase4-execution-indexes-online-preflight.js:45-59 | the body of the loop refines the control machine |
| ExecutionIndexes.Preflight.EnsureIndexes | scripts/database/phase4-execution-indexes-online-preflight.js:41-64 | the program refines the control machine, with its outcome |
| Backfill.FillGrows | scripts/database/phase3-campaign-coverage-generation-online-preflight.js:428-447 | a statement never overwrites a value that is there, never lowers the delegated flag and leaves rows without a scan run alone |
| Backfill.FilledStaysFilled | scripts/database/phase3-campaign-coverage-generation-online-preflight.js:427-491 | once a stage has filled a row it changes nothing in whatever that row grows into, and cannot fail on it |
| Backfill.BackfillGrows | scripts/database/phase3-campaign-coverage-generation-online-preflight.js:427-491 | the transaction only adds, row by row |
| Backfill.BackfillFills | scripts/database/phase3-campaign-coverage-generation-online-preflight.js:427-491 | every column after both stages, said without stages and by the jobs' texts: the first of what the row has, what its own job says and what the job of its generation's first work row says |
| Backfill.JobForTells | scripts/database/phase3-campaign-coverage-generation-online-preflight.js:448-481 | the job of a row is its own if it exists, or that of the work row with the smallest id in its generation |
| Backfill.FailsExactlyWhen | scripts/database/phase3-campaign-coverage-generation-online-preflight.js:427-491 | the transaction fails, for any table, if and only if the version number of some row's own job exceeds the database's integers, or a version to be stored prints beyond the eightieth place |
| Backfill.NothingLeftToFill | scripts/database/phase3-campaign-coverage-generation-online-preflight.js:547-564 | after the transaction neither statement changes anything or fails |
| Backfill.AnyNumberOfRuns | scripts/database/phase3-campaign-coverage-generation-online-preflight.js:547-564 | any further statements of any number of installers, whole transactions or parts, leave the table as the first transaction left it |
| Backfill.OrderMatters | scripts/database/phase3-campaign-coverage-generation-online-preflight.js:427-491 | the two statements do not commute: the row's own job has precedence |
| Backfill.Table.Update | scripts/database/phase3-campaign-coverage-generation-online-preflight.js:427-491 | one UPDATE in place: the filled table and the number of matched rows, or the error |
| Backfill.Table.BackfillAuthority | scripts/database/phase3-campaign-coverage-generation-online-preflight.js:547-564 | both counts and the filled table, or the error and the table as it was |
| MemoryStore.AssignTells | scripts/test-support/admin-command-memory-db.js:27-39 | one update keeps "equal counter, equal guarded columns" if and only if it bumps the counter or blanks no guarded column |
| MemoryStore.BlankedColumn | scripts/test-support/admin-command-memory-db.js:32-37 | an undefined value empties a guarded column under the same counter |
| MemoryStore.RevisionsTell | scripts/test-support/admin-command-memory-db.js:24-40 | over any transactions, aborts and savepoint rollbacks, between two committed states no counter decreases, equal counters mean equal guarded columns, and equal policy revisions mean equal subscriptions |
| MemoryStore.EqualEpochs | scripts/test-support/admin-command-memory-db.js:30 | what that means for an admin, by name: equal epochs, equal activity, role and password |
| MemoryStore.EqualPricing | scripts/test-support/admin-command-memory-db.js:31 | for a creator's profile: equal pricing revisions, equal columns but for the revenue and the time of the update |
| MemoryStore.EqualEntitlements | scripts/test-support/admin-command-memory-db.js:35 | for an entitlement: equal revisions, equal columns but for the five that renewal attempts write |
| MemoryStore.EqualPolicies | scripts/test-support/admin-command-memory-db.js:33-34 | for an agency: equal policy revisions, equal plan, trial, hold and reason, and the same subscriptions with equal mode, period, price, trial and notes |
| MemoryStore.HeldStaysLocked | scripts/test-support/admin-command-memory-db.js:38 | a held or deleted agency is LOCKED in every committed state, whatever columns callers write |
| MemoryStore.MovedSubscription | scripts/test-support/admin-command-memory-db.js:34-37 | moving a subscription changes an agency's policy under the same revision |
| MemoryStore.SubscriptionUpdateTells | scripts/test-support/admin-command-memory-db.js:27-39 | an update of a subscription leaves equal revisions meaning equal policy if and only if it throws for a missing agency, or neither moves the row to a known agency nor, untouched, takes it from one or blanks it there |
| MemoryStore.StatementKept | scripts/test-support/admin-command-memory-db.js:24-40 | every single create and update keeps the counters honest |
| MemoryStore.UpdateWrites | scripts/test-support/admin-command-memory-db.js:27-40 | an update that does not throw, in any table: the first matching row has the data's values and keeps its other columns, every other row and table stays, apart from the row's counter, the lock of a held agency and the counter of a subscription's agency |
| MemoryStore.UpdateThrowsExactlyWhen | scripts/test-support/admin-command-memory-db.js:28-34 | an update throws, and changes nothing, if and only if no row matches or it changes the policy of a subscription whose agency does not exist |
| MemoryStore.CreateWrites | scripts/test-support/admin-command-memory-db.js:24-26 | a create appends the row and changes nothing else but the counter of a subscription's agency; it throws if and only if that agency does not exist |
| MemoryStore.AssignedCounter | scripts/test-support/admin-command-memory-db.js:30-35 | a counter that the data leaves alone advances by one, if a guarded column is touched, or stays |
| MemoryStore.AssignedLock | scripts/test-support/admin-command-memory-db.js:38 | a held or deleted agency is LOCKED, whatever status the data asks for |
| MemoryStore.AdminsTouched | scripts/test-support/admin-command-memory-db.js:30 | which data advances the epoch of an admin |
| MemoryStore.PoliciesTouched | scripts/test-support/admin-command-memory-db.js:33 | which data advances the policy revision of an agency |
| MemoryStore.SubscriptionsTouched | scripts/test-support/admin-command-memory-db.js:34 | which data of a subscription advances that of its agency |
| MemoryStore.ProfilesTouched | scripts/test-support/admin-command-memory-db.js:31 | which data advances the revision of a profile: all but two columns count, also those that are emptied |
| MemoryStore.EntitlementsTouched | scripts/test-support/admin-command-memory-db.js:35 | which data advances the revision of an entitlement: all but five columns count |
| MemoryStore.CommitsWhatItWrote | scripts/test-support/admin-command-memory-db.js:149-155 | a transaction that resolves commits what its statements wrote, one after the other, on the state that it found, and one that rejects leaves that state |
| MemoryStore.TransactionActs | scripts/test-support/admin-command-memory-db.js:148-158 | among direct writes a transaction without any in between commits or aborts just so |
| MemoryStore.CommittedHas | scripts/test-support/admin-command-memory-db.js:149-159 | what every statement keeps holds in every committed state, across aborts and rollbacks |
| MemoryStore.VisibleStatesTell | scripts/test-support/admin-command-memory-db.js:147-159 | with writes outside transactions, before and while one is open, revisions tell between any two visible states as long as no transaction commits over a state that changed while it was open; callers may blank columns and move rows wherever the conditions of `AssignTells` and `SubscriptionUpdateTells` hold |
| MemoryStore.OverwriteTells | scripts/test-support/admin-command-memory-db.js:150-155 | when a commit puts an earlier state back over a later one, revisions tell if and only if no counter had advanced in between |
| MemoryStore.LostUpdate | scripts/test-support/admin-command-memory-db.js:148-155 | a policy change written directly while a transaction is open is visible at once, undone by the commit, and its revision goes back |
| MemoryStore.Client.UpdateRow | scripts/test-support/admin-command-memory-db.js:27-40 | the update in place is the specified one, missing row and missing agency included |
| Savepoints.RollbackRestores | scripts/test-support/admin-command-memory-db.js:87-88 | ROLLBACK TO gives back the draft of the SAVEPOINT whatever happened between, unless the name was saved again or released |
| Savepoints.AgreeExactlyWhenDisciplined | scripts/test-support/admin-command-memory-db.js:87-89 | for every script, each ROLLBACK TO means the copy of the same SAVEPOINT statement in the map as on the stack, and neither errs alone, if and only if each RELEASE finds its name live and each ROLLBACK TO finds it live with its innermost savepoint made by the last SAVEPOINT of that name |
| Savepoints.MapRefinesStack | scripts/test-support/admin-command-memory-db.js:87-89 | on every disciplined script the map of copies refines a stack of snapshots: the stack never errs and the drafts are equal |
| Savepoints.NestedScripts | scripts/test-support/admin-command-memory-db.js:87-89 | distinct names, released or rolled back to only while live, are enough |
| Savepoints.RollbackAfterRelease | scripts/test-support/admin-command-memory-db.js:88-89 | rolling back to a released name loses the draft |
| Savepoints.ReusedName | scripts/test-support/admin-command-memory-db.js:87-89 | reusing a name leaves the stack semantics |
| Savepoints.StaleInnerName | scripts/test-support/admin-command-memory-db.js:87-88 | a savepoint inside a rolled-back one survives in the map only |
| SerialChain.CommitsInCallOrder | scripts/test-support/admin-command-memory-db.js:147-159 | under every schedule calls settle in call order and the state is the fold of the settled calls, failed transactions left out |
| SerialChain.NeverBlocks | public/site/web-api.js:28-31 | whatever has failed, the first unsettled call can go on |
| SerialChain.FailuresLeaveNoTrace | scripts/test-support/admin-command-memory-db.js:152-157 | the successful transactions alone lead to the same state |
| SerialChain.OnlyTheFirstMoves | public/site/web-api.js:28-31 | on every run, whatever can start, act or settle is the first unsettled call, and no other call is running |
| Archive.DeleteSplits | scripts/test-support/admin-command-memory-db.js:51-56 | the delete splits the deliveries into returned and remaining, nothing lost or doubled |
| Archive.DeletedExactlyWhen | scripts/test-support/admin-command-memory-db.js:53 | a delivery is deleted if and only if it is listed, automatic, in one of the four final states, finished before the limit, not unresolved, settled, and acknowledged where it must be |
| Archive.GroupsMatchRows | src/services/automation-history-service.js:69-93 | there is exactly one group for each agency, creator, module, action and month with rows |
| Archive.GroupTells | src/services/automation-history-service.js:39-51 | the total of a group is the number of its rows, and completed, failed, skipped, canceled and replied are the numbers of its rows with that status or flag |
| Archive.GroupActionsTell | src/services/automation-history-service.js:48-56 | sent, followed, unfollowed, liked and commented are the numbers of its completed rows with those actions |
| Archive.GroupTimesTell | src/services/automation-history-service.js:89-90 | the first and the last time of a group are those of its earliest and its latest row |
| Archive.StatusesAddUp | src/services/automation-history-service.js:43-46 | on returned rows the four status columns add up to the total |
| Archive.BatchArchivesExactlyWhen | src/services/automation-history-service.js:135-159 | a batch removes exactly the returned rows and records their groups if and only if nothing of its own fails and no key belongs to two agencies; otherwise it changes nothing |
| Archive.GroupsRecord | src/services/automation-history-service.js:26-93 | grouping returned rows records exactly what the rows do, for every lawful measure |
| Archive.UpsertAllRecords | scripts/test-support/admin-command-memory-db.js:57-66 | the upsert adds exactly what the groups record |
| Archive.UpsertCountsUnlessConflict | scripts/test-support/admin-command-memory-db.js:59-65 | a group is recorded if and only if its key is not taken by another agency |
| Archive.RunKeepsUnique | scripts/test-support/admin-command-memory-db.js:60-63 | over any run there is one aggregate per (creatorId, moduleKey, actionType, periodStart) |
| Archive.RunConserves | src/services/automation-history-service.js:96-160 | live rows plus aggregates are constant over any run of committed and rolled-back batches, for any choice of agencies and keys |
| Archive.AgenciesStayApart | scripts/test-support/admin-command-memory-db.js:59-65 | every counter adds up for each agency and key on its own: no delivery is ever counted in another agency's aggregate |
| Archive.CountersAndTimesConserved | src/services/automation-history-service.js:96-160 | every counter adds up over any run, and the first and last times are minimum and maximum |
| Archive.CountsConserved | src/services/automation-history-service.js:96-160 | said by the deliveries' own fields, for each agency and key: the completed rows that are left and the column completed add up to the same number over any run, and so do the total, the other statuses, sent and replied |
| Archive.Tables.UpsertGroups | scripts/test-support/admin-command-memory-db.js:57-66 | the statement in place, with the number of groups written |
| Barrier.SecondAfterBothFirst | scripts/test-support/phase3-interleaved-transactions.js:30-41 | in every interleaving, counted by the calls that have resolved: no second write starts before both first writes finished |
| Barrier.NoSecondAfterFailure | scripts/test-support/phase3-interleaved-transactions.js:19-44 | after a failed first write or a timeout no second write ever runs and the call does not return |
| Barrier.OutcomeTells | scripts/test-support/phase3-interleaved-transactions.js:45-52 | the call ends with both clients settled; it returns if and only if no failure was reported, with all six calls of both parties resolved, and otherwise throws the first failure in the order of the reports |
| Barrier.RunsAreShort | scripts/test-support/phase3-interleaved-transactions.js:8-52 | every schedule is finite, with a bound |
| Barrier.NeverStuck | scripts/test-support/phase3-interleaved-transactions.js:8-52 | a run that has not ended can go on without the timer |
| Installer.PrefixMeansPermutation | scripts/database/install-current.js:53 | the counted prefix check accepts exactly the permutations of a finished chain prefix |
| Installer.InspectTells | scripts/database/install-current.js:42-59 | the inspection reports fresh or installed if and only if the database is blank or holds exactly a finished chain prefix next to rolled-back receipts |
| Installer.NeverResetOnceRecorded | scripts/database/install-current.js:64-84 | once a receipt named at or after the baseline exists, even failed or changed, and no run has already read an older history, no run with whatever flag and release ever drops the schema, through overlaps, crashes and partial deploys |
| Installer.BaselineIsNeverDropped | scripts/database/install-current.js:64-84 | in particular a receipt of the baseline itself, by its name and whatever its state and checksum, protects the database for good |
| Installer.ResetDropsExactlyWhen | scripts/database/install-current.js:64-84 | the reset discards the schema if and only if the release's contract is the baseline, some receipt is unknown to it, and every receipt is named like a migration and precedes the baseline's name; otherwise it changes nothing and refuses or reports the inspection |
| Installer.MigrationNameExactlyWhen | scripts/database/install-current.js:74-75 | a name is a migration's if and only if it is a stamp of eight or fourteen digits, an underscore and a title of ASCII letters, digits and underscores |
| Installer.OlderByDate | scripts/database/install-current.js:72-75 | such a name precedes the baseline if and only if its day, or its day and time, is earlier, or its title comes first at the same time |
| Installer.DatedBeforeIsReset | scripts/database/install-current.js:64-84 | a database with an unknown receipt, all of whose receipts are dated before the baseline, is reset |
| Installer.UninterruptedReset | scripts/database/install-current.js:64-84 | the statements of the reset, with nothing in between, are the reset as one step |
| Installer.DropsRecordedExactlyWhen | scripts/database/install-current.js:73-82 | whatever happens between the last read of the history and the DROP, the dropped database is a recorded one if and only if somebody recorded a receipt in between |
| Installer.DeploymentIsLost | scripts/database/install-current.js:73-82 | any run that is about to drop can be overtaken by a deployment whose receipts are then lost |
| Installer.SecondResetFindsFresh | scripts/database/install-current.js:65-72 | of two overlapping resets the second waits for the lock, and then finds a fresh database until a migration begins |
| Installer.AtMostOneReset | scripts/database/install-current.js:64-121 | a flag left in a build command resets a database at most once, over every interleaving of the statements of any number of runs |
| Installer.InterruptedResetResumes | scripts/database/install-current.js:64-84 | a blank database is fresh for every later run, with or without the flag, whatever runs were interrupted, until a migration begins |
| Installer.UnfinishedMigrationRefused | scripts/database/install-current.js:49-51 | from a database whose receipts are known and one of them unfinished, while nobody outside changes them, no run of whatever flag and interleaving ever deploys or drops, and the database stays as it is |
| FairSelection.SelectionIsTheFirstHundred | scripts/test-support/billing-execution-fixture.js:13-15 | the result is the first hundred, in the global order, of each creator's single best eligible row |
| FairSelection.SelectedExactlyWhen | scripts/test-support/billing-execution-fixture.js:11-15 | a row is selected if and only if it is in recovery or of a paid creator with attempts left, no such row of its creator comes before it, and fewer than a hundred creators have such a row before it |
| FairSelection.LessExactlyWhen | scripts/test-support/billing-execution-fixture.js:14 | the order is lexicographic: recovery first, then higher priority, earlier due time, earlier creation, and id |
| FairSelection.OnePerCreator | scripts/test-support/billing-execution-fixture.js:12-15 | at most one row per creator |
| FairSelection.LeftOutOnlyBehindAHundred | scripts/test-support/billing-execution-fixture.js:13-15 | a creator with an eligible row is absent only when a hundred others have rows ahead of all of its |
| FairSelection.FloodingChangesNothing | scripts/test-support/billing-execution-fixture.js:13-15 | any number of further rows that are no better than one their creator has changes nothing for anybody |
| FairSelection.SelectFair | scripts/test-support/billing-execution-fixture.js:13-15 | the loops with the growing set compute that selection |
| Reconciliation.NextPage | scripts/database/reconcile-conversations.js:22-46 | a keyset page is the next stretch of ids and its last id leads to the rest |
| Reconciliation.Database.ReconcileScope | scripts/database/reconcile-conversations.js:16-48 | a scope's turn resets each of its dialogs with a non-empty id exactly once, makes the scope relay-pending if it has one, and rotates its epoch exactly once with the flag |
| Reconciliation.Database.Reconcile | scripts/database/reconcile-conversations.js:6-51 | each outbox row of each scope is reset exactly once and each scope has exactly one turn, except for empty ids; the total is the number of rows reset |
| Reconciliation.TotalIsAllRows | scripts/database/reconcile-conversations.js:44-50 | the total is the number of outbox rows if and only if every row has an existing scope and no empty id |
| Coverage.KeyTellsCells | scripts/audit/phase2-coverage-preflight-readonly.js:43-45 | keys of manifest entries, none of which holds the unit separator, are injective whatever the agency ids are |
| Coverage.KeysCollideExactlyWhen | scripts/audit/phase2-coverage-preflight-readonly.js:43-45 | for any two entries there are agency ids with equal keys if and only if one of the texts separator, family, separator, generation is a suffix of the other |
| Coverage.CountersAddUp | scripts/audit/phase2-coverage-preflight-readonly.js:115-156 | missing, incomplete and complete add up to agencies times entries; the samples are prefixes of the full lists, bounded by the limit, and whole when not marked truncated |
| Coverage.PassesExactlyWhen | scripts/audit/phase2-coverage-preflight-readonly.js:192-210 | the report is ok if and only if the lane of the seed is the expected one and every live agency has, for every manifest entry, exactly one row, active and complete |
| Coverage.FetchCountsCopies | scripts/audit/phase2-coverage-preflight-readonly.js:94-113 | every fetched row belongs to exactly one agency and manifest entry |
| Coverage.InspectAgency | scripts/audit/phase2-coverage-preflight-readonly.js:115-142 | the inner loop classifies each entry by its last row |
| Coverage.InspectAgencies | scripts/audit/phase2-coverage-preflight-readonly.js:71-157 | the scan in pages of ids greater than the last one visits each live agency once and reports exact counts and samples, for any number of agencies |
| CreatorScope.KeepSplits | src/middleware/product-access.js:145-149 | accepted and foreign ids interleave, in order, to the de-duplicated request |
| CreatorScope.QueryFindsAll | src/middleware/product-access.js:111-116 | limiting a query to as many rows as the chunk has ids never cuts one off |
| CreatorScope.LiveAmong | src/middleware/product-access.js:109-118 | whatever the chunk size, the loop finds exactly the live ids |
| CreatorScope.MembershipScope | src/middleware/automation-permissions.js:141-164 | the scope is broad, or the member's assigned ids that are live, each once and in order |
| CreatorScope.ScopeIsGate | src/services/product-billing-context-service.js:15-29 | for every shape of the assignment the scope with billing lists exactly what the single-creator gate admits |
| CreatorScope.GateAdmits | src/middleware/automation-permissions.js:16-39 | the single-creator gate, shape by shape: owners and members without a list use every live creator, anyone else those on the list that counts |
| CreatorScope.BroadExactlyWhen | src/middleware/automation-permissions.js:25-39 | broad access is access to every id there could be |
| CreatorScope.FilterScope | src/middleware/product-access.js:97-150 | the filter accepts exactly the requested ids that the single-creator gate admits, in order, returns the others as foreign, and throws exactly when there are some and they are to be rejected |
| CreatorScope.RequestedInOrder | src/middleware/product-access.js:100-102 | requested ids stand in the order in which they were first asked for |
| CreatorScope.FilterTakesAnswer | src/middleware/product-access.js:100-108 | whatever else is in the list, an entry is among the filter's answer if and only if it passes on its own |
| CreatorScope.TrimmingTells | src/middleware/product-access.js:100-102 | filter and gate agree on every tight entry; on any other the gate says not found, and they disagree if and only if the gate admits the trimmed entry |
| CreatorScope.AlikeExactlyWhen | src/middleware/product-access.js:100-102 | an entry is answered alike for every member, assignment, billing and clean list of live ids if and only if it is tight or blank |
| CreatorScope.OnlyTheFilterTrims | src/middleware/product-access.js:100-102 | a request with a blank is accepted by the filter and unknown to the gate |
| Scanner.ScanCall | scripts/audit/phase3-prisma-source-contract.js:84-102 | the scan stops exactly behind the parenthesis that closes the argument list, or at the end of a text that holds none |
| Scanner.PrintedExactlyWhenFed | scripts/audit/phase3-prisma-source-contract.js:87-100 | the scanner returns to its start state on exactly the printed argument lists: nested parentheses, both quotes, doubled quotes |
| Scanner.OpenTextHasNoCall | scripts/audit/phase3-prisma-source-contract.js:87-100 | a text read without closing holds no complete list |
| TokenSearch.ExpressionHasTokens | scripts/database/phase3-subscriber-publication-schema-online-postflight.js:129-139 | the greedy search succeeds if and only if all tokens have some increasing placement without overlaps |
| TokenSearch.MatchMarkers | scripts/database/actual60-refreshsession-online-index-preflight.js:99-111 | the marker search succeeds if and only if the markers up to the last non-empty one have a placement with strictly increasing starts |
| TokenSearch.LeftmostFits | scripts/database/phase3-subscriber-publication-schema-online-postflight.js:132-137 | taking the leftmost occurrence never loses a placement |
| ChangeHints.RunsAreSpaced | src/services/analytics-change-hint-service.js:4-14 | on any run with a non-decreasing clock the map has at most 1000 entries in time order, and an agency is published twice within 500 ms only with at least 1000 other agencies in between |
| ChangeHints.CallsAreHeard | src/services/analytics-change-hint-service.js:8-13 | after a call outside of a commit its agency has been published within the last 500 ms |
| ChangeHints.CommittedCallsAreHeard | src/services/analytics-change-hint-service.js:5-6 | and so has the agency of a call in a context, once that context commits, whatever happened meanwhile |
| ChangeHints.AbortPublishesNothing | src/services/analytics-change-hint-service.js:5-6 | whatever commits overlap, a run in which one context never commits leaves map and log as the same run without that context's calls |
| ChangeHints.DroppedCallsAreForgotten | src/services/analytics-change-hint-service.js:5-6 | after an abort or a discard the world is as if the context had not called, so that no later commit publishes those calls |
| ChangeHints.EvictedIsFar | src/services/analytics-change-hint-service.js:10 | an evicted agency has the whole capacity of other agencies behind it |
| ChangeHints.PublishKeepsValid | src/services/analytics-change-hint-service.js:7-13 | one call keeps the bound, the order and the spacing |
| ChangeHints.Hints.Publish | src/services/analytics-change-hint-service.js:4-14 | the imperative publish is the specified one and publishes exactly when the agency's entry is older than the window |
| Pricing.AcceptedExactlyWhen | public/site/pricing.js:19-25 | a text is accepted as so many cents if and only if it reads, after clean-up, as a decimal with at most two places of exactly that value, within the limit |
| Pricing.AcceptedTexts | public/site/pricing.js:19-25 | said of the text as typed: between white space, digits with possibly a dot or a comma and up to two more, worth up to 21474836.47 |
| Pricing.RoundTrip | public/site/pricing.js:19-25 | reading the two-decimal print of any amount from 0 to 2147483647 returns it, with dot or comma |
| Pricing.OneBracket | public/site/pricing.js:29 | on ascending tiers with an unbounded last one, the chosen tier exists and is the one whose bracket holds the amount |
| Pricing.TiersRise | public/site/pricing.js:29 | more revenue never means a lower tier |
| Pricing.PriceOfBracket | public/site/pricing.js:26-32 | the price of a row is that of the bracket that holds its revenue, and the add-on is charged exactly where it is chosen |
| Pricing.DashesExactlyWhen | public/site/pricing.js:58-62 | the page shows dashes if and only if some row does not read |
| Pricing.EstimateTells | public/site/pricing.js:48-62 | otherwise it shows the sum of the prices of the rows' brackets, and as many add-ons as rows have chosen one |
| Pricing.UpdateEstimate | public/site/pricing.js:48-62 | the loop shows that estimate |
| Text.TrimTightens | public/site/pricing.js:20 | trimming leaves no white space at either end, and leaves a text as it is exactly when it had none there |
| Text.TrimExactlyWhen | public/site/pricing.js:20 | the trimmed text is the one without white space at its ends that is left when white space is taken away there |
| Text.LowerAt | src/middleware/automation-permissions.js:27 | lower case changes exactly the capital letters, position by position |
| Text.LessExactlyWhen | scripts/database/install-current.js:75 | one text is less than another if and only if it is a proper beginning of it or has the smaller character where they first differ |
| Text.LessIsTotal | scripts/database/install-current.js:75 | of two different texts exactly one is less, and none is less than itself |

## Left out

General:

- SQL, Prisma, HTTP, spawned processes, real clocks and regex engines: a statement is one atomic step on abstract state, and the clock only moves forward.
- Reason codes, messages, log lines and JSON reports, except where an outcome depends on them.
- The adapters without raw queries, which treat the lifecycle lock as taken, and rows without a backend number: both concern test doubles only.
- Concurrent writers during the reconciliation, the coverage scan and the scope queries: the models read tables that stand still, as the reconciliation script demands.
- Express routes, sessions, tokens, the rest of the website, trigger and constraint postflights, and the retired scripts: single checks or code that is not shown.

By module:

- IndexRepair.Session.EnsureCurrentRunLookupIndex: the three repair branches are methods of their own, and a thrown statement is modelled without an effect of its own, because whatever it left behind is an event of the others.
- LifecycleAuthority.Client.WithAuthority: what the work does is only its error, and of the contract everything but the session number is one yes or no; `IndexLifecycle` puts the repair in the place of the work.
- IndexLifecycle.ReturnLeavesConforming: when a session is lost or somebody outside changes the index, only `IndexRepair.DropIsGuarded` and `IndexRepair.ReturnMeansConforming` say what holds.
- Savepoints: savepoints issued on the store itself, outside transactions, where they copy and replace the committed state.
- ExecutionIndexes: `assertIndexDefinition` compares definitions that are already normalised; the normalisation of predicates is a regular expression.
- Backfill: the JSON operators are the texts they extract, and ids of work rows are their positions in the column's order.
- MemoryStore.RevisionsTell: for callers that write no counter, no undefined value into a guarded column and no agency of a subscription, all inside transactions; `AssignTells` and `SubscriptionUpdateTells` say for one update exactly what happens otherwise, and `VisibleStatesTell` takes in such updates and writes outside transactions.
- MemoryStore.HeldStaysLocked: agencies are only updated by transactions, never created, because `create` does not lock.
- MemoryStore: the ids of agencies are values that `===` finds, so neither dates nor NaN; dates are equal when their texts are; the fault-injection options, the work-item statements and the query helpers are left out.
- Archive: action types are already in upper case, the month of an instant is a parameter, and the order in which the caller sorts its groups is open; the guards of the caller's transaction are outside the model.
- ChangeHints: invalidating the home cache, and the limit on deferred hints of one commit.
- Installer: the database address, the temporary schema file and the final contract check; DROP and CREATE are one step, because nobody sees the schema between them; a transaction that fails at its DROP or CREATE is a crash before it, and the time limits of the lock and of the transaction are crashes as well.
- FairSelection: the rows the fixture's own query returns are the input, and `localeCompare` is the position it assigns.
- Reconciliation: ids are positions in the column's collation with the empty text first; new epochs are arbitrary; `retry_at` and `relay_next_at` are not modelled beyond the row being due.
- Coverage: an arbitrary assignment of positions stands for the column's collation; the empty text comes first.
- CreatorScope: the A36 query of the gate and the two billing queries are one pointwise predicate each; list entries are already texts, and an empty permission context is outside.
- Pricing: markup, currency formatting and languages; the sums stay in the range in which the page's numbers are exact.
- TokenSearch: the canonical forms of catalog expressions, and the suffix test of the marker search.
- Scanner: the parts of the contract audit outside the argument scanner.
