# A model of the relation replication of insights-rbac, and what it guarantees

The project models the parts of insights-rbac that move relations from its database to the remote tuple store and
keep them right: the Kafka replication consumer, the notify handshake that migration jobs wait on, the jobs over the
workspace forest, the disaster-recovery reader, keyset pagination, the single-use confirmation tokens, the workspace
cache, the filter normaliser, the population of organisation ids, and nested transactions.
`dafny verify dfyconfig.toml` checks everything.

## How it is organised

| files | content |
|---|---|
| `TupleLog`, `Replication` | the message log, and the consumer as a state machine: any number of processes, one partition, one lock, one committed offset, one tuple store |
| `Lifecycle` | what that machine gets done: commits, messages, locks, pauses and stops |
| `AtLeastOnce`, `Fencing` | what every run of it keeps |
| `CallOrder`, `Variants`, `Convergence`, `Breaches` | when redelivery converges: the exact condition over all runs, three clauses that ensure it, and a failing run for each clause |
| `Offsets`, `Retry` | the offset manager, the retry helper and the message handler as classes with loops |
| `Coordination`, `Handshake`, `LegacyRemoval` | the completion notice of a migration batch, as a machine on top of the consumer's |
| `Forest`, `Queries`, `LeafPeeling`, `Rebuild` | parent links; the recursive queries, the deletion and the rebuild over them |
| `RecoveryWindow`, `Keyset`, `Confirmation`, `WorkspaceCache`, `CachedLookup`, `Normaliser`, `OrgIds`, `Nesting` | one component each |
| `Prelude`, `Text` | options; `strip` and `split` |

A run is a sequence of states and steps from the initial state, each step enabled where it is taken. A step of the
consumer is one atomic action: one remote call, or one critical section of an offset commit. So a crash, a rebalance
or another thread can come between any two of them. `events`, `reached` and `front` in the state are history; no
guard of the consumer reads them.

## What the environment is taken to do

- Tuple writes and deletes are idempotent set operations. A failed call may or may not have been applied.
- The lock service issues a new token on every acquisition. A call with any but the newest token is rejected. Issuing
  a token and storing it in the process is one step; an acquisition that fails may have issued one nevertheless.
- The broker takes a commit only from the process that the partition is assigned to. A commit whose answer is lost may
  or may not have been taken.
- An assignment takes effect between two messages of a process and makes it forget its fetch position. A process that
  has not noticed the loss of its partition may go on taking the lock, fetching and calling.
- Writing an outbox row and its record in the log is one step. Notice tokens are fresh.
- Confirmation requests are handled one at a time, tokens are fresh, and the digest is collision-free.
- A workspace is never changed and never created twice. A tenant object may outlive its row; one with an organisation
  has that of its row while the row is there. A scan returns every matching key that is there throughout. Organisation
  ids hold no colon and no character with a meaning in a match pattern.
- Offsets increase within a partition; the head may have expired and offsets may be missing. No record expires while a
  window is read. The log may grow between the lookup of the start and that of the end.
- The database refuses to delete a workspace that has a child.
- Clocks, random draws, remote answers, the contents of the database at each transaction, and whether the database
  rejects a second isolation level are parameters.

## Where the code does not do what one expects

- **Convergence does not hold in every run.** Exactly when it does is proved for all runs of the protocol: a run
  converges, whatever tuples its messages carry, if and only if the last delete and the last write that took effect
  for the messages below the committed offset came in log order (`Variants.ConvergesIff`). Whether the next step keeps
  that can be told before it (`Variants.StepKeepsOrderIff`): a call that takes effect must be for a message at or past
  the committed offset, or write the last one below it again, and a commit must not pass the calls in order. Three
  clauses on the processes ensure it (`Convergence.Meets`), and all of `Convergence` is proved for the runs that keep
  them, stale processes included:
  - a process takes the lock only with no fetch position, or between messages with its position at the committed offset;
  - the broker takes offsets only from the process with the newest token;
  - the broker takes only offsets below the fetch position of the process.

  The code keeps none of the three by itself, and none can be dropped (`Breaches.EveryClauseIsNeeded`):
  - `_ensure_lock_token_on_assignment` takes the lock with a message in hand, on nothing but the local assignment, so a
    late process can disturb messages that are committed (`Breaches.LateLock`);
  - `OffsetManager.commit` looks at the assignment and not at the lock (`Breaches.CommitWithoutLock`);
  - `OffsetManager.clear` is never called, so the offset of a commit that failed when a partition was lost is still
    stored, and committed, after the process gets the partition back (`Breaches.StaleOffset`). Emptying the offset
    store and ending running commits before each assignment would give the third clause, and only the third
    (`Convergence.CleanRunHasPassed`); the other two runs have clean assignments throughout.
- `calculate_delay` is documented to reach its cap at attempt 10. With the defaults it reaches it at the twentieth
  retry (`Retry.DefaultCap`).
- `read_events_by_timestamp` is documented to include the end of the window. The code stops before the end offset;
  `RecoveryWindow.InclusiveEndIff` says exactly when that makes no difference, and `RecoveryWindow.EndIsLeftOut` is a
  case where it does. The documentation also promises the result ordered by partition; it is in delivery order, with
  each partition's events in offset order.
- The transaction flag covers decorated calls inside an `atomic_block` and only those. A decorated call inside another
  one, or a block inside any transaction, sets the isolation level again (`Nesting.SecondSetIff`,
  `Nesting.NestedCallsSetTwice`).
- The cached lookup and the database disagree in exactly two cases (`CachedLookup.CacheRefinesDatabaseIff`): a hit for a
  tenant object whose row is gone, or a hit on a workspace that was deleted. The first needs nothing but a new row with
  the same organisation (`CachedLookup.StaleObjectDisagrees`). The second comes from a deletion that is not invalidated,
  as in `migration_resource_deletion` (`CachedLookup.DeletedWorkspaceIsServed`) or when an invalidation of a deleted
  tenant fails, or from a reader that fills the cache after the invalidation with what it read before the deletion,
  which invalidating afterwards does not prevent (`CachedLookup.LateFillIsServed`). Without such deletions and fills it
  does not occur (`CachedLookup.TidyRunAgreesIff`).
- An organisation called `response` would invalidate everybody's cached responses (`WorkspaceCache.ResponseKeyGoesIff`).
- A workspace above another tenant's workspace blocks the deletion of its tenant, like a parent cycle does
  (`LeafPeeling.WorkspaceTable.DeleteTenantWorkspaces`).

## Corollaries

These follow at once from the results below: `Fencing.LockPairIsWhole` (lock id and lock token are both set or both
empty, in every run), `Rebuild.RunEmitsTruth` (part of what `RebuildRelations` promises),
`Confirmation.NoWriteWithoutToken` (with it, `EveryExecutionWasIssued` covers every write execution) and
`Nesting.CallsInBlocksUseSavepoints` (a decorated call uses a savepoint exactly inside a live block, in every program).

Some definitions are also spelled out without the helpers they are made of, so that they can be read against the code:
`Coordination.Coordinated`, `ContextIs` and `NoticeIff` (which migrations are coordinated, what travels with a batch,
when a notice is sent), `Handshake.BatchIsTakenOut`, `JobGoesOn` and `EarlierNoticeIsLost`, `Normaliser.QueriesAre`,
`WorkspaceCache.KeysAre` and `GlobQuestions`, `CachedLookup.CacheAfter`, `Confirmation.ReadsAreExecuted` and
`EmptyTokenAsks`, `Nesting.AllOrNothing`, `HandlerGoesOn` and `Conflicts`, and `Lifecycle.CommitGivesUp`,
`TakesEffect`, `UnassignedCommitsNothing`, `HalfALockIsNone` and `LostTokenCounts`.

## Model

| member | source | states |
|---|---|---|
| TupleLog.RecoverableIff | rbac/core/kafka_consumer.py:1464-1476 | redelivery from `lo` ends in one in-order application of the log exactly when the store is already right outside the tuples that the redelivered messages touch |
| TupleLog.RecoverableAfterCall | rbac/core/kafka_consumer.py:1464-1476 | a lone delete or write for a message leaves the store recoverable from that message |
| TupleLog.RecoverableAfterMessage | rbac/core/kafka_consumer.py:1464-1476 | once delete and write are in force, redelivery may start after the message |
| TupleLog.RecoverableFromEarlier | rbac/core/kafka_consumer.py:1464-1476 | rewinding further back never loses recoverability |
| Replication.CommitInventsNothing | rbac/core/kafka_consumer.py:538-624 | no part of a commit, in any interleaving with the others, makes up an offset; what a commit does is `Lifecycle.CommitAgrees` |
| Replication.TrackedComesFrom | rbac/core/kafka_consumer.py:1710-1726 | a process starts to track an offset only by finishing the message at it |
| Replication.TokenComesFrom | rbac/core/kafka_consumer.py:1741-1815 | a process gets a token from the lock service and from nowhere else |
| Lifecycle.CommitAgrees | rbac/core/kafka_consumer.py:538-624 | the parts of a commit, taken in a row in the state machine, do in one partition exactly what `Offsets.OffsetManager.Commit` promises: the same offset stored and the same committed, whether the partition is found assigned and whatever the broker answers |
| Lifecycle.CommitGoesThrough | rbac/core/kafka_consumer.py:538-624 | a commit of any worker that nobody disturbs moves the committed offset one past the copy, empties the store after a success, keeps it after a failure, and touches nothing else |
| Lifecycle.MessageGoesThrough | rbac/core/kafka_consumer.py:1438-1517 | a process with the newest token works through its message: the store is the message applied, one delete and one write are sent in that order, the notice after them, the offset is stored and the position moves on |
| Lifecycle.FailedCallIsRetried | rbac/core/kafka_consumer.py:1296-1354 | after a call that failed nothing is stored, the position stays, and the message can be started again |
| Lifecycle.TombstoneIsPassed | rbac/core/kafka_consumer.py:1630-1653 | a tombstone is passed without a call and its offset is stored |
| Lifecycle.RejectedIsNeverPassed | rbac/core/kafka_consumer.py:281-335 | a message that the validator rejects or that carries no tuples is neither called for nor passed, by any step |
| Lifecycle.LockIsTaken | rbac/core/kafka_consumer.py:1741-1815 | an acquisition gives the newest token, and no call that carries an older one takes effect any more |
| Lifecycle.NoLockNoMessage | rbac/core/kafka_consumer.py:1825-1850 | with the lock dropped or not obtained no message is started |
| Lifecycle.StartsFromCommitted | rbac/core/kafka_consumer.py:1589-1610 | a new process that is assigned the partition fetches from the committed offset and has nothing stored |
| Lifecycle.NoWayBack | rbac/core/kafka_consumer.py:1950-1986 | a paused process works on no message and does not commit on shutdown, a stopping one neither drops its lock nor commits on a rebalance, and neither comes back |
| AtLeastOnce.PassedIsHandled | rbac/core/kafka_consumer.py:1630-1647 | when an offset is stored, every message up to it was processed or is a tombstone |
| AtLeastOnce.StepKeepsInv | rbac/core/kafka_consumer.py:505-624 | every step keeps everything below a committed, stored or copied offset or a fetch position handled |
| AtLeastOnce.CommittedIsHandled | rbac/core/kafka_consumer.py:538-624 | in every state of every run, each message below the committed offset is a tombstone or had a delete and then a write succeed, by one process under one token |
| Fencing.StepKeepsInv | rbac/core/kafka_consumer.py:1741-1815 | every step keeps the lock pairs whole, tokens with their owners and applied calls fenced |
| Fencing.EveryCallIsFenced | rbac/core/kafka_consumer.py:1438-1476 | in every run, no delete or write is sent without a token issued to its sender before |
| Fencing.EffectsComeFromTheHolder | rbac/core/kafka_consumer.py:1438-1476 | in every run, each call applied between one acquisition and the next comes from the process that made the first |
| Convergence.StepKeepsInv | rbac/core/kafka_consumer.py:1464-1476 | every step that keeps the three clauses keeps the store recoverable from the committed offset and the lock holder's position, also while others act without the partition or the newest token |
| Convergence.RedeliveryConverges | rbac/core/kafka_consumer.py:1703-1731 | in every state of every run that keeps the clauses, redelivering from the committed offset what was ever started gives one in-order application of the log |
| Convergence.WorkedThroughIsApplied | rbac/core/kafka_consumer.py:1703-1731 | in such a run, once the lock holder has worked through all started messages, the store equals the log applied once in order |
| Convergence.RedeliveryInProgress | rbac/core/kafka_consumer.py:1464-1476 | in such a run, during a redelivery by the lock holder every tuple that no started message ahead touches is already right |
| Convergence.CleanRunHasPassed | rbac/core/kafka_consumer.py:626-629 | in every run whose assignments find the offset store empty and no commit running, the broker takes only offsets that the process has passed |
| CallOrder.InOrderIsRecoverable | rbac/core/kafka_consumer.py:1464-1476 | calls whose last delete and write per message came in log order leave a store that redelivery repairs, for all messages |
| CallOrder.OutOfOrderLoses | rbac/core/kafka_consumer.py:1464-1476 | calls that ended in any other order lose a tuple for good, for some messages of the same shape |
| CallOrder.RepairableIff | rbac/core/kafka_consumer.py:1464-1476 | redelivery repairs what a sequence of calls left, whatever the messages carry, exactly when the last calls for the messages left behind came in log order |
| CallOrder.MayFollowIff | rbac/core/kafka_consumer.py:1464-1476 | one call more keeps the calls in order exactly when it is for a message left ahead, or writes the last message left behind again |
| Variants.VariantIsRun | rbac/core/kafka_consumer.py:1438-1476 | no guard of the protocol looks at tuples: other tuples in the messages give another run of the same steps |
| Variants.IsOwnVariant | rbac/core/kafka_consumer.py:1464-1476 | in every run the tuple store is what the calls that took effect made of it |
| Variants.ConvergesIff | rbac/core/kafka_consumer.py:1703-1731 | every run converges, whatever tuples its messages carry, exactly when the last calls for the messages below the committed offset came in log order |
| Variants.StepKeepsOrderIff | rbac/core/kafka_consumer.py:538-624 | from any state whose calls are in order, they are in order after a step exactly when a condition on the state before it holds: where an applied call may go, and how far a commit may |
| Variants.OrderlyCallsInOrder | rbac/core/kafka_consumer.py:1464-1476 | in every run that keeps the three clauses those calls are in log order |
| Breaches.LateLock | rbac/core/kafka_consumer.py:1741-1815 | a run with clean assignments and sound commits in which a process takes the lock with an old fetch position; all is committed and processed, and a tuple is lost for good |
| Breaches.CommitWithoutLock | rbac/core/kafka_consumer.py:538-602 | the same for a commit by a process that has passed the offset and is assigned the partition, but has no longer the newest token |
| Breaches.StaleOffset | rbac/core/kafka_consumer.py:1022-1056 | the same for an offset that a failed commit left stored across two assignments |
| Breaches.EveryClauseIsNeeded | rbac/core/kafka_consumer.py:538-624 | whichever clause is dropped, some run keeps the other two and loses a tuple |
| Offsets.Restored | rbac/core/kafka_consumer.py:616-624 | a failed commit lowers neither its copy nor an offset stored meanwhile, and leaves one of the two |
| Offsets.OffsetManager.constructor | rbac/core/kafka_consumer.py:499-503 | starts with nothing stored |
| Offsets.OffsetManager.Store | rbac/core/kafka_consumer.py:505-522 | replaces the entry of one partition and no other |
| Offsets.OffsetManager.Restore | rbac/core/kafka_consumer.py:616-622 | puts the copy back without losing a later offset, partition by partition |
| Offsets.OffsetManager.Commit | rbac/core/kafka_consumer.py:538-624 | the four outcomes: nothing stored, nothing assigned, committed and emptied, failed and unchanged; what the broker holds and the count returned |
| Offsets.LaterIsLeft | rbac/core/kafka_consumer.py:616-624 | of a copied and a stored offset for a partition the later one is left, at the same offset the copy |
| Offsets.ShouldCommitIff | rbac/core/kafka_consumer.py:524-536 | a batch commit is due exactly when the next offset is a multiple of a positive modulus |
| Offsets.FailuresAreDueSince | rbac/core/kafka_consumer.py:1712-1726 | the failures in a row that the bound of `ConsumeAll` counts are the batch commits due since the last success |
| Offsets.FinishMessage | rbac/core/kafka_consumer.py:1712-1726 | stores the offset, and commits at a multiple of the modulus |
| Offsets.ConsumeAll | rbac/core/kafka_consumer.py:1712-1726 | after k failed batch commits in a row, the next offset is less than (k + 1) times the modulus past the committed one; the store and the broker always account for every message |
| Retry.DefaultCap | rbac/core/kafka_consumer.py:183-201 | with the defaults the delay is at its cap exactly from the twentieth retry on |
| Retry.WorstWaitIsStretched | rbac/core/kafka_consumer.py:194-201 | the largest total wait is (1 + jitter) times the sum of the capped linear delays |
| Retry.WorstWaitGrows | rbac/core/kafka_consumer.py:194-201 | fewer retries never wait longer |
| Retry.Config.BackoffIs | rbac/core/kafka_consumer.py:194-197 | the delay is the linear one or the cap, whichever is smaller, and never shorter for a later retry |
| Retry.FirstStop | rbac/core/kafka_consumer.py:382-435 | the attempt that ends the loop: only transient failures before it, and the verdict by its outcome, the limit and the shutdown flag |
| Retry.RetryHelper.Run | rbac/core/kafka_consumer.py:382-435 | stops at the first attempt that succeeds, is refused, exceeds the limit or is interrupted, with that verdict; at most n + 1 calls and a wait within the bound |
| Retry.MessageHandler.ProcessAndCommit | rbac/core/kafka_consumer.py:1703-1739 | an offset is stored or committed exactly when the last call succeeded; a shutdown breaks the loop, exhausted retries also pause |
| Coordination.TokenComesBack | rbac/internal/migration_coordination.py:77-126 | the notice the consumer sends for an event is accepted by the wait for its token, blanks around the token included |
| Coordination.NoOtherNoticeAccepted | rbac/internal/migration_coordination.py:77-126 | no notice for another event type or another token is |
| Coordination.WaitForNotice | rbac/internal/pg_notify_wait.py:108-192 | with a positive timeout the wait returns normally exactly when a matching notice is drained before the deadline; otherwise it does not wait |
| Handshake.BatchAsksForItsToken | rbac/internal/pg_notify_wait.py:50-77 | the record of a batch makes the consumer send the notice its job waits for |
| Handshake.RecordsOverRuns | rbac/internal/pg_notify_wait.py:50-77 | in every run, each batch's record, applied to any store, takes out exactly the tuples flushed for it |
| Handshake.SentNoticeIsEarned | rbac/core/kafka_consumer.py:1466-1517 | a notice is sent only after both calls of its message succeeded |
| Handshake.ReturnMeansProcessed | rbac/internal/pg_notify_wait.py:108-192 | a wait that may return does so for the job's own batch, both of whose calls succeeded |
| Handshake.StepKeepsInv | rbac/internal/pg_notify_wait.py:41-77 | every step of job, consumers and other producers keeps notices earned, tokens distinct and earlier batches applied |
| Handshake.WaitIsSound | rbac/internal/pg_notify_wait.py:41-77 | in every run, a normal return means that delete and write for that very batch succeeded; what they removed is `WaitMeansRemoved` |
| Handshake.WaitMeansRemoved | rbac/internal/pg_notify_wait.py:41-77 | in every run, before a normal return a delete took effect that removed exactly the tuples flushed last |
| Handshake.TimeoutEndsTheJob | rbac/internal/pg_notify_wait.py:108-192 | after a timeout the job neither returns nor flushes again |
| Handshake.AtMostOneUnapplied | rbac/internal/utils.py:463-497 | in every run, only the last batch of the removal job can be unapplied, and only while the job waits for it; each batch is the set that was flushed (`RecordsOverRuns`) |
| LegacyRemoval.EdgesAre | rbac/internal/utils.py:479-497 | the edges are the root workspace's parent relations to the tenants that have a resource id, and no others |
| LegacyRemoval.EnqueueRemovals | rbac/internal/utils.py:446-502 | every stale edge is enqueued once, in order, in non-empty batches that are full except the last |
| Forest.EndsIff | rbac/management/managers.py:153-171 | the parents of a workspace run out exactly when they do not lead into a cycle, and then within the table's size |
| Queries.DescendantIds | rbac/management/managers.py:119-140 | on any table, cycles included, exactly the rows from which a path of parent links over rows of the tenant leads to a given one; all found are rows of the tenant |
| Queries.UnionAllEndsIff | rbac/management/managers.py:153-171 | the UNION ALL query ends exactly when no given workspace leads into a parent cycle, and then within as many rounds as there are workspaces |
| Queries.AncestorIds | rbac/management/managers.py:142-181 | exactly the rows to which a path of parent links over rows of the tenant leads from a given one, without the given ones; all found are rows of the tenant; nothing on a database error |
| Queries.RunsOutIff | rbac/management/managers.py:153-171 | the row paths up from a workspace have bounded length exactly when its parents do not lead into a cycle |
| Queries.DescendantsMirrorAncestors | rbac/management/managers.py:119-181 | on single ids one query is the mirror image of the other |
| LeafPeeling.StuckHasChild | rbac/api/utils.py:143-148 | a workspace on a cycle or above another tenant's always keeps a child |
| LeafPeeling.OnlyStuckIsLeft | rbac/api/utils.py:143-148 | when the tenant has no leaf left, all that is left of it is on a cycle or above another tenant's workspace |
| LeafPeeling.ForestIsNotStuck | rbac/api/utils.py:143-148 | in a forest inside the tenant there is no such workspace |
| LeafPeeling.WorkspaceTable.Delete | rbac/api/utils.py:161-170 | a chunk goes as a whole, and only if no row of it has a child |
| LeafPeeling.WorkspaceTable.DeleteLeaves | rbac/api/utils.py:161-170 | the re-evaluated pass terminates, never fails, and leaves of the tenant exactly the stuck workspaces |
| LeafPeeling.WorkspaceTable.DeleteRest | rbac/api/utils.py:161-170 | the second pass succeeds only with nothing left, and changes nothing where every workspace has a child |
| LeafPeeling.WorkspaceTable.DeleteTenantWorkspaces | rbac/api/utils.py:143-149 | both passes succeed exactly when nothing is stuck; the tenant's other workspaces go, nobody else's do |
| LeafPeeling.PickChunk | rbac/api/utils.py:161-170 | a chunk is a non-empty part within the chunk size, and everything if that fits |
| Rebuild.BuildGraph | rbac/internal/utils.py:249-259 | roots and children lists hold every workspace exactly once, where its parent link says |
| Rebuild.OneRound | rbac/internal/utils.py:407-431 | taking one entry from the queue keeps: nothing queued or handled twice, nothing missed |
| Rebuild.RebuildRelations | rbac/internal/utils.py:398-443 | without a visited set the traversal ends on every table, handles exactly the workspaces below a root, each once, and totals the reports; under any changes between transactions it emits only edges true at that moment and missing from the store, and none in a dry run |
| Rebuild.ReportIff | rbac/internal/utils.py:299-359 | what a transaction counts and emits, on any database: checked if both rows are there, missing if the parent is still the expected one and the store lacks the edge, emitted exactly then and not in a dry run |
| Rebuild.StableRun | rbac/internal/utils.py:299-359 | with no changes meanwhile, the traversal yields the reports for its snapshot |
| Rebuild.StableCounts | rbac/internal/utils.py:398-443 | with no changes meanwhile, the counts are those of the missing edges, and a dry run predicts them |
| Rebuild.StableEmits | rbac/internal/utils.py:299-359 | with no changes meanwhile, exactly the missing edges are emitted |
| Rebuild.SecondRunAddsNothing | rbac/internal/utils.py:299-359 | after these are replicated nothing is missing |
| Rebuild.DryRunThenTwoRuns | rbac/internal/utils.py:398-443 | over three traversals with no changes by others: the dry run's count is what the real run adds, and a real run after replication adds nothing |
| RecoveryWindow.TakeRecord | rbac/core/kafka_dr.py:155-200 | a record finishes its partition, is collected or is dropped; the early break is taken only when every partition is finished |
| RecoveryWindow.ReadEvents | rbac/core/kafka_dr.py:153-200 | for every interleaving, each partition contributes what it would contribute alone; the early break truncates none |
| RecoveryWindow.WindowOfPartition | rbac/core/kafka_dr.py:126-200 | with expired heads and missing offsets, and the two lookups at different moments: exactly the accepted records from the start offset, up to but excluding the end offset, or the first record past the end when there is none |
| RecoveryWindow.KeptIsOrdered | rbac/core/kafka_dr.py:155-200 | the collected records of a partition are exactly the accepted ones, in offset order |
| RecoveryWindow.InclusiveEndIff | rbac/core/kafka_dr.py:102-112 | the code agrees with the documented inclusive end exactly when no accepted record stamped inside the window lies at or beyond the place where reading stops |
| RecoveryWindow.InclusiveEndInOrder | rbac/core/kafka_dr.py:102-112 | on a partition in time order, looked up at rest: exactly when no accepted record is stamped at the very end |
| RecoveryWindow.EndIsLeftOut | rbac/core/kafka_dr.py:102-112 | a record stamped at the end: documented to be in the window, and not collected |
| RecoveryWindow.LookUpOffsets | rbac/core/kafka_dr.py:134-147 | the active partitions are those with a start offset, with the end offset of each that has one |
| RecoveryWindow.ReadWindow | rbac/core/kafka_dr.py:126-200 | the whole reader: for every interleaving, each partition with a start offset contributes exactly its accepted records from there up to its end |
| Keyset.TakeChunk | rbac/internal/custom_v2_role_tenant_migration.py:112-117 | the first keys after the last one, without a gap |
| Keyset.EmitChunk | rbac/internal/custom_v2_role_tenant_migration.py:52-60 | one true owner tuple per key, or the first role without a resource id |
| Keyset.OneMoreBatch | rbac/internal/custom_v2_role_tenant_migration.py:112-127 | a batch keeps: every key up to the last one that was there throughout is emitted once |
| Keyset.ReplicateOwners | rbac/internal/custom_v2_role_tenant_migration.py:112-127 | whatever is inserted or deleted between batches, no role is emitted twice, every role there from start to end is emitted, and on a fixed table the loop ends |
| Keyset.FixedTableBounds | rbac/internal/custom_v2_role_tenant_migration.py:112-127 | on a fixed table there are no more tuples than roles |
| Confirmation.ConfirmationCache.Generate | rbac/management/mcp_views.py:5898-5905 | adds one entry for tool, digest and organisation |
| Confirmation.ConfirmationCache.Validate | rbac/management/mcp_views.py:5908-5926 | valid exactly when tool, arguments and organisation match; a failed check consumes nothing |
| Confirmation.ConfirmationCache.HandleCall | rbac/management/mcp_views.py:6220-6255 | the handler does what the step function of the runs says; a rejected or refused call and a read change nothing in the cache, and an admitted read is executed |
| Confirmation.StepKeepsInv | rbac/management/mcp_views.py:5898-5926 | every request and every expiry keeps: cached tokens are issued for their call and unused |
| Confirmation.EveryWriteWasIssued | rbac/management/mcp_views.py:5892-5926 | in every run, each write execution has an earlier issuance for the same tool, arguments and organisation |
| Confirmation.EveryExecutionWasIssued | rbac/management/mcp_views.py:6220-6255 | in every run, each write that is executed consumes a token that was issued before for the same tool, arguments and organisation |
| Confirmation.IssuedOnceUsedOnce | rbac/management/mcp_views.py:5908-5926 | in every run, no issuance covers two executions |
| Confirmation.NothingElseConsumes | rbac/management/mcp_views.py:5908-5926 | in every run, a request that neither asks for a token nor executes a write leaves cache and history as they are |
| Confirmation.IssuedStaysCached | rbac/management/mcp_views.py:5898-5926 | in every run, a token that was issued and neither expired nor was used since is cached for its call, whatever came in between |
| Confirmation.ConfirmedIsExecuted | rbac/management/mcp_views.py:6220-6255 | in every run, the same call with such a token is executed and uses the token up |
| Confirmation.OtherOrganisationIsRefused | rbac/management/mcp_views.py:5908-5926 | in every run, with such a token a call of another organisation is refused and the token stays |
| Confirmation.ExpiredIsRefused | rbac/management/mcp_views.py:5908-5926 | an expired token is refused, and one for another tool, other arguments or another organisation |
| WorkspaceCache.GlobPrefix | rbac/management/cache.py:520-531 | a literal followed by a star matches exactly what starts with the literal |
| WorkspaceCache.ModelKeyGoesIff | rbac/management/cache.py:388-390 | invalidation of one organisation matches the model keys of that one and no other |
| WorkspaceCache.ResponseKeyGoesIff | rbac/management/cache.py:392-394 | it matches the response keys of that one and no other, unless it is called `response` |
| WorkspaceCache.KeysAreDistinct | rbac/management/cache.py:388-390 | different workspaces have different keys, whatever the organisation ids |
| WorkspaceCache.Store.DeleteScanned | rbac/management/cache.py:520-526 | across pipeline batches exactly the scanned keys go or are queued |
| WorkspaceCache.Store.DeleteWorkspacesForTenant | rbac/management/cache.py:509-536 | exactly the matching keys go |
| CachedLookup.GetBuiltInWorkspace | rbac/management/managers.py:69-102 | the answer and what it leaves in the cache, with an unreadable or unwritable cache passed over |
| CachedLookup.LookupThenHit | rbac/management/managers.py:69-102 | a lookup that had to ask the database and could write the cache is answered from the cache next time, with the same workspace |
| CachedLookup.DatabaseAfter | rbac/management/managers.py:69-102 | what the uncached lookup answers after each kind of step, and that steps on the cache do not change it |
| CachedLookup.DeletedAfter | rbac/api/utils.py:114-158 | over every step, a workspace is on record as deleted exactly when it was, or when the step took it out of the database |
| CachedLookup.LookupAgreesIff | rbac/management/managers.py:69-102 | while every entry is accounted for, cached and uncached lookup agree exactly when it is not a hit for an object whose row is gone or on a workspace that was deleted |
| CachedLookup.SurvivorIsLive | rbac/api/utils.py:141-158 | an invalidation takes everything that is cached of the deleted tenant |
| CachedLookup.StepKeepsInv | rbac/management/cache.py:402-437 | lookups, late fills, expiries, invalidations, rows and workspaces that come and go, and organisations set late keep: every entry is of a row that is there or of a workspace that was deleted |
| CachedLookup.CacheRefinesDatabaseIff | rbac/management/managers.py:69-102 | over every run of all these steps, a lookup answers what the database would, exactly when it is not a hit for an object whose row is gone or on a workspace that was deleted |
| CachedLookup.ServedByTheRow | rbac/management/managers.py:69-102 | over every run, a hit on a workspace that was not deleted answers for the row that has the organisation |
| CachedLookup.StaleObjectDisagrees | rbac/api/utils.py:141-158 | a run, each deletion invalidated, in which a deleted tenant's object gets the workspace of the row that took its organisation, while the database has none |
| CachedLookup.DeletedWorkspaceIsServed | rbac/api/utils.py:114-124 | a run in which a tenant's workspace is deleted, the tenant stays, and the cache still answers with it |
| CachedLookup.LateFillIsServed | rbac/api/utils.py:134-158 | a run in which a reader fills the cache after the invalidation, although that comes after the deletion |
| CachedLookup.TidyRunAgreesIff | rbac/management/managers.py:69-102 | in every run without late fills and without deletions that are not invalidated, only a hit for an object whose row is gone disagrees |
| Text.SplitThenJoin | rbac/internal/views.py:1811-1822 | splitting at commas loses nothing and leaves no comma |
| Text.StripIs | rbac/internal/views.py:1811-1822 | stripping takes off whitespace and nothing else, and leaves none at either end |
| Normaliser.ResourceDefinitions.RunPhase | rbac/internal/views.py:1768-1804 | a phase changes exactly the rows its query selected, and counts them |
| Normaliser.ResourceDefinitions.Patch | rbac/internal/views.py:1768-1804 | the four phases correct every row on its own, and the count returned is the number of corrections; `GroupFilters` and `OtherFilters` say what corrected means |
| Normaliser.GroupFilters | rbac/internal/views.py:1825-1837 | a filter on `group.id` ends as a list under "in" that holds, by the kind of its value, the list itself, the object's id or null, the stripped parts of a comma-separated string, or the value alone |
| Normaliser.OtherFilters | rbac/internal/views.py:1811-1848 | what any other filter ends as, by its operation and the kind of its value |
| Normaliser.UncorrectableIff | rbac/internal/views.py:1840-1848 | the operation query still selects exactly the filters whose value nobody can correct |
| Normaliser.MeaningKept | rbac/internal/views.py:1811-1848 | the key stays, and outside group filters no value changes but a comma-separated string, which becomes the list of its parts |
| Normaliser.FullPass | rbac/internal/views.py:1697-1709 | after a full pass the list, string and group queries return nothing, the operation query only what nobody can correct, and a second pass changes nothing |
| OrgIds.IndexByAccount | rbac/api/utils.py:54-55 | each non-empty account once, with the last tenant given for it |
| OrgIds.OneTenant | rbac/api/utils.py:63-97 | one tenant keeps organisation ids unique and the known set right, is settled unless it fails and unchanged if it does, and is counted once, under its fate |
| OrgIds.LoopStep | rbac/api/utils.py:63-97 | the loop leaves settled accounts settled and everybody else alone |
| OrgIds.TenantTable.ProcessOne | rbac/api/utils.py:63-97 | deletes, updates or counts an error, as the step function says |
| OrgIds.TenantTable.PopulateOrgIds | rbac/api/utils.py:47-100 | organisation ids stay unique; each error-free account's tenant gets its mapped id or goes; the row of a failing one is unchanged; nobody else changes; each of the four counters is the number of distinct non-empty accounts with that fate |
| Nesting.Context.Run | rbac/management/atomic_transactions.py:137-156 | for every program with exceptions anywhere, also those of a database that rejects a second isolation level, one flag that is set and reset does what lexical nesting says, and is as before afterwards |
| Nesting.Context.RunBlock | rbac/management/atomic_transactions.py:137-156 | a block sets the flag for its body and restores it on every way out |
| Nesting.Context.RunCall | rbac/management/atomic_transactions.py:50-57 | a decorated call uses a savepoint exactly when the flag is set |
| Nesting.SecondSetIff | rbac/management/atomic_transactions.py:41-57 | for every program, with exceptions anywhere and whatever the database rejects, the isolation level is never set inside an open transaction exactly when, where the program is reached, no block is nested in a transaction and no decorated call in another outside a block |
| Nesting.NestedCallsSetTwice | rbac/management/atomic_transactions.py:41-57 | a decorated call inside another one sets the isolation level inside an open transaction |
| Nesting.RaisesAsWritten | rbac/management/atomic_transactions.py:41-57 | a well-nested program raises exactly where it says so: the isolation level adds no exceptions |
| Nesting.OnlyAppends | rbac/management/atomic_transactions.py:41-57 | whatever raises and is rolled back, nothing that was in the database before is lost |
| Nesting.WritesAll | rbac/management/atomic_transactions.py:41-57 | a program in which nothing raises makes all its writes, in order, in whatever blocks and calls they are |
| Nesting.RunNestedRetries | rbac/management/atomic_transactions.py:106-134 | the effects of the one attempt that returned, or none; only conflicts are retried, within the given attempts |

## Left out

- Metrics, logging, health files and the health-check thread: they do not touch the protocol's state.
- The inside of Kafka, gRPC, Redis, PostgreSQL and Django: they are steps of the environment, as stated above.
- Parsing of JSON and protobuf: a message is valid, a tombstone, or rejected before any remote call.
- Saving consistency tokens and the read-your-writes notice: best effort, with errors swallowed.
- `_initialize_partition_offset_tracking`: its values are only logged.
- Rebalances with `commit_on_rebalance` off, and consumers with several partitions, which the code warns about.
- Liveness of the handshake: a notice sent before LISTEN is lost and ends in a timeout. Database errors during the wait are not modelled.
- Match patterns with brackets or backslashes.
- Confirmation requests handled concurrently, and the checks before the confirmation, which are one parameter.
- `atomic` and `atomic_block` with retries disabled, and `atomic_with_retry`, which hands its retries to a library.
- Nesting.RunNestedRetries: a savepoint rollback is taken to undo an attempt; that PostgreSQL aborts the whole outer transaction on a true serialization failure is not modelled.
- Retry.Config.Delay: over real numbers; floating-point rounding is not modelled, and the random draw comes scaled by the jitter factor.
- OrgIds.TenantTable.PopulateOrgIds: an error leaves the tenant's row as it was; that a database error also breaks the surrounding transaction is not modelled.
- Filters without an operation or a value in the normaliser.
- `JWKSCache`, the other tools of `rbac/management/mcp_views.py`, the other endpoints of `rbac/internal/views.py`, the dual-write handlers and replicators, `rbac/core/kafka.py`, serializers and URL configuration: easy, or not part of this core.
