# MeiliBridge, verified

MeiliBridge follows the change stream of a PostgreSQL database and keeps a search index up to
date with it. Changes arrive as binary replication messages, are mapped, routed to an index,
deduplicated and written in batches; checkpoints record how far each task has got, and what cannot
be written goes to a dead letter queue. This project models the stateful parts of that pipeline
and proves what they keep, over every input, every run and every interleaving.

The model has one module per component. Code that updates state in place is a class whose
methods are proved against a specification function (`Begin`, `Prepare`, `Commit`, ... on a value
of the state); the theorems are lemmas about those functions, and so about every run of the class.
Clocks, failing storage calls, the order of hash maps and the replies of other parties are
parameters or nondeterministic choices, so a theorem holds for all of them.

| file | component |
|---|---|
| `PgOutputFormat.dfy`, `PgOutputMessages.dfy`, `PgOutputParser.dfy` | the replication messages: encoder, reader, parser |
| `ArrayLiteral.dfy` | the decoder of array literals |
| `FieldMapper.dfy` | field mapping |
| `BatchedWrites.dfy`, `MeilisearchAdapter.dfy` | routing, batching, writing to the search index |
| `Deduplication.dfy`, `AtLeastOnceDelivery.dfy` | the window of seen keys, and one batch of the delivery protocol |
| `CheckpointStore.dfy`, `TransactionalCheckpoint.dfy`, `CheckpointSafety.dfy` | checkpoint transactions and their runs |
| `TwoPhaseCommit.dfy`, `CoordinatorSafety.dfy` | the coordinator of both sides, and its runs |
| `CheckpointManager.dfy`, `Positions.dfy` | the write-behind checkpoint cache; the order of positions and the resume position |
| `MemoryMonitor.dfy`, `ParallelProcessor.dfy` | memory accounting and work queues under all interleavings |
| `CircuitBreaker.dfy`, `DeadLetterQueue.dfy`, `AdaptiveBatching.dfy` | recovery and tuning |
| `Events.dfy`, `Text.dfy`, `Wrappers.dfy` | shared values, strings, `Option` and `Result` |

`dafny verify dfyconfig.toml` checks everything.

## What the proofs found

Some promises do not hold of the code as it is. The model keeps the code, shows an input that
breaks the promise, and says exactly when it holds.

- **A failed batch is not sent again.** The documentation promises at-least-once delivery
  (README.md:35), but keys are marked as seen before the batch is sent and stay marked after a
  rollback (src/pipeline/orchestrator.rs:1560-1577). A failed batch is tried again with the events that
  arrived since appended, perhaps after batches of other tasks, which share the window. For any batch of
  different keys and any kind of failure, every event the first try owed is handed over by the second
  exactly when that gets as far as sending and the owed events, what other batches let through in between
  and the duplicates at the front that are let through again are together more than the window holds
  (`RetrySendsOwedExactlyWhen`). For unseen keys it is all or nothing: while the window can hold them, none
  is sent; only what is new among the appended events is, their later position is committed and the batch
  is cleared as a success (`RetryWithMoreEvents`). Inputs: `OneEventIsLost`, and `PartOfABatchIsLost`, where
  the retry sends the one event of three that was not owed.
- **Without two-phase commit all batches share the empty transaction id.** A batch of duplicates, a failed
  save or a failed commit leaves its transaction open (`OpenAfterExactlyWhen`), and then no batch of any
  task is sent until a cleanup finds it stale (`LeftoverBlocksEveryBatch`; input:
  `DuplicatesBlockTheNextBatch`).
- **A fully delivered batch succeeds exactly when its commit is stored and two-phase commit is off**: with it
  on, the checkpoint side is committed twice, and the second time its transaction is gone. **A batch is cleared
  as a success with nothing sent exactly when its last event has no position**, or when it starts and holds only
  duplicates (`DeliveryProtocol`).
- **Batching forgets later writes**: an id that is deleted anywhere in a batch ends deleted, even if it
  was written again afterwards (`BatchMeansOneByOne`; input: `DeleteThenCreateIsLost`).
- **A cleanup can separate the two sides of a transaction**: the record because it is older
  (`CleanupSeparatesExactlyWhen`; input: `CleanupCanSeparate`), the transaction because the clock is read
  again for it (`CleanupUncoversExactlyWhen`; input: `CleanupCanUncover`).
- **A commit can mark the wrong position**, when two transactions of a task are prepared or a save times out
  beside one (`CommitAgreesExactlyWhen`; inputs: `TwoPreparedCommitTheWrongPosition`,
  `TimedOutSaveCommitsTheWrongPosition`). A task id with a dash is cut at the dash (`TaskOfUndoesBegin`;
  input: `DashedTaskIsCut`).
- **Array literals**: an element that is a lone double quote once trimmed stops the decoder with a slice out
  of range (`DecodeStopsExactlyWhen`; input: `LoneQuoteFails`), an empty string is dropped when it comes last
  (`DecodeUndoesPrintExactlyWhen`, `LastEmptyElementIsDropped`), and scalar types numbered from 1000 (dates,
  NUMERIC, UUID, JSONB) are taken for arrays: a value is decoded as its scalar type says exactly when its type
  is below 1000, or its text is not in braces and is its own scalar value (`HighScalarsAreTakenForArrays`;
  input: `ObjectIsTakenForArray`).
- **The resume position can lie after a loaded one** when a position cannot be compared
  (`ResumesEarliestExactlyWhen`; input: `MalformedNumberBreaksResume`).
- **The memory limit can be passed** exactly when the 64-bit addition wraps
  (`AdmitsOverLimitExactlyWhenWrapping`; input: `WrappingIsReached`).
- **Adaptive batches grow only while at most 0.8 percent of the memory is used**, because a percentage is
  compared with 0.8, and shrink to the minimum otherwise (`GrowsExactlyWhen`, `HighPressureShrinks`; input:
  `OnePercentShrinks`).
- **Storing a dead letter again under another task** breaks the Redis indexes (`StoreAgreesExactlyWhen`;
  input: `MovedEntryBreaksIndexes`).
- **A checkpoint limit of zero makes the cleanup delete every checkpoint** (`CleanupCheckpoints`; input and
  exact limit: `SaveThenCleanUp`).
- **The order of a hash map can show in mapped fields**, exactly when two mappings write different values
  to one target that no prefixed field overwrites (`OrderIsInvisibleExactlyWhen`; input:
  `SharedTargetShowsOrder`).

## Model

| member | source | states |
|---|---|---|
| `PgOutputMessages.ParseUndoesEncode` | src/source/postgres/pgoutput.rs:117-377 | Parsing undoes encoding for every well-formed message of the ten kinds: any column counts and lengths, either old-tuple tag, big-endian and two's-complement fields |
| `PgOutputMessages.AcceptsExactlyEncodings` | src/source/postgres/pgoutput.rs:117-377 | A byte string is reported as a message if and only if it is an encoding of a well-formed wire message with that meaning, followed by unread bytes (none for an update) |
| `PgOutputMessages.ReportedMessagesRoundTrip` | src/source/postgres/pgoutput.rs:117-377 | Every message the parser reports is well-formed (counts match lengths, names are UTF-8 without NUL, values fit their widths), and encoding it and parsing again reports it again |
| `PgOutputMessages.StandardUpdateMeaning` | src/source/postgres/pgoutput.rs:250-286 | An update in one of the shapes the protocol allows is reported with its one new tuple and the one old tuple it carries, if any |
| `PgOutputMessages.CacheHoldsLastAnnouncement` | src/source/postgres/pgoutput.rs:129-134 | After any stream of byte strings a relation id looks up its last announcement that parsed; ids never announced are untouched |
| `PgOutputFormat.BigEndianRoundTrip` | src/source/postgres/pgoutput.rs:152-163 | Reading the big-endian bytes of a number that fits gives the number back |
| `PgOutputFormat.FromBigEndianRoundTrip` | src/source/postgres/pgoutput.rs:152-163 | Writing what was read from any bytes gives the same bytes back, and the number fits their count |
| `PgOutputFormat.TakePutSigned` | src/source/postgres/pgoutput.rs:155-156 | Reading back a signed field in two's complement of any width |
| `PgOutputFormat.PutTakeUntilNul` | src/source/postgres/pgoutput.rs:366-377 | A name read up to the first NUL has none in it, and putting it back gives the input |
| `PgOutputFormat.TakePutParts` | src/source/postgres/pgoutput.rs:254-275 | Reading tagged tuples to the end of an update gives back exactly the tuples put there |
| `PgOutputFormat.PutTakeTuple` | src/source/postgres/pgoutput.rs:338-364 | A tuple the reader accepts is well-formed, its encoding is what was read, and input was consumed |
| `PgOutputParser.PgOutputParser.ParseMessage` | src/source/postgres/pgoutput.rs:117-150 | Reports exactly what the readers say for every byte string, without failing on any, and remembers a relation exactly when one was announced |
| `PgOutputParser.PgOutputParser.ParseRelation` | src/source/postgres/pgoutput.rs:188-218 | Reads a relation message as the reader does, error for error |
| `PgOutputParser.PgOutputParser.ParseUpdate` | src/source/postgres/pgoutput.rs:250-286 | Loops over tagged tuples to the end of the payload; later tuples replace earlier ones; no new tuple is an error |
| `PgOutputParser.PgOutputParser.ParseTupleData` | src/source/postgres/pgoutput.rs:338-364 | The column loop reads the tuple the format describes: NULL and unchanged values become absent, text its bytes |
| `PgOutputParser.PgOutputParser.ParseTruncate` | src/source/postgres/pgoutput.rs:308-323 | The relation-id loop reads exactly the announced number of ids |
| `PgOutputParser.Cursor.ReadString` | src/source/postgres/pgoutput.rs:366-377 | Reads up to the first NUL, failing at the end of input or on invalid UTF-8 |
| `BatchedWrites.BatchedIsSequentialMinusRemoved` | src/destination/meilisearch/adapter.rs:141-205 | All puts then all removals equal the operations one by one, minus every id removed anywhere |
| `BatchedWrites.BatchedExactWhen` | src/destination/meilisearch/adapter.rs:141-205 | They are equal if and only if the last operation on every removed id is its removal |
| `MeilisearchAdapter.BatchMeansOneByOne` | src/destination/meilisearch/adapter.rs:222-294 | With the writes of an index succeeding, whatever events are not understood, it ends as if the events had been applied one by one across all indexes, minus the ids its group deletes; exactly so if and only if each such id ends deleted |
| `MeilisearchAdapter.DeleteThenCreateIsLost` | src/destination/meilisearch/adapter.rs:141-294 | A delete and then a create of one id in one batch: one by one the document is there, batched it is gone |
| `MeilisearchAdapter.ApplyAllAt` | src/destination/meilisearch/adapter.rs:252-290 | Whatever the order of the groups, exactly the indexes processed are up to date and the others as before |
| `MeilisearchAdapter.TotalsIgnoreOrder` | src/destination/meilisearch/adapter.rs:252-290 | The counts and the errors reported, as a multiset, do not depend on the order of the groups |
| `MeilisearchAdapter.NoFailureExactlyWhen` | src/destination/meilisearch/adapter.rs:252-290 | A call counts no failure if and only if every event was understood and every write it needed succeeded |
| `MeilisearchAdapter.OneByOnePerIndex` | src/destination/meilisearch/adapter.rs:226-249 | Applying events one by one across all indexes is, index by index, applying the events routed to that index |
| `MeilisearchAdapter.DeletesAreRemoved` | src/destination/meilisearch/batch_processor.rs:26-77 | The ids collected for deletion are exactly the ids the group's operations remove |
| `MeilisearchAdapter.UpsertsArePuts` | src/destination/meilisearch/batch_processor.rs:26-77 | Writing the collected documents is applying the group's puts in order |
| `MeilisearchAdapter.BatchProcessor.ProcessEvent` | src/destination/meilisearch/batch_processor.rs:26-38 | Each kind of event adds one upsert, one deletion, nothing, or an error that changes nothing |
| `MeilisearchAdapter.BatchProcessor.ProcessCdcEvent` | src/destination/meilisearch/batch_processor.rs:41-77 | The same for change events, with the three ways a delete can name no document |
| `MeilisearchAdapter.BatchProcessor.Clear` | src/destination/meilisearch/batch_processor.rs:80-83 | Empties both lists |
| `MeilisearchAdapter.Adapter.ApplyBatch` | src/destination/meilisearch/adapter.rs:141-205 | The index ends with the upserts then the deletes of the batch; an unavailable index changes nothing; the result counts each request's documents as written, or as failed plus its own error |
| `MeilisearchAdapter.Adapter.GroupByIndex` | src/destination/meilisearch/adapter.rs:226-249 | Every index has exactly the events routed to it, in order; the last position is that of the last routed event that has one |
| `MeilisearchAdapter.Adapter.ProcessEvents` | src/destination/meilisearch/adapter.rs:222-294 | For some order of the groups: all indexes are brought up to date and the result merges theirs in that order, with the last position; or the call fails because an index with work is unavailable, and each index is up to date or untouched |
| `Deduplication.WindowIsExact` | src/delivery/deduplication.rs:72-105 | In every guarded run the key set is exactly the queue with all counts 1, the queue is the last W accepted keys, and a key is rejected if and only if it is among them |
| `Deduplication.AcceptancesAreSpaced` | src/delivery/deduplication.rs:72-105 | Between two acceptances of one key at least W different other keys were accepted |
| `Deduplication.OfferAllKeepsLast` | src/delivery/deduplication.rs:72-105 | From any tracking window, a run keeps exactly the last keys of what was there and what it accepted |
| `Deduplication.OfferedKeysAccountedFor` | src/delivery/deduplication.rs:72-105 | Every key offered in a run was known from the start or is accepted in it |
| `Deduplication.NewAgainExactlyWhen` | src/delivery/deduplication.rs:72-105 | Different keys offered twice with other keys in between: a key accepted the first time is accepted again if and only if more keys have been accepted since than the window holds |
| `Deduplication.AllNewAgainExactlyWhen` | src/delivery/deduplication.rs:72-105 | All of them are accepted again if and only if they, the keys accepted in between and the known keys at the front that are accepted again are together more than the window holds |
| `Deduplication.AddSticksRepeated` | src/delivery/deduplication.rs:77-105 | One unguarded add makes a key outlive its queue entry if and only if it evicts a key that was added more than once |
| `Deduplication.StuckForever` | src/delivery/deduplication.rs:77-105 | Such a key is reported as a duplicate for ever, whatever is added |
| `Deduplication.RepeatedAddSticks` | src/delivery/deduplication.rs:77-105 | The shortest run in which that happens |
| `Deduplication.EventDeduplicator.AddKey` | src/delivery/deduplication.rs:77-105 | The queue, the counts and the statistics after an add |
| `Deduplication.EventDeduplicator.Clear` | src/delivery/deduplication.rs:108-111 | Empties the window and keeps the statistics |
| `CheckpointStore.Store.Save` | src/checkpoint/storage.rs:44-49 | Replaces the checkpoint of its task, or fails and changes nothing |
| `CheckpointStore.Store.List` | src/checkpoint/storage.rs:63-66 | Lists every stored checkpoint once, in any order |
| `TransactionalCheckpoint.TransactionalCheckpoint.BeginTransaction` | src/delivery/checkpoint.rs:36-65 | Adds an unprepared transaction, or refuses an id already open |
| `TransactionalCheckpoint.TransactionalCheckpoint.PrepareTransaction` | src/delivery/checkpoint.rs:68-112 | Stores the position uncommitted, overwriting the task's checkpoint; a failed save answers false and changes nothing |
| `TransactionalCheckpoint.TransactionalCheckpoint.CommitTransaction` | src/delivery/checkpoint.rs:115-161 | Marks the stored checkpoint committed and drops the transaction, with each error case leaving the state as it was |
| `TransactionalCheckpoint.TransactionalCheckpoint.RollbackTransaction` | src/delivery/checkpoint.rs:164-188 | Deletes a prepared checkpoint and drops the transaction |
| `TransactionalCheckpoint.TransactionalCheckpoint.CleanupStaleTransactions` | src/delivery/checkpoint.rs:191-219 | Collecting stale ids and sweeping them one by one is one simultaneous cleanup: exactly the fresh transactions stay, exactly the swept prepared tasks lose their checkpoint |
| `TransactionalCheckpoint.BeginThenPrepare` | src/delivery/checkpoint.rs:36-112 | What a begin followed by a prepare stores, and that a failed prepare leaves the begun state |
| `TransactionalCheckpoint.FinishLast` | src/delivery/checkpoint.rs:115-188 | Undoing the last prepared transaction leaves the others and removes the task's checkpoint; committing it marks exactly that checkpoint |
| `TransactionalCheckpoint.BegunIsTakenBack` | src/delivery/checkpoint.rs:164-188 | Rolling back a transaction that was only begun leaves no trace |
| `TransactionalCheckpoint.RolledBackIsGone` | src/delivery/checkpoint.rs:164-188 | After a rollback the id is not open and a second rollback finds nothing |
| `TransactionalCheckpoint.KeepIsFresh` | src/delivery/checkpoint.rs:191-219 | Removing the stale ids keeps exactly the transactions that are not stale |
| `CheckpointSafety.RestartsFromLastCommit` | src/delivery/checkpoint.rs:222-235 | After every run of begins, prepares, timed-out saves, commits, rollbacks and cleanups with storage failures, with at most one prepared transaction per task, a task restarts from nothing or from its most recent commit |
| `CheckpointSafety.CommitAgreesExactlyWhen` | src/delivery/checkpoint.rs:115-161 | A commit keeps that agreement if and only if the stored position is the transaction's own |
| `CheckpointSafety.TwoPreparedCommitTheWrongPosition` | src/delivery/checkpoint.rs:68-161 | Two prepared transactions of one task: the first commit marks the second's position committed |
| `CheckpointSafety.TimedOutSaveCommitsTheWrongPosition` | src/delivery/transaction.rs:218-240 | So does a save that times out while another transaction of the task is prepared |
| `CheckpointSafety.CleanupSafe` | src/delivery/checkpoint.rs:191-219 | A stale cleanup keeps every remaining prepared transaction's checkpoint in the store |
| `TwoPhaseCommit.TwoPhaseCommit.PrepareTransaction` | src/delivery/transaction.rs:80-99 | Only a started record becomes prepared, with its position |
| `TwoPhaseCommit.TwoPhaseCommit.CommitTransaction` | src/delivery/transaction.rs:102-129 | Only a prepared record becomes committed; its removal is scheduled |
| `TwoPhaseCommit.TwoPhaseCommit.CleanupStaleTransactions` | src/delivery/transaction.rs:146-165 | Exactly the stale uncommitted records go |
| `TwoPhaseCommit.TransactionCoordinator.PrepareTransaction` | src/delivery/transaction.rs:205-247 | Begins and prepares the checkpoint side first; a failed or timed-out save answers false and leaves the record started; a timed-out save may still have reached the store |
| `TwoPhaseCommit.TransactionCoordinator.CommitTransaction` | src/delivery/transaction.rs:250-262 | The checkpoint side first; its failure leaves both sides as they were |
| `TwoPhaseCommit.TransactionCoordinator.RollbackTransaction` | src/delivery/transaction.rs:265-279 | Both sides are undone; a failed checkpoint rollback does not stop the record's removal |
| `TwoPhaseCommit.TransactionCoordinator.CleanupRound` | src/delivery/transaction.rs:282-303 | Each side is cleaned with its own clock reading |
| `TwoPhaseCommit.TaskOfUndoesBegin` | src/delivery/transaction.rs:192-212 | The task id read back from a transaction id is the one it was begun for if and only if that has no dash |
| `TwoPhaseCommit.DashedTaskIsCut` | src/delivery/transaction.rs:192-212 | A task id for which it is not |
| `CoordinatorSafety.PreparedRecordsAreCovered` | src/delivery/transaction.rs:192-303 | In every run with a monotone clock in which no cleanup finds a transaction stale whose prepared record it does not, a prepared record has a prepared checkpoint transaction of the same id |
| `CoordinatorSafety.CleanupUncoversExactlyWhen` | src/delivery/transaction.rs:282-303 | One cleanup with two clock readings keeps every prepared record its transaction if and only if each transaction stale at the second has a record stale at the first |
| `CoordinatorSafety.OneReadingSpares` | src/delivery/transaction.rs:282-303 | With equal readings that is always so: a transaction is never older than its record |
| `CoordinatorSafety.CleanupCanUncover` | src/delivery/transaction.rs:282-303 | A cleanup between whose readings a second passes drops the transaction of a prepared record |
| `CoordinatorSafety.CommitsTogetherExactlyWhen` | src/delivery/transaction.rs:250-262 | A commit changes both sides or neither if and only if a prepared transaction with its checkpoint stored and a working storage comes with a prepared record |
| `CoordinatorSafety.CommitsAreAtomic` | src/delivery/transaction.rs:192-303 | In every run in which an id is begun once, prepared only while its record is started, and separated by no cleanup, a commit of that id changes both sides or neither, whatever happens to other ids |
| `CoordinatorSafety.CleanupSeparatesExactlyWhen` | src/delivery/transaction.rs:282-303 | After a cleanup the commit of a prepared transaction changes both sides or neither if and only if the record being stale at the first reading means the transaction is stale at the second |
| `CoordinatorSafety.CleanupCanSeparate` | src/delivery/transaction.rs:146-165 | A cleanup between the two creation times drops one side only, and the commit that follows changes one side |
| `AtLeastOnceDelivery.BatchStep.ProcessBatch` | src/pipeline/orchestrator.rs:1531-1717 | For every state, reply and failure the whole new state (window, both tables, store, inbox, resume position) is the one specified, and the batch is kept if and only if the call fails |
| `AtLeastOnceDelivery.DeliveryProtocol` | src/pipeline/orchestrator.rs:1585-1717 | When events are sent the stored checkpoint carries the batch's last position uncommitted; after a prepare without full delivery neither table holds the id and the task has no stored checkpoint; a fully delivered batch succeeds if and only if its commit is stored and two-phase commit is off; a call succeeds with nothing sent if and only if the last event has no position or the batch starts with only duplicates |
| `AtLeastOnceDelivery.DeliveriesCarryCheckpoint` | src/pipeline/orchestrator.rs:1585-1604 | In every run of batches and cleanups each delivery is the survivors of one of its batches, in order, and finds the last position of that batch stored and uncommitted |
| `AtLeastOnceDelivery.OpenAfterExactlyWhen` | src/pipeline/orchestrator.rs:1531-1717 | A batch leaves its transaction open if and only if it held only duplicates, a failed save was not rolled back, or the commit failed |
| `AtLeastOnceDelivery.LeftoverBlocksEveryBatch` | src/delivery/mod.rs:95-101 | Without two-phase commit, while a transaction with the empty id is open no batch of any task is sent, and it stays open until a cleanup finds it stale |
| `AtLeastOnceDelivery.DuplicatesBlockTheNextBatch` | src/pipeline/orchestrator.rs:1579-1583 | After a batch of duplicates the next batch fails, whatever it holds |
| `AtLeastOnceDelivery.BatchStep.Deduplicate` | src/pipeline/orchestrator.rs:1559-1577 | The survivors are the events whose key was new in turn; all keys of the batch are marked before anything is sent |
| `AtLeastOnceDelivery.BatchStep.SendPrepared` | src/pipeline/orchestrator.rs:1602-1717 | With the checkpoint stored: what is sent, and both tables and the store after a rollback, a commit and a failed commit |
| `AtLeastOnceDelivery.BatchStep.Finish` | src/pipeline/orchestrator.rs:1608-1624 | The commit of both sides succeeds only without two-phase commit, although the checkpoint is committed either way |
| `AtLeastOnceDelivery.NoSurvivors` | src/pipeline/orchestrator.rs:1559-1583 | No event survives if and only if every key is already in the window, and then the window is unchanged |
| `AtLeastOnceDelivery.RunOffers` | src/pipeline/orchestrator.rs:1559-1577 | A run of batches and cleanups does to the shared window what offering the keys of its started batches one by one does, and keeps it exact |
| `AtLeastOnceDelivery.RetrySendsNothingExactlyWhen` | src/pipeline/orchestrator.rs:1559-1583 | A batch offered again after a first try and other batches sends nothing if and only if the window still holds all its keys |
| `AtLeastOnceDelivery.RetryOfUnseenBatchSendsNothing` | src/pipeline/orchestrator.rs:1559-1583 | A batch of unseen keys that the window can hold, with what other batches let through in between, is never sent a second time |
| `AtLeastOnceDelivery.RetryOfUnseenBatch` | src/pipeline/orchestrator.rs:1559-1583 | Of different unseen keys the second try lets all events through if they, with what other batches let through in between, are more than the window holds, and otherwise none |
| `AtLeastOnceDelivery.OwedSurviveExactlyWhen` | src/pipeline/orchestrator.rs:1559-1583 | Of different keys, seen or not, the second try lets every event through that the first did if and only if those, what other batches let through in between and the duplicates at the front that are let through again are more than the window holds |
| `AtLeastOnceDelivery.RetrySendsOwedExactlyWhen` | src/pipeline/orchestrator.rs:1531-1717 | After any failed first try, with events appended and other batches and cleanups in between: every owed event is handed over by the second try if and only if that gets as far as sending and that many keys exceed the window |
| `AtLeastOnceDelivery.RetryWithMoreEvents` | src/pipeline/orchestrator.rs:1284-1330 | For unseen keys the second try hands over exactly the whole batch and the new appended events when the window cannot hold them, and otherwise the new appended events alone, whose later position it commits |
| `AtLeastOnceDelivery.RetryAfterFailure` | src/pipeline/orchestrator.rs:1531-1717 | For any keys the second try of a failed batch with events appended hands something over if and only if the window no longer holds all keys and nothing fails; while it holds them it succeeds with nothing sent |
| `AtLeastOnceDelivery.OneEventIsLost` | src/pipeline/orchestrator.rs:1531-1717 | One event whose first hand-over fails is never sent, and the second try succeeds |
| `AtLeastOnceDelivery.PartOfABatchIsLost` | src/pipeline/orchestrator.rs:1531-1717 | A window of three holding x, b, y and a batch a, b, c: the first try owes a and c and fails, the second sends exactly b and succeeds |
| `AtLeastOnceDelivery.FailThenRetry` | src/pipeline/orchestrator.rs:1431-1454 | A failed batch of unseen keys that fits the window is kept; its second try with events appended clears it, reports success, and hands over only what is new among those |
| `MemoryMonitor.RunAccounted` | src/pipeline/memory_monitor.rs:100-180 | In every interleaving of any number of requests, roll-backs and drops, each counter is the sum of live and not yet rolled back bytes, modulo the word size |
| `MemoryMonitor.AccountingIsExact` | src/pipeline/memory_monitor.rs:100-180 | While sums stay below the word size the counters are exact, live guards never exceed a limit, and no subtraction underflows |
| `MemoryMonitor.AtRest` | src/pipeline/memory_monitor.rs:100-195 | With nothing in flight the event count is the number of live queue guards and the counters are their bytes |
| `MemoryMonitor.AdmitsOverLimitExactlyWhenWrapping` | src/pipeline/memory_monitor.rs:100-147 | A request of either kind is admitted over the limit if and only if the addition wraps to a value within it |
| `MemoryMonitor.WrappingIsReached` | src/pipeline/memory_monitor.rs:100-113 | A run from fresh counters in which that happens |
| `MemoryMonitor.Monitor.TrackEventMemory` | src/pipeline/memory_monitor.rs:100-123 | The atomic steps of one request; a refusal leaves the counters as they were |
| `MemoryMonitor.Monitor.TrackCheckpointMemory` | src/pipeline/memory_monitor.rs:126-147 | The same for checkpoint memory |
| `MemoryMonitor.Monitor.ReleaseMemory` | src/pipeline/memory_monitor.rs:168-180 | Dropping a guard is its two atomic steps |
| `ParallelProcessor.EventsAreConserved` | src/pipeline/parallel_processor.rs:120-243 | In every interleaving of enqueue, drain, process, send, steal and hand-over, with stale sizes, every event is in exactly one place as often as it was enqueued |
| `ParallelProcessor.PoppedIsReversedSuffix` | src/pipeline/parallel_processor.rs:142-162 | What a steal takes is the end of the queue, reversed |
| `ParallelProcessor.SelectSplits` | src/pipeline/parallel_processor.rs:165-244 | Processing a drained batch puts each event on exactly one side |
| `ParallelProcessor.OutputsMatch` | src/pipeline/parallel_processor.rs:165-244 | One output for each event that passes, in the order of the queue |
| `ParallelProcessor.PlanShifts` | src/pipeline/parallel_processor.rs:367-411 | Nothing is moved if and only if all sizes are within 100 of each other; else half the difference goes from the largest queue to the smallest |
| `ParallelProcessor.BalanceStepProgress` | src/pipeline/parallel_processor.rs:367-411 | Each move strictly lowers the sum of squared sizes |
| `ParallelProcessor.BalanceStepWithin` | src/pipeline/parallel_processor.rs:367-411 | No move raises the maximum or lowers the minimum |
| `ParallelProcessor.BalancingSettles` | src/pipeline/parallel_processor.rs:367-411 | Repeated balancing stops within the sum of squares, balanced, with no event lost and no extreme worsened |
| `ParallelProcessor.TableProcessor.StealEvents` | src/pipeline/parallel_processor.rs:142-162 | Pops up to half of the queue off its end |
| `ParallelProcessor.TableProcessor.WorkerRound` | src/pipeline/parallel_processor.rs:165-244 | Drains up to ten events, sends what the pipeline makes of them as one batch in queue order unless it is empty, and discards a batch for a closed channel |
| `ParallelProcessor.WorkStealingCoordinator.BalanceWork` | src/pipeline/parallel_processor.rs:367-411 | One round over the registered queues |
| `ParallelProcessor.FindEnds` | src/pipeline/parallel_processor.rs:380-387 | The ends of a stable sort by size: the first smallest and the last largest queue |
| `CheckpointManager.RunRefines` | src/checkpoint/manager.rs:258-413 | Every run of saves, deletes and flushes refines the same run on one map, whichever saves fail |
| `CheckpointManager.FlushInvisible` | src/checkpoint/manager.rs:374-413 | A flush never changes the map and leaves pending exactly the tasks whose save failed |
| `CheckpointManager.FailedDelete` | src/checkpoint/manager.rs:313-323 | A failed delete shows if and only if the task has a stored checkpoint, which then comes back into view |
| `CheckpointManager.CheckpointManager.SaveCheckpoint` | src/checkpoint/manager.rs:273-291 | A save goes to pending and flushes a full batch |
| `CheckpointManager.CheckpointManager.LoadCheckpoint` | src/checkpoint/manager.rs:293-311 | A load reads the one map; a failed store read hides only what is not pending |
| `CheckpointManager.CheckpointManager.ListCheckpoints` | src/checkpoint/manager.rs:325-349 | A listing has every checkpoint of the one map once |
| `CheckpointManager.CheckpointManager.FlushAll` | src/checkpoint/manager.rs:374-413 | The flush loop saves all that can be saved and keeps exactly the rest |
| `CheckpointManager.CheckpointManager.CleanupCheckpoints` | src/checkpoint/manager.rs:132-204 | With a limit of at least one, cleanup restricts the one map to the active tasks; with zero it empties it |
| `CheckpointManager.SaveThenCleanUp` | src/checkpoint/manager.rs:132-204 | An active task keeps its checkpoint through a cleanup if and only if the limit is not zero |
| `Positions.LsnOrderIsLogOrder` | src/checkpoint/manager.rs:419-440 | On well-formed numbers both comparisons are the order of hi*2^32+lo |
| `Positions.LsnOrderIsStrictTotal` | src/delivery/deduplication.rs:134-156 | A strict total order on log positions, on which `is_after` and `compare_lsn` agree |
| `Positions.ComparisonsAgreeExactlyWhen` | src/delivery/deduplication.rs:134-156 | They agree if and only if both texts have two parts or the text order does not say greater |
| `Positions.NotAfterTransitive` | src/checkpoint/manager.rs:419-453 | Not-after is transitive on comparable positions of every kind |
| `Positions.EarliestPosition` | src/pipeline/orchestrator.rs:653-691 | The loop over the loaded checkpoints, skipping tasks without one |
| `Positions.ResumeIsEarliest` | src/pipeline/orchestrator.rs:653-691 | The resume position is one of the loaded ones and, among comparable ones, after none of them |
| `Positions.ResumesEarliestExactlyWhen` | src/pipeline/orchestrator.rs:653-691 | It is after none of them in every loading order if and only if all are comparable or none is after another |
| `Positions.MalformedNumberBreaksResume` | src/pipeline/orchestrator.rs:653-691 | One malformed number between two others makes the later one the resume position |
| `ArrayLiteral.DecodeUndoesPrintExactlyWhen` | src/source/postgres/types.rs:155-234 | Decoding a printed text array gives its elements back if and only if every element survives parsing and the last is not the empty string |
| `ArrayLiteral.ElementSurvivesExactlyWhen` | src/source/postgres/types.rs:198-234 | An element survives if and only if it cannot be trimmed, is not the word NULL and does not begin and end with a double quote |
| `ArrayLiteral.DecodeStopsExactlyWhen` | src/source/postgres/types.rs:155-234 | Decoding a printed text array stops with a slice out of range if and only if some element is a lone double quote once trimmed |
| `ArrayLiteral.LoneQuoteFails` | src/source/postgres/types.rs:198-234 | The element that is one double quote does so |
| `ArrayLiteral.LastEmptyElementIsDropped` | src/source/postgres/types.rs:190-193 | An empty string at the end of an array is lost |
| `ArrayLiteral.ElementTypeRank` | src/source/postgres/types.rs:126-152 | Element types rank strictly below their array types, so the mutual recursion ends |
| `ArrayLiteral.HighScalarsAreTakenForArrays` | src/source/postgres/types.rs:59-152 | A scalar type is decoded as such if and only if its number is below 1000, or the text is not in braces and is its own scalar value; from 1000 on, text in braces is decoded as an array |
| `ArrayLiteral.ObjectIsTakenForArray` | src/source/postgres/types.rs:59-152 | A JSONB object of one field is decoded as an array holding its text without the quotes |
| `ArrayLiteral.ScanConcat` | src/source/postgres/types.rs:170-189 | Scanning goes on where it stopped, and once failed it stays failed |
| `ArrayLiteral.DecodeArrayLoop` | src/source/postgres/types.rs:155-195 | The scanning loop computes the decoder's specification, error for error |
| `CircuitBreaker.CountersAreSuffixes` | src/recovery/circuit_breaker.rs:66-84 | In every trace the counters are the failing and succeeding suffixes of the outcomes since the last reset, as 32-bit words |
| `CircuitBreaker.SuffixIsLongest` | src/recovery/circuit_breaker.rs:66-84 | What a suffix length means: all equal, and no longer run |
| `CircuitBreaker.WordIsModular` | src/recovery/circuit_breaker.rs:66-84 | A 32-bit counter is the count modulo 2^32 |
| `CircuitBreaker.ClosedBelowThreshold` | src/recovery/circuit_breaker.rs:174-206 | Closed means fewer failures in a row than the threshold |
| `CircuitBreaker.FailureOpensExactlyWhen` | src/recovery/circuit_breaker.rs:174-206 | A failure opens the circuit if and only if it is half open or the failures in a row reach the threshold |
| `CircuitBreaker.ClosingTakesSuccesses` | src/recovery/circuit_breaker.rs:142-171 | Closing on its own takes a success that ends a long enough run of successes |
| `CircuitBreaker.OpenAdmitsNothing` | src/recovery/circuit_breaker.rs:105-139 | From opening until the timeout no request is admitted, whatever outcomes arrive |
| `CircuitBreaker.HalfOpenAdmitsAtMost` | src/recovery/circuit_breaker.rs:105-139 | A half-open episode admits at most one request more than the maximum |
| `CircuitBreaker.HalfOpenAdmitsThatMany` | src/recovery/circuit_breaker.rs:105-139 | It can admit that many, and then no more |
| `CircuitBreaker.CircuitBreaker.Allow` | src/recovery/circuit_breaker.rs:105-139 | Admission, the uncounted step to half open included |
| `CircuitBreaker.CircuitBreaker.Failed` | src/recovery/circuit_breaker.rs:174-206 | A failure in each of the three states |
| `CircuitBreaker.CircuitBreaker.Succeeded` | src/recovery/circuit_breaker.rs:142-171 | A success, and the reset when it closes the circuit |
| `CircuitBreaker.CircuitBreaker.ForceState` | src/recovery/circuit_breaker.rs:214-236 | Forcing each state |
| `DeadLetterQueue.RedisRefinesMap` | src/dlq/redis_storage.rs:45-246 | In every run in which no id changes task, the three Redis indexes agree and the entries are the in-memory map |
| `DeadLetterQueue.RedisCountsAgree` | src/dlq/redis_storage.rs:155-246 | A clear reports the same count and the index of all entries has the map's size |
| `DeadLetterQueue.StoreAgreesExactlyWhen` | src/dlq/redis_storage.rs:45-74 | A store keeps the indexes in agreement if and only if the id is new or stays with its task |
| `DeadLetterQueue.MovedEntryBreaksIndexes` | src/dlq/redis_storage.rs:45-74 | An entry stored under one task and then another |
| `DeadLetterQueue.Tally` | src/dlq/mod.rs:156-193 | The tally counts each task and first error line, and finds the oldest and newest entry |
| `DeadLetterQueue.RedisDlqStorage.StoreEntry` | src/dlq/redis_storage.rs:45-74 | The entry and its place in both sorted sets |
| `DeadLetterQueue.RedisDlqStorage.RemoveEntry` | src/dlq/redis_storage.rs:124-148 | Removes the entry from all three, through the task it is stored under |
| `DeadLetterQueue.RedisDlqStorage.ClearTaskEntries` | src/dlq/redis_storage.rs:204-246 | Deletes every member of the task's index everywhere and reports how many |
| `DeadLetterQueue.RedisDlqStorage.GetStatistics` | src/dlq/redis_storage.rs:155-202 | With agreeing indexes, the statistics of the stored entries |
| `DeadLetterQueue.InMemoryDlqStorage.GetByTask` | src/dlq/mod.rs:117-137 | The oldest entries of the task in order, at most the limit |
| `DeadLetterQueue.InMemoryDlqStorage.ClearTaskEntries` | src/dlq/mod.rs:195-201 | Removes the task's entries and reports how many |
| `DeadLetterQueue.DeadLetterQueue.ReprocessEntries` | src/dlq/mod.rs:264-305 | The fetched entries are the oldest of the task; exactly those that went through, and the failing one if only its removal failed, are sent, in order; exactly those that went through are gone; each fetched entry is still stored or was sent |
| `FieldMapper.OrderIsInvisibleExactlyWhen` | src/pipeline/mapper.rs:72-166 | The mapped fields are the same for every order of the mappings if and only if no two write different values to one target that no prefixed field overwrites |
| `FieldMapper.SharedTargetShowsOrder` | src/pipeline/mapper.rs:72-166 | Two fields renamed to one: the result depends on the order |
| `FieldMapper.DistinctTargetsSuffice` | src/pipeline/mapper.rs:72-166 | Pairwise distinct targets make the order invisible |
| `FieldMapper.ResultAt` | src/pipeline/mapper.rs:72-166 | Each field of the result in closed form: a prefixed field beats a mapping, a mapping beats an included field, and nothing else is there |
| `FieldMapper.WrittenIsLast` | src/pipeline/mapper.rs:82-130 | A mapped field is there if and only if a mapping writes it, with the value of the last one that does |
| `FieldMapper.MapFields` | src/pipeline/mapper.rs:72-166 | The loops over both hash maps compute the result for some order of the mappings |
| `FieldMapper.ExtractNestedLoop` | src/pipeline/mapper.rs:169-196 | The walk along a dotted path through objects and arrays |
| `FieldMapper.MapEvent` | src/pipeline/mapper.rs:20-69 | Change events and full-sync documents of a configured table are renamed and mapped, all else passes unchanged |
| `AdaptiveBatching.NewSizeBoundedAndAntitone` | src/pipeline/adaptive_batching.rs:186-229 | The new size lies within its bounds, and raising any latency of the window never raises it |
| `AdaptiveBatching.SizeSteersTowardTarget` | src/pipeline/adaptive_batching.rs:196-229 | The size does not fall while the target is at least 0.8 of the average and does not rise while it is at most 1.2 of it |
| `AdaptiveBatching.GrowsExactlyWhen` | src/pipeline/adaptive_batching.rs:70-229 | The size grows if and only if at most 0.8 percent of the memory is used, it is below the maximum, and the push of the latency is worth at least one event |
| `AdaptiveBatching.HighPressureShrinks` | src/pipeline/adaptive_batching.rs:196-229 | While more than 0.8 percent is used every call takes at least one event off, down to the minimum, whatever the latencies |
| `AdaptiveBatching.OnePercentShrinks` | src/pipeline/adaptive_batching.rs:70-229 | With one percent used a batch of 100 shrinks to 80 where the latency asks for 150 |
| `AdaptiveBatching.AverageLatency` | src/pipeline/adaptive_batching.rs:186-193 | The summing loop |
| `AdaptiveBatching.CalculateNewBatchSize` | src/pipeline/adaptive_batching.rs:196-229 | The code's branches compute the new size |
| `AdaptiveBatching.TableState.RecordMetrics` | src/pipeline/adaptive_batching.rs:161-183 | The window is the last recorded latencies; success and failure runs are counted |
| `AdaptiveBatching.TableState.GetBatchSize` | src/pipeline/adaptive_batching.rs:106-158 | The size changes only after the interval and with half a window of latencies |

## Left out

- Network, database, Redis and Meilisearch clients, the HTTP API, metrics, logging, configuration loading
  and health checks: their effects appear as map updates that may fail. A failed storage call is taken to
  have changed nothing, except the timed-out save of a prepare, which may have reached the store.
- The asynchronous runtime, timers and channels: replaced by atomic steps and an explicit clock. The
  semaphores of the worker loop are not modelled. `EventsAreConserved` tracks events by the value that was
  enqueued; what the pipeline makes of them is in `WorkerRound` and `OutputsMatch`.
- The circuit breaker of src/destination/circuit_breaker.rs (a wrapper over an external crate) and the text
  parser of src/source/postgres/wal_consumer.rs.
- The streaming and two-phase variants of the replication protocol, and binary columns: the parser does not
  know them and rejects or ignores them, as the model does. Allocation ahead of reading the counts is not modelled.
- Configuration defaults, plain getters, health aggregation and task status flags: easy members.
- The manager around the adaptive batch sizes (`per_table_optimization` off returns the default size) and
  around the circuit breakers: maps from name to the state modelled here.
- The periodic persistence loop that writes to the same storage as the checkpoint transactions.
- The import, swap and statistics operations of the search adapter: requests without branching state.
- ProcessEvents: after a failed call it does not say which groups went through; how the service finds the id
  of a document is the parameter `idOf`, and errors are kinds, not texts.
- RestartsFromLastCommit: assumes no other writer of the task's checkpoint, and at most one prepared
  transaction per task; `CommitAgreesExactlyWhen` says what each commit needs beyond that.
- PreparedRecordsAreCovered: needs that no cleanup splits its verdicts; `CleanupUncoversExactlyWhen` says that
  this is what it takes, and `CleanupCanUncover` shows that the code can.
- CommitsAreAtomic: needs the discipline on its id; `CommitsTogetherExactlyWhen` and
  `CleanupSeparatesExactlyWhen` say what each commit and each cleanup needs.
- RetrySendsOwedExactlyWhen: is about batches of different keys none of which another batch offers in between;
  `RetryAfterFailure` has neither assumption. All events without a table share one key.
- ProcessBatch: is one step of a run, so batches of different tasks do not overlap in time; it does not model
  the dead letters a partial failure adds, whose entries pair errors with events by position; the
  deduplication key holds the JSON value whose text the code stores.
- AccountingIsExact: assumes sums below 2^64; `RunAccounted` holds without that, modulo 2^64.
- CleanupCheckpoints: runs with no other command in between and with storage reads and deletes succeeding.
- RunRefines: assumes deletes succeed; `FailedDelete` says what a failed one changes.
- RedisRefinesMap: does not model `get_by_task` of the Redis storage (its order by score, its default limit of
  1000 and its underflow at a limit of 0), nor its single-command failures inside a transaction.
- ReprocessEntries: runs against the in-memory storage.
- DecodeUndoesPrintExactlyWhen: is about one-dimensional text arrays; nested arrays are decoded by the same
  scanner, and other element types by library parsing.
- DecodeArrayLoop: what library code makes of floats and JSON texts is a parameter (`Library`).
- BatchMeansOneByOne: assumes the writes of the index succeed; `ApplyBatch` and `ProcessEvents` cover failures.
  Routing compares names in lower case for ASCII letters only.
- ResultAt: texts of arrays, objects and numbers with a fraction are a parameter (`render`).
- NewSizeBoundedAndAntitone: is in real arithmetic; rounding of floating-point factors, and the wrap-around
  of the 64-bit latency sum, are not modelled.
- OpenAdmitsNothing: excludes forcing the state, which is an operator's override.
