# The gh-ost migration protocol, verified

gh-ost changes the schema of a MySQL table without blocking its users. It creates a ghost table with the new
schema, copies the original into it chunk by chunk, replays the original's binary log onto it meanwhile, and at
last swaps the two. This project models that protocol in Dafny and proves what it is for, the table that is swapped
in being the projected original, row for row, together with the exact conditions under which the code achieves it.

Verify the whole project with `dafny verify dfyconfig.toml`.

## How it fits together

The files build on one another.

- **Queries.** `range_comparison.dfy` and `chunk_iteration.dfy` model the range queries as conditions with
  positional placeholders, together with an evaluator, and prove that they select key intervals in lexicographic
  order and cut the table into chunks. `column_types.dfy`, `table_events.dfy`, `dml_queries.dfy` and
  `dml_replay.dfy` do the same for the DML statements: what they do to the ghost table is what the row event did to
  the original, seen through the column projection. `dml_apply.dfy` runs batches of them in transactions, and
  `chunk_copy.dfy` evaluates the statement of a chunk copy. `shared_columns.dfy` chooses the columns.
- **Convergence.** `convergence.dfy` is a state machine of application transactions (which reach the binary log
  before their changes become visible), event replay with its rollbacks, and chunk copies; it says of every step
  exactly when it is safe. `row_copy.dfy` adds the schedule of chunks, and `row_copy_possible.dfy` its runs on any table.
- **Queue and drain.** `apply_queue.dfy` is the consumer of the apply queue; `drain.dfy` is the challenge that
  travels through the binary log and the queue to tell that everything before it has been applied.
- **Cut-over.** `cut_over.dfy` composes the drain with the three goroutines of the atomic cut-over, their
  channels, the lock session, the sentry table and the RENAME; `cut_over_invariant.dfy` is the invariant of all
  that, and `cut_over_safety.dfy` says what it guarantees. `cut_over_channels.dfy` proves that nobody blocks for
  ever, `cut_over_failure.dfy` says what an error means, `cut_over_runs.dfy` builds runs from any start,
  `cut_over_possible.dfy` says from which starts the cut-over can succeed, `cut_over_release.dfy` what follows the failure
  of a statement, and `table_names.dfy` is about the two-step swap and the rollback.
- **The whole.** `migration.dfy` runs row copy, replay and cut-over together. `Migration.SwapInstallsProjection` is
  the main result of the project, and `migration_possible.dfy` builds a run that meets its hypotheses from any start.
  `row_migration.dfy` instantiates it with actual rows, statements and batches, and `migration_runs.dfy`, on the steps of
  `row_copy_runs.dfy`, gives two runs that end with a wrong table because one step is not safe.
- **Streaming.** `binlog_order.dfy` orders binary log coordinates, `binlog_stream.dfy` says what a server
  sends to a connection, and `binlog_streaming.dfy` is the reader with its reconnects.
- **Around it.** `alter_parser.dfy` is the tokenizer and quote sanitizer of the ALTER statement, `topology.dfy` the
  search for the master. `key_order.dfy`, `decimals.dfy` and `wrappers.dfy` are shared.

Code that changes things step by step is modelled by methods and classes; each is proved against a specification
function, and the lemmas are about that function. The goroutines of the cut-over and the concurrent parts of row
copy are state machines, one action for each step that others can observe. Every induction is written out: automatic
induction is turned off wherever the verifier would use it.

## What is assumed

Of the server: a pending RENAME is resolved as soon as the table lock goes, ahead of any waiting DML or DROP; RENAME
is all-or-nothing and fails if a target name exists, and it waits for open transactions; a dead session releases its
locks; `lock in share mode` waits for rows with uncommitted changes; one statement sees one state of the table; a
failed commit has changed nothing.

Of the migration: the columns of the unique key are not renamed, hold no NULL and are compared as a total order;
unique keys and column values are integers standing for values in collation order; names of binary log files keep
their width; checking for the sentry table and dropping it are one step.

The theorems about whole migrations are about runs of safe steps. All steps are safe but two kinds, and of these
`Convergence.StepExact` says exactly when they are: the replay of a key-changing update that a rolled-back attempt has
already built is safe if the ghost table has no row under the old key, and a plain query of row copy is safe if it
finds no row missing that an early transaction puts there, one that was logged before the listener was added and is not
visible yet. The code ensures neither; the next section gives a run for each.

## What was found on the way

- When main gives up waiting for the RENAME to show up (`go/logic/migrator.go:694-698`) and the rename session has
  not issued it yet, a late RENAME can still commit after the sentry and the lock are gone, and lose a write. This
  is the one exception to the safety of the cut-over. `CutOverSafety.SwapIsSafe` proves safety outside it;
  `CutOverSafety.GivingUpEarlyCanLoseAWrite` proves that every such state can lose a write, and
  `CutOverRuns.CutOverCanLoseAWrite` that such a state is reached.
- `doc/cut-over.md:13` says that a failed cut-over returns to the phase before it. The code can also report an error
  although the tables were swapped, in a run from the start and without giving up early
  (`CutOverFailure.CutOverCanFailSwapped`); so it can from every state in which main fails while the RENAME waits
  behind the lock (`CutOverFailure.FailingAfterTheRename`). Once main has failed, the tables can end up swapped if and
  only if the RENAME has gone through, or waits or is still to be issued and the sentry table is gone or can still be
  dropped (`CutOverFailure.ErrorMeansNotSwappedExactly`). In particular they stay as they were if main fails before
  the rename session has started (`CutOverFailure.FailingBeforeTheRename`).
- If the transaction of the rename session cannot begin (`go/logic/applier.go:897-900`), main waits for ever
  (`CutOverChannels.FailedBeginHangsMain`, and `CutOverRuns.CutOverCanHang` for a run that gets there); otherwise it
  never does. The table lock is released all the same (`CutOverRelease.RenameFailureReleasesTheLock`).
- A table under the old name that is not gh-ost's own is never dropped (`go/logic/applier.go:759-761`), so it blocks every
  attempt (`CutOverPossible.ForeignTableIsKept`). Nothing else that earlier attempts leave behind does
  (`CutOverPossible.CanSucceedExactly`).
- A batch whose transaction fails is retried with the same events (`go/logic/migrator.go:1223-1228`), and a key-changing
  update is then rebuilt as its insert alone, because the builder has overwritten the event
  (`go/logic/applier.go:978-981`). If the ghost table holds the row under the old key, that row stays, and the swap
  installs it: `MigrationRuns.MigrationCanKeepAStaleRow` is such a run of the whole migration, from its start.
  `Convergence.ReplayExact` says exactly when a replay is wrong, and `DmlReplay.RetriedBuild`, `DmlReplay.RetriedDelta`
  and `DmlReplay.AttemptIsReplay` what a retried build does instead.
- A transaction that was logged before the listener for row events was added (`go/logic/migrator.go:406`) and is not
  visible yet when the range is read (`go/logic/migrator.go:409`) can have its row missed: its event was dropped, and
  the plain queries for the minimum, the maximum and the ends of the chunks do not see the row. With share mode on,
  `MigrationRuns.MigrationCanLoseARow` is a run of the whole migration in which the swap installs a table without it.
  `Convergence.ObserveExact` says exactly which queries miss a row; chunk copies, which wait for locked rows, never do
  (`Convergence.LockedReadIsNotStale`).
- Retrying the two-step swap can only succeed while its first statement has never been executed, and never does if the
  old name is taken (`TableNames.RetrySucceedsExactly`).
- The test for generated columns of the ghost table looks at the original name of a column
  (`go/logic/inspect.go:721-725`). A renamed column is left out if a new generated column takes its old name, and is
  mapped to a generated column if it becomes one (`SharedColumns.RenamedColumnLeftOut`,
  `SharedColumns.MappedToGeneratedColumn`). The test is right exactly if both names are those of generated ghost columns or
  neither is (`SharedColumns.GeneratedTestIsRightExactly`).
- The scanner of the ALTER statement takes a closing parenthesis in a literal for the end of the parentheses around it
  (`go/sql/parser.go:42-60`, `AlterParser.ParenthesisEndsInLiteral`), so such a statement can be cut within the literal
  (`AlterParser.ParenthesisCutsLiteral`). Literals outside parentheses are not affected.
- `NextFileCoordinates` panics if the successor of the number does not fit its width, or if there is no number
  (`go/mysql/binlog.go:146-157`). String order stops following the rotation at the same point
  (`BinlogOrder.RotationOrderExactly`).
- A reconnect before the first rows event was handled starts at the beginning of the file
  (`go/logic/streamer.go:146-148`), so delivery may begin before the position the streamer was started at.
  `BinlogStreaming.BeginsTooEarlyExactly` says when: if the first connection handles no rows event, the reconnects stay
  in the first file, and that file has rows events before the start; `BinlogStreaming.DeliveryCanBeginTooEarly` is such
  a log.
- In `BuildRangeComparison`, the error branch at `go/sql/builder.go:149-152` cannot be reached, and the one at
  `go/sql/builder.go:164-167`, which would return neither a condition nor an error, cannot be reached either.

## Model

| member | source | states |
|---|---|---|
| `Migration.SwapInstallsProjection` | go/logic/migrator.go:635-724 | In every run of row copy, event replay, rollbacks, application writes and cut-over together whose steps are safe, a RENAME that commits (main not having given up on it early) binds the original name to a ghost table equal to the projection of the original as it then stands |
| `Migration.StepInv` | go/logic/migrator.go:1247-1297 | Every safe step of the whole keeps the invariants of its parts and their coupling: what is pending for the ghost table is what was logged and not yet applied |
| `Migration.BatchIsPending` | go/logic/migrator.go:1190-1239 | The batch the consumer holds is always the beginning of what is pending, so applying it is always replaying the oldest pending events |
| `MigrationPossible.SucceedsFromAnyStart` | go/logic/migrator.go:635-724 | From every start without a foreign table under the old name, with any table, any backlog and any transactions that are not visible yet, there is a run of safe steps, copying in chunks of any given size, that reaches the swap and installs the projected original |
| `MigrationRuns.MigrationCanLoseARow` | go/logic/migrator.go:406-409 | There is a run, with share mode and no early give-up, in which the swap installs a table without the row of a transaction that was logged before the listener was added |
| `MigrationRuns.MigrationCanKeepAStaleRow` | go/logic/applier.go:978-981 | There is a run, without early give-up, in which a batch with a key-changing update is rolled back once and the swap installs a table that still has the row under the old key |
| `RowMigration.SwapInstallsRows` | go/logic/migrator.go:635-724 | The table that the swap installs has the keys of the original, and under each of them every shared column of its row under the mapped name, the defaults elsewhere, and no more |
| `RowMigration.ApplyBatch` | go/logic/migrator.go:1223-1237 | A call of the applier on a batch, as rolled-back attempts have left it, does to the ghost table what the migration says of replaying that batch, or of a rollback; it succeeds exactly if nothing fails |
| `RowMigration.ReplayIsExecuteBatch` | go/logic/applier.go:995-1028 | Replaying the first pending events comes to running the statements built for them, fresh or rebuilt |
| `RowMigration.CopyStepIsStatement` | go/logic/applier.go:466-528 | The copy step of the schedule is the execution of the statement for the chosen chunk |
| `CutOverSafety.SwapIsSafe` | go/logic/migrator.go:635-724 | In every interleaving and with any session death, timeout or error, when the RENAME is about to commit every row event logged on the original has been applied and none was logged since main wrote its challenge; the only exception is main giving up before the RENAME was issued |
| `CutOverSafety.SuccessMeansSwapped` | go/logic/migrator.go:701-723 | If the cut-over returns without error, the RENAME has committed |
| `CutOverSafety.NamesStayBound` | go/logic/applier.go:751-792 | At every moment of every run the original name is bound, the original table is bound under the original or the old name, and the original name is the ghost table's exactly after the RENAME |
| `CutOverSafety.GivingUpEarlyCanLoseAWrite` | go/logic/migrator.go:694-698 | From every state in which main may give up while the RENAME is not yet issued, giving up can lead to a swap with an unapplied write |
| `CutOverFailure.ErrorMeansNotSwappedExactly` | go/logic/migrator.go:655-723 | Once main has failed, some continuation ends with the error and with the tables swapped if and only if the RENAME has committed, or waits or may still be issued while the sentry table is gone or can still be dropped |
| `CutOverFailure.FailingBeforeTheRename` | go/logic/migrator.go:655-668 | If main fails before the rename session has started, the RENAME is never issued, whatever follows |
| `CutOverFailure.FailingAfterTheRename` | go/logic/migrator.go:694-706 | If main fails while the RENAME waits behind the lock, the error can be returned with the tables swapped |
| `CutOverFailure.CutOverCanFailSwapped` | go/logic/migrator.go:694-706 | From a fresh start there is a run without giving up early that returns an error with the tables swapped |
| `CutOverInvariant.StepInv` | go/logic/applier.go:795-936 | Every step of main, lock session, rename session, server, application and consumer keeps the invariant on which safety rests |
| `CutOverSafety.MarkMeansFullyApplied` | go/logic/migrator.go:665-668 | If main was drained and nothing was logged after its challenge, everything logged has been applied |
| `CutOverRuns.CutOverCanSucceed` | go/logic/migrator.go:635-724 | From every start without a foreign table under the old name, with any backlog, challenges of earlier attempts on the way and a stale sentry table, there is a run that returns success without main giving up |
| `CutOverPossible.CanSucceedExactly` | go/logic/applier.go:749-770 | Some run succeeds without main giving up early if and only if the old name is not that of a foreign table |
| `CutOverPossible.ForeignTableIsKept` | go/logic/applier.go:759-770 | A foreign table under the old name stays there in every run, no RENAME commits, and success is never reported |
| `CutOverRelease.LockFailureEndsTheAttempt` | go/logic/applier.go:796-851 | If a statement of the lock session before the lock fails, no RENAME is ever issued and the cut-over does not succeed, whatever follows |
| `CutOverRelease.RenameFailureEndsTheAttempt` | go/logic/applier.go:901-935 | If a statement of the rename session fails, or the answer to the RENAME gets lost, the cut-over does not succeed; if it fails before the RENAME, none is ever issued |
| `CutOverRelease.UnlockFailureEndsTheAttempt` | go/logic/applier.go:885-889 | If the lock session fails to unlock, the cut-over does not succeed |
| `CutOverRelease.LockerAnswersAll` | go/logic/applier.go:801-806 | However it ends, the lock session sends an answer on each of its three channels |
| `CutOverRelease.RenameFailureIsAnnounced` | go/logic/migrator.go:673-679 | A rename session that has not renamed answers both of main's receives with an error, marks the RENAME as failed and gives the lock session the word |
| `CutOverRelease.RenameFailureReleasesTheLock` | go/logic/migrator.go:673-679 | When the rename session fails, wherever it does, the two sessions alone give up the table lock, even if main stays blocked |
| `CutOverRelease.MainLetsGo` | go/logic/migrator.go:640-709 | Giving up on the RENAME, releasing the lock and ending each leave the lock session with the word to go on |
| `CutOverRelease.LockIsReleased` | go/logic/applier.go:860-893 | With that word, the lock session gives up the table lock by itself, alive or not |
| `CutOverRelease.ReportedErrorFails` | go/logic/migrator.go:654-717 | An error that main receives on any of three channels fails the cut-over |
| `CutOverRelease.OwnErrorFails` | go/logic/migrator.go:665-704 | An error or timeout of its own fails the cut-over: writing the challenge, waiting for it, waiting for the RENAME, checking the lock |
| `CutOverRuns.CutOverCanLoseAWrite` | go/logic/migrator.go:694-698 | From a fresh start there is a run in which main gives up early and a write is lost |
| `CutOverRuns.CutOverCanHang` | go/logic/applier.go:897-900 | From a fresh start there is a run after which main is blocked in every continuation |
| `CutOverChannels.SendersNeverBlock` | go/logic/migrator.go:639-675 | In every reachable state, on all error paths, at most three messages were ever sent on the channel of capacity four and at most two on each of the others |
| `CutOverChannels.BlockedMainIsAnswered` | go/logic/migrator.go:654-716 | If the rename session's transaction did not fail to begin, then whenever main is blocked in a receive, steps of the two sessions alone bring it out |
| `CutOverChannels.SessionsFinish` | go/logic/applier.go:795-936 | In a run of any length the two sessions take only a bounded number of steps, so an answer cannot be put off for ever |
| `CutOverChannels.FailedBeginHangsMain` | go/logic/applier.go:897-900 | Once the rename session's transaction has failed to begin, main stays blocked in its receive in every continuation |
| `CutOverChannels.StepKeepsChannels` | go/logic/applier.go:795-936 | Every step keeps the bounds on the channels and the promise that what main waits for was sent or is to come |
| `Drain.DrainMarker` | go/logic/migrator.go:567-603 | When a challenge is delivered, every row event logged before it has been applied, in log order, whatever older challenges are on the way, in whatever order they reach the queue |
| `Drain.StepInv` | go/logic/migrator.go:224-259 | Logging, streaming, asynchronous enqueueing, taking, applying and delivering keep every challenge behind the row events logged before it |
| `Drain.DeliveredMeansApplied` | go/logic/migrator.go:583-594 | The same as an invariant's consequence, for any state that satisfies it |
| `ApplyQueue.Migrator.CollectBatch` | go/logic/migrator.go:1205-1226 | The inner receives never block and take as many items as are available, unless a write function comes first, which is then the last one taken; what is collected is that prefix of the queue, in order |
| `ApplyQueue.Migrator.OnApplyEventStruct` | go/logic/migrator.go:1190-1239 | For any batch size and concurrent arrivals, one batch is executed, of exactly the items that the queue and the batch size allow, nothing is dropped or reordered, and a write function ends the batch and runs after it |
| `ApplyQueue.BatchingRefinesSingle` | go/logic/migrator.go:1228-1237 | Applying batches, with any number of rolled-back attempts at them, gives the same ghost table as replaying the queued events one at a time, provided no rebuilt key change leaves a row behind |
| `ApplyQueue.RetriesWithoutKeyChanges` | go/logic/migrator.go:1223-1228 | No row is left behind if no retried batch holds a key-changing update |
| `Convergence.Convergence` | go/logic/migrator.go:1114-1297 | In every run of safe steps, replaying the pending events gives, for each covered key, exactly the projected row of the original or none if it has none, and for every other key none or exactly that row |
| `Convergence.ConvergenceAtTheEnd` | go/logic/migrator.go:1114-1297 | With every key covered and nothing pending or hidden, the ghost table equals the projected original |
| `Convergence.StepExact` | go/logic/applier.go:422-528 | Logging, becoming visible, replay, rollback, observation and chunk copy each keep the convergence invariant, with two-phase commit and share-mode locks, if and only if the step is safe |
| `Convergence.ReplayExact` | go/logic/applier.go:978-981 | A replay keeps a key right if and only if it is not the old key of a rebuilt key change that the ghost table holds a row for |
| `Convergence.ObserveExact` | go/logic/migrator.go:406-409 | Taking the word of a plain query that there is no row is right at a key if and only if no transaction logged before the listener was added, and not visible yet, puts one there |
| `Convergence.PlainStepsAreSafe` | go/logic/migrator.go:1190-1297 | Every step is safe once the early transactions are visible, apart from rebuilt key changes whose old row is in the ghost table |
| `Convergence.CopyExact` | go/sql/builder.go:216-228 | A chunk copy keeps the invariant at a key if and only if it does not read a stale row there |
| `Convergence.LockedReadIsNotStale` | go/sql/builder.go:216-228 | A row that no open transaction has locked is never read stale |
| `Convergence.WithoutShareModeARowGoesStale` | go/logic/applier.go:470-482 | Without `lock in share mode` there is a run that ends with every key covered and nothing pending, and a wrong ghost row |
| `Convergence.NeverWrong` | go/logic/applier.go:963-1049 | A key that is absent or right stays absent or right under the replay of any history the original went through |
| `RowCopy.MigrationConverges` | go/logic/migrator.go:1114-1188 | In every run of the chunk schedule whose steps are safe, interleaved with the application, the replay and its rollbacks, once no further range is reported and nothing is pending the ghost table is the projected original |
| `RowCopy.TablesExact` | go/logic/migrator.go:1114-1188 | A step of the schedule keeps the convergence invariant if and only if what it does to the tables is safe |
| `RowCopy.ScheduleStep` | go/logic/applier.go:422-463 | Every step of the schedule keeps all keys below the range, above it, and up to the cursor covered |
| `RowCopy.Adjacent` | go/logic/applier.go:422-463 | A new chunk starts where the last one ended: together they reach from the minimum to its end |
| `RowCopy.Disjoint` | go/logic/applier.go:422-463 | No key of a new chunk lies in an earlier one, and the cursor moves strictly up |
| `RowCopy.QueryAnswers` | go/logic/applier.go:455-462 | An empty answer of the range query means that no key lies in the rest of the range |
| `RowCopyPossible.RowCopyCanFinish` | go/logic/migrator.go:1114-1188 | Every table can be copied to the end by safe steps of the schedule, in chunks of any size: the range is read, and the chunks end at the last keys of its pieces |
| `RowCopyPossible.ChunkIsCopied` | go/logic/applier.go:455-528 | At any time between chunks, any key of the rest of the range can end the next chunk, and the chunk up to it can be copied |
| `RangeComparison.BuildValueComparison` | go/sql/builder.go:65-74 | Fails exactly on an empty column or value |
| `RangeComparison.BuildEqualsComparison` | go/sql/builder.go:76-95 | Succeeds exactly on non-empty lists of equal length with no empty name, and joins one equality per column |
| `RangeComparison.EqualsMeaning` | go/sql/builder.go:76-95 | The equalities take one argument per column and hold exactly of the rows whose key is the arguments |
| `RangeComparison.BuildRangeComparison` | go/sql/builder.go:121-174 | For every ordering sign the condition, fed with the exploded arguments, holds of exactly the rows whose key compares so lexicographically; it uses n(n+1)/2 arguments, plus n if inclusive, one per placeholder; its error cases exactly |
| `RangeComparison.RangeMeaning` | go/sql/builder.go:121-179 | The OR of ANDs is the lexicographic comparison, on every row |
| `RangeComparison.FirstDifferenceIsLess` | go/sql/builder.go:138-160 | A key is below or above a bound exactly if it is so at the first column in which they differ |
| `ChunkIteration.BuildIntervalCondition` | go/sql/builder.go:181-215 | The conjunction of both range conditions holds of exactly the rows whose key lies in the interval, with the start included or not |
| `ChunkIteration.BuildRangeInsertPreparedQuery` | go/sql/builder.go:181-235 | The copy query selects the interval, and locks in share mode exactly for a transactional table |
| `ChunkIteration.BuildUniqueKeyRangeEndPreparedQueryViaOffset` | go/sql/builder.go:237-290 | Selects the interval with an offset of one less than the chunk size |
| `ChunkIteration.BuildUniqueKeyRangeEndPreparedQueryViaTemptable` | go/sql/builder.go:292-349 | Selects the interval, limited to the chunk size |
| `ChunkIteration.MatchingIsWindow` | go/sql/builder.go:181-349 | On a sorted table, a query with such a condition sees exactly the keys of the interval, in order |
| `ChunkIteration.WindowSplit` | go/logic/applier.go:422-463 | Cutting an interval at one of its keys gives the keys up to it and the keys after it |
| `ChunkIteration.PiecesPartition` | go/logic/migrator.go:1114-1188 | A range of n keys cut every c keys gives exactly the ceiling of n/c non-empty chunks, which joined are the range |
| `ChunkIteration.Applier.ReadMigrationRangeValues` | go/logic/applier.go:364-415 | Reads the least and the greatest key, each from the table as it is at that moment |
| `ChunkIteration.Applier.ReadRangeEnd` | go/logic/applier.go:432-454 | The offset query answers with the c-th key of the rest of the range if there is one; the temporary-table query answers with the last key of a shorter rest |
| `ChunkIteration.Applier.CalculateNextIterationRangeEndValues` | go/logic/applier.go:422-463 | The next chunk ends at the c-th or else the last key of the rest; no further range is reported only if the rest is empty; a failure leaves the cursor where it was |
| `ChunkIteration.FindRangeEndMeaning` | go/logic/applier.go:432-462 | A chunk has the size of the query that found its end, counted in the keys which that query saw; the second query decides only if the first saw less than a whole chunk, and finds no end only if it sees no key |
| `ChunkIteration.Applier.ApplyIterationInsertQuery` | go/logic/applier.go:466-528 | Copies exactly the keys of the interval, the minimum included in the first one only; a failure does not count as an iteration |
| `ChunkIteration.Applier.RetryCalculate` | go/logic/migrator.go:1136-1150 | However often it fails first, at its first query or at its second, the step yields the same range as if it had succeeded at once |
| `ChunkIteration.Applier.RetryCopy` | go/logic/migrator.go:1151-1183 | However often it fails first, the copy reads the same keys and counts once |
| `ChunkIteration.Applier.IterateChunks` | go/logic/migrator.go:1114-1188 | On a table that does not change, and with any failures and retries, the copied chunks are the range cut every c keys |
| `ChunkCopy.RangeInsertMeaning` | go/sql/builder.go:181-229 | On tables of rows, the statement of a chunk copy inserts the projection of every row of its interval, apart from keys that the ghost table has: it is the copy step of the convergence proof |
| `ChunkCopy.NamedRowSelects` | go/sql/builder.go:195-199 | Reading the shared columns, or those of the unique key, by name gives the stored values in them |
| `ChunkCopy.CopyChunk` | go/logic/applier.go:466-528 | One call of the applier, with its own shared and mapped columns, copies the chunk so; without shared columns it is an error |
| `ColumnTypes.ConvertInvertsDecode` | go/sql/types.go:41-76 | For unsigned columns of 8, 16, 24, 32 and 64 bits, converting the signed reading gives the stored value back |
| `ColumnTypes.DecodeInjective` | go/sql/types.go:41-76 | Different stored values are read as different values |
| `ColumnTypes.NewColumnsMap` | go/sql/types.go:99-105 | The ordinals are the positions of the names; of a repeated name, the last |
| `ColumnTypes.IsSubsetOf` | go/sql/types.go:194-203 | True exactly if every name of the list is a name of the other |
| `DmlQueries.BuildDMLDeleteQuery` | go/sql/builder.go:390-419 | Its error cases exactly; otherwise a delete by the unique key with the key's arguments |
| `DmlQueries.BuildDMLInsertQuery` | go/sql/builder.go:421-458 | Its error cases exactly; otherwise a replace of the mapped columns with the converted shared arguments |
| `DmlQueries.BuildDMLUpdateQuery` | go/sql/builder.go:460-510 | Its error cases exactly; otherwise an update of the mapped columns by the unique key, arguments in placeholder order |
| `DmlQueries.BuildSetPreparedClause` | go/sql/builder.go:102-119 | Fails exactly on an empty list, and sets every column in order |
| `DmlReplay.ArgsMeanStored` | go/sql/builder.go:404-409 | The arguments looked up and converted for a list of columns mean the values the original row stores in them |
| `DmlReplay.DeleteMeaning` | go/sql/builder.go:390-419 | The delete statement of a decoded row removes the ghost row with its key, and nothing else |
| `DmlReplay.InsertMeaning` | go/sql/builder.go:421-458 | The replace statement of a decoded row puts its projection under its key, which is the very row that the chunk copy would insert |
| `DmlReplay.UpdateMeaning` | go/sql/builder.go:460-510 | The update statement turns the ghost row with that key, if any, into the projection of the new row |
| `DmlReplay.UpdateModifiesUniqueKeyColumns` | go/logic/applier.go:949-959 | True exactly if some column of the unique key differs between the two images |
| `DmlReplay.KeyModifiedMeansKeysDiffer` | go/logic/applier.go:949-959 | On decoded rows that is exactly a change of the key |
| `DmlReplay.BuildDMLEventQuery` | go/logic/applier.go:963-992 | The statements and row deltas of an event, its error cases, and what the builder leaves in the event's kind |
| `DmlReplay.StatementsAreReplay` | go/logic/applier.go:963-992 | Running the statements of a fresh event is replaying it, also for a key change split into delete and replace |
| `DmlReplay.ReplayCommutes` | go/logic/applier.go:963-992 | Running the statements of a fresh event on the projection of a table gives the projection of the table after the event |
| `DmlReplay.ReplayKeepsGhostTable` | go/logic/applier.go:963-992 | Replay keeps the ghost table well formed: each row under its own key, unmapped columns at their defaults |
| `DmlReplay.RetriedBuild` | go/logic/applier.go:978-981 | A second build of an event still replays it if and only if it does not change the key, or the row at the old key is absent anyway |
| `DmlReplay.RetriedDelta` | go/logic/applier.go:978-981 | A second build counts the same row delta if and only if the event does not change the key |
| `DmlReplay.AttemptIsReplay` | go/logic/applier.go:963-992 | Running the statements of an event, fresh or as an earlier attempt has left it, is replaying it fresh or as the insert of its new row |
| `TableEvents.ReplayRetried` | go/logic/applier.go:978-981 | The replay of a rebuilt event is that of the event if and only if it is not a key change of a row that the ghost table holds |
| `TableEvents.HarmlessRetryIsReplay` | go/logic/migrator.go:1223-1228 | A batch of which any number of events were rebuilt is replayed as if fresh, if none of them finds its old row when its turn comes |
| `DmlReplay.DeltaCountsRows` | go/logic/applier.go:963-992 | The deltas of a fresh event are the net rows it adds to the original |
| `DmlApply.Applier.ApplyDMLEventQueries` | go/logic/applier.go:995-1049 | A batch is committed exactly if all its events can be built, no statement of it fails and neither beginning nor committing does; then every statement of every event was run in order and the counters moved by its size and deltas; otherwise table and counters are left alone. How many events were built, and what that left of them |
| `DmlApply.Applier.ExecuteResults` | go/logic/applier.go:1012-1028 | Runs the built statements in order and adds up their deltas, or fails at the failing one |
| `DmlApply.BatchIsReplay` | go/logic/applier.go:995-1049 | A batch does to the ghost table what replaying its events one by one does, all fresh or the first of them as a rolled-back attempt has left them |
| `DmlApply.EstimateCountsRows` | go/logic/applier.go:1030-1046 | Over any sequence of committed and rolled-back batches of fresh events, the estimate is the net number of rows the applied events added to the original |
| `TableEvents.ReplayMirrors` | go/logic/applier.go:963-992 | On a ghost table that mirrors the original, replaying an event keeps the mirror |
| `TableNames.AtomicSwap` | go/logic/applier.go:896-936 | The RENAME of the cut-over swaps the tables exactly if the old name is free, and else changes nothing |
| `TableNames.Applier.SwapTablesQuickAndBumpy` | go/logic/applier.go:563-587 | Success means that the names are swapped, and is reported exactly if both statements are executed and answered from the start position with the old name free; from there the names end swapped, halfway or untouched exactly as the statements take effect, and from any other nothing changes |
| `TableNames.Applier.RenameTablesRollback` | go/logic/applier.go:591-630 | Where the rollback leaves the names from each position and under any faults, and when it reports success |
| `TableNames.RollbackRestoresExactly` | go/logic/migrator.go:461-466 | The rollback restores the binding from before the cut-over, whether the swap did not happen, stopped halfway or happened, exactly unless the listed statements never reach the server |
| `TableNames.RetrySucceedsExactly` | go/logic/migrator.go:609-632 | Retrying the two-step swap succeeds if and only if the old name is free and the first attempt whose first statement is executed goes through entirely |
| `TableNames.Applier.RetrySwap` | go/logic/migrator.go:609-632 | The retry loop leaves the names where its attempts, up to the first success, leave them; success means that they are swapped |
| `TableNames.NoTableIsLost` | go/logic/applier.go:563-630 | In all three positions both tables are bound and no other name is touched; the original name is unbound only halfway |
| `BinlogOrder.SmallerThanIsTotalOrder` | go/mysql/binlog.go:78-95 | SmallerThan is a strict total order on file and position, and SmallerThanOrEquals its reflexive closure |
| `BinlogOrder.SmallerThanFollowsRotation` | go/mysql/binlog.go:78-86 | For names with one stem and width, it is the numeric order of file numbers, then positions |
| `BinlogOrder.RotationOrderExactly` | go/mysql/binlog.go:78-86 | The order of names follows a rotation if and only if the number does not outgrow its width |
| `BinlogOrder.NextFileCoordinates` | go/mysql/binlog.go:146-157 | Replaces the last token by the padded successor, or panics |
| `BinlogOrder.PreviousFileCoordinatesBy` | go/mysql/binlog.go:124-138 | Replaces the last token by the padded difference, or panics, or fails on number zero |
| `BinlogOrder.NextExistsExactly` | go/mysql/binlog.go:146-157 | The next file is found, rather than a panic, exactly if the successor has at most as many digits as the suffix |
| `BinlogOrder.NextPanicsWithoutNumber` | go/mysql/binlog.go:112-121 | A name that does not end in a number always panics |
| `BinlogOrder.NextThenPrevious` | go/mysql/binlog.go:124-157 | The next file and then the previous one is the same file, at position 0 |
| `BinlogOrder.PreviousGoesBack` | go/mysql/binlog.go:124-138 | From a file k numbers on, going back by k gives the file name back |
| `BinlogOrder.PreviousExactly` | go/mysql/binlog.go:124-138 | From number zero it is an error; while the numbers last, going back by k gives the file k numbers before; beyond that no numbered file |
| `BinlogOrder.PreviousFailsWithoutNumber` | go/mysql/binlog.go:112-128 | A name that does not end in a number is an error |
| `BinlogOrder.StemAndSuffix` | go/mysql/binlog.go:126-137 | Splitting at dots, replacing the last token and joining changes the suffix and nothing else |
| `BinlogStream.RowsIncrease` | go/mysql/binlog.go:78-86 | In a log with increasing names and positions, the coordinates of the rows events increase |
| `BinlogStream.Advance` | go/binlog/gomysql_reader.go:127-160 | Each event of a connection's stream is the next one of the log, and after a rotate event the announced file is the one being sent |
| `BinlogStreaming.EntriesMeaning` | go/binlog/gomysql_reader.go:89-121 | Inserts and deletes give one entry a row, updates one for each pair of rows |
| `BinlogStreaming.SkipsHandled` | go/binlog/gomysql_reader.go:80-83 | Comparing coordinates with the hint skips exactly the rows events that were handled |
| `BinlogStreaming.AfterHandling` | go/binlog/gomysql_reader.go:79-124 | Handling, skipping or refusing a rows event keeps what was delivered a gapless stretch of the log, which reaches beyond the event unless it was refused |
| `BinlogStreaming.GoMySQLReader.ConnectBinlogStreamer` | go/binlog/gomysql_reader.go:58-69 | Fails on empty coordinates, which change nothing, or an unreachable server, and else starts at the coordinates |
| `BinlogStreaming.GoMySQLReader.HandleRowsEvent` | go/binlog/gomysql_reader.go:79-124 | Skips an event at or below the hint, refuses an unknown type, and else sends its entries in order and moves the hint |
| `BinlogStreaming.GoMySQLReader.StreamEvents` | go/binlog/gomysql_reader.go:127-160 | Over one connection, from any place of the log, all that is received is read, up to the first event of an unknown type; it ends without error exactly if there is none and the migration is over |
| `BinlogStreaming.ReadsMeaning` | go/binlog/gomysql_reader.go:79-160 | Reading extends what was delivered without gap or duplicate, and every rows event of a known type that is received before an unknown one has then been delivered |
| `BinlogStreaming.EventsStreamer.Reconnect` | go/logic/streamer.go:146-148 | A reconnect begins at the start of the current file with the hint kept, before or at what is still to be delivered |
| `BinlogStreaming.EventsStreamer.StreamEvents` | go/logic/streamer.go:175-218 | Whatever connections fail and when, what entered the channel are the rows events that the served connections delivered, each row once and in log order; an error is returned exactly if the server was out of reach or too many connections in a row delivered nothing new |
| `BinlogStreaming.CourseDelivers` | go/logic/streamer.go:175-218 | Every rows event of a known type that a served connection received, before any unknown one, has been delivered |
| `BinlogStreaming.CourseEnds` | go/logic/streamer.go:190-217 | The served connections are exactly those up to the first with which the migration is over, the retries run out or the server is out of reach, or all of them; it is an error exactly if the last one ends the run in one of the latter two ways |
| `BinlogStreaming.FailuresMeaning` | go/logic/streamer.go:198-206 | The count of failures is that of the last connections in a row that delivered nothing new |
| `BinlogStreaming.BeginsTooEarlyExactly` | go/logic/streamer.go:146-148 | Delivery begins where the streamer was started if the first connection handles a rows event, else at the start of a file; it begins too early exactly if that file is the first one and has rows events before the start |
| `BinlogStreaming.DeliveryCanBeginTooEarly` | go/logic/streamer.go:146-148 | A log and two connections for which it does |
| `AlterParser.Parser.TokenizeAlterStatement` | go/sql/parser.go:39-65 | The scan with its mutable quote yields the trimmed non-empty fields between top-level commas |
| `AlterParser.Parser.ParseAlterToken` | go/sql/parser.go:74-110 | Every old name found is mapped to the new name of its last pair and every other as before; exactly the names found are added to the dropped columns; the flag is set exactly if it was or the matcher says so |
| `AlterParser.Parser.ParseAlterStatement` | go/sql/parser.go:113-122 | The same over all sanitized tokens of the statement, the last token that finds a name winning |
| `AlterParser.ParseTokensMeaning` | go/sql/parser.go:74-122 | That is what parsing any tokens in order does, for every matcher |
| `AlterParser.CutsAtPlainCommas` | go/sql/parser.go:39-65 | The statement is cut at its commas outside literals and parentheses, and nowhere else |
| `AlterParser.TrimSpaceMeaning` | go/sql/parser.go:62-64 | Trimming removes exactly the white space at both ends |
| `AlterParser.LiteralsDoNotInterfere` | go/sql/parser.go:39-122 | Statements that differ only inside literals give the same rename map, dropped columns and flag, for every matcher; literals within parentheses must not contain a closing one |
| `AlterParser.BoundariesAreOutside` | go/sql/parser.go:39-65 | No token boundary falls inside a literal, if literals within parentheses contain no closing one |
| `AlterParser.SanitizeItems` | go/sql/parser.go:67-71 | Replacing the quoted matches in the text blanks exactly the literals |
| `AlterParser.UnclosedQuoteStays` | go/sql/parser.go:67-71 | A quote that is not closed is left as it is, with all that follows |
| `AlterParser.ParenthesisEndsInLiteral` | go/sql/parser.go:42-60 | The literals affected: within parentheses, the first closing one in a literal ends them, and the rest of the literal is scanned as if outside |
| `AlterParser.ParenthesisCutsLiteral` | go/sql/parser.go:54-56 | Such a literal can cut the statement in two, so that hypothesis is needed |
| `Topology.GetMasterKeyFromSlaveStatus` | go/mysql/utils.go:77-114 | What a reachable host shows of its channels, or an error if it cannot be reached |
| `Topology.MasterOfMeaning` | go/mysql/utils.go:84-112 | An error exactly if some channel with a master does not run; otherwise the master of the last channel that has one, and none exactly if no channel has |
| `Topology.GetMasterConnectionConfigSafe` | go/mysql/utils.go:116-141 | Ends on every topology, and finds what the search over the visited hosts finds |
| `Topology.FindsRoot` | go/mysql/utils.go:116-141 | On an acyclic chain of healthy replicas, the root is found |
| `Topology.FindsCycle` | go/mysql/utils.go:131-137 | On a cycle, a host on it is found if master-master is allowed, and an error otherwise |
| `Topology.FindsError` | go/mysql/utils.go:119-122 | An unreachable host or broken replication on the way is an error |
| `Topology.EveryChainEnds` | go/mysql/utils.go:116-141 | There is no fourth case: every chain leads to a root, into a cycle or to an error |
| `SharedColumns.IsSharedColumn` | go/logic/inspect.go:696-726 | A column is shared exactly if it or its new name is a ghost column, and it is neither dropped nor named like a generated column of either table |
| `SharedColumns.GetSharedColumns` | go/logic/inspect.go:694-737 | Both lists, in the order of the original table |
| `SharedColumns.MappingIsAligned` | go/logic/inspect.go:694-737 | If the ghost columns are those the ALTER produces, both lists have equal length and the order of the original, each shared column is mapped to the ghost column it became, and no two to the same |
| `SharedColumns.SharedExactly` | go/logic/inspect.go:694-727 | The shared columns are exactly those kept, not generated, and not named like a generated ghost column |
| `SharedColumns.KeyColumnKeepsName` | go/logic/inspect.go:729-736 | A key column that is kept, not generated and not renamed is shared under its own name |
| `SharedColumns.GeneratedTestIsRightExactly` | go/logic/inspect.go:721-725 | A kept column that is not generated in the original is shared exactly when the ghost column it became is not generated, if and only if its original name and its mapped name are both those of generated ghost columns or neither is |
| `SharedColumns.RenamedColumnLeftOut` | go/logic/inspect.go:721-725 | A kept, renamed column is left out when a new generated column takes its old name |
| `SharedColumns.MappedToGeneratedColumn` | go/logic/inspect.go:721-725 | A column renamed into a generated one is mapped to it |
| `SharedColumns.GetSharedUniqueKeys` | go/logic/inspect.go:680-691 | The keys of the original in their order, each once for every ghost key with the same column names in order; so exactly those with such a ghost key |
| `SharedColumns.SharedKeysMeaning` | go/logic/inspect.go:680-691 | A key is shared if and only if it is a key of the original and some ghost key has its column names |
| `SharedColumns.SharedKeysInOrder` | go/logic/inspect.go:680-691 | The shared keys are in the order of the original keys, each as often as the ghost table has keys with its columns |
| `SharedColumns.FirstSharedKey` | go/logic/inspect.go:137-163 | The first shared key, which is tried first, is the first key of the original with a match, and there is none exactly without a match |

## Left out

- SQL text, quoting of names, connections, time zones, character sets, JSON and enum conversions: statements are
  conditions and assignments, the server is a map with locks.
- NULLs in the unique key, further unique keys on the ghost table, foreign keys and triggers: documented as
  unsupported.
- The throttler, heartbeat, lag collection, hibernation, hooks, the interactive server, status output, flags and
  configuration: they do not decide what is written.
- Checks of grants, binary log format and schema, and the choice of candidate unique keys: queries on the server.
- The dispatch of entries to listeners by table name (`go/logic/streamer.go:89-109`): the model begins at the entries
  of the original table and of the changelog.
- The wording of error messages: only which calls fail, and what they leave behind.
- Wall-clock time: timeouts and retries are choices that any step may take.
- Wrap-around of 64-bit counters of rows and events, which no migration reaches, and of binary log positions in
  files beyond 4 GB.
- Goroutines of an earlier cut-over attempt that are still running when the next attempt starts, and DML on the new
  table after the swap.
- A table that becomes empty between reading its minimum and its maximum: the source then uses a missing value
  (`go/logic/applier.go:385-404`); the schedule of `RowCopy` has no such step.
- The regular expressions of `parseAlterToken` and the unquoting of what they match: functions of the token.
- `ChunkIteration.Applier.IterateChunks`: the table does not change meanwhile; a changing table is the subject of
  `RowCopy.MigrationConverges`, where chunk copies are single steps.
- `CutOverSafety.SwapIsSafe`: no claim for a run in which main gave up on the RENAME before it was issued, because there
  the claim is false, as `CutOverSafety.GivingUpEarlyCanLoseAWrite` shows.
- `CutOverSafety.SuccessMeansSwapped`: one direction only, because the client may see an error although the server
  committed; `CutOverFailure.ErrorMeansNotSwappedExactly` says what an error means.
- `Migration.SwapInstallsProjection`: no claim for runs with an unsafe step, because there the claim is false, as the runs
  of `MigrationRuns` show.
- `RowCopy.MigrationConverges`: the same.
- `Convergence.Convergence`: the same.
- `CutOverChannels.BlockedMainIsAnswered`: for runs in which the rename session's transaction begins, because
  `CutOverChannels.FailedBeginHangsMain` shows the claim false otherwise.
- `BinlogStreaming.EventsStreamer.StreamEvents`: the log is given as a whole, and each connection delivers some
  prefix of its stream.
