# Trails, modelled

A Dafny model of the parts of Trails where state, interleaving or a translation between
languages decides whether the framework is right, with proofs of what they promise. Every
line reference below is to the repository.

The modules, by area:

- **SQL building** (`SqlText`, `Predicates`, `Rendering`, `SqlMeaning`, `Statements`,
  `StatementErrors`, `SqlReader`, `ReadBack`, `Builders`, `Queries`). The renderer and the
  statement builders as code that appends to one argument list, against pure functions of
  the predicate tree; then what an engine makes of the executed text: a parser with SQL's
  precedences and a three-valued evaluator for conditions, and a reader, written without the
  builders, of tables, columns, values, joins, ordering and paging.
- **Transactions** (`Transactions`). Trees of `Tx` calls as BEGIN, SAVEPOINT, RELEASE and
  ROLLBACK TO on a connection whose savepoints are a stack of named snapshots, against an
  all-or-nothing reading of the tree in which no statement or name occurs.
- **Cloud Tasks jobs** (`CloudTask`, `CloudTaskInvariant`, `CloudTaskSafety`,
  `CloudTaskBackend`, `CloudTaskRuns`). Pushes, crashes and cleanup as small steps over
  shared tables with private uncommitted writes and explicit row locks; what every step
  keeps; what follows for every interleaving; the backend's own code, each method tied to
  the steps it stands for; and runs in which every bound is reached.
- **Database queue** (`DbQueue`, `DbQueueInvariant`, `DbQueueSafety`, `DbQueueLimit`,
  `DbQueueBackend`). The same for several polling workers, with both ways of claiming a row,
  when the concurrency limit is kept and when not, and the retry delay in 64-bit arithmetic.
- **Preloading** (`Preloads`). The batched loader over an array of records, against one query
  per parent; the queries mean what `SqlMeaning` says they mean.
- **Assets** (`Assets`, `AssetChanges`). Reference resolution, the depth-first digest and
  digested names; which changes of several files a digest notices.
- **Channels** (`Broadcaster`, `HubSteps`, `HubInvariant`, `HubSafety`, `Hub`,
  `ServerSentEvents`). The in-memory broadcaster with a
  publisher holding the mutex while others go on, the hub and its pumps on top of it, and
  the event stream read back by the client's rules.
- **Cache and rate limiter** (`MemoryCache`, `RateLimit`). An evicting store against one that
  never evicts; the limiter against fixed windows over request times.
- **Settings** (`Settings`). The backtracking search from an environment variable's name to a
  configuration field, and the write it ends in.
- **Async pool** (`AsyncPool`, `AsyncPoolInvariant`, `AsyncPoolSafety`). Queue, timers, workers, the in-flight counter and expiring
  concurrency slots.
- **Bulk insert** (`CreateAll`). The batching loop, the values each statement binds and the
  ids written back.

Protocols are state machines: a run is any list of events, an event that is not enabled
changes nothing, and results are stated for every world a run leads to. Code that changes
things in place is a class or a method over an array; its contract ties the new state to a
function of the old one, about which the results are proved, and says in its own words what
the call comes to.

Where the code does less than its documentation says, the model follows the code:

- `Tx` says it commits when the callback returns nil (pack/tx.go:44-46). In an engine that
  blocks a transaction after a failed statement it cannot, if the error was swallowed;
  `Transactions.CommitsIff` is the exact condition.
- With row locks the queue does not keep its concurrency limit. `DbQueueLimit.LimitKeptIff`
  is the exact condition on a configuration, and `DbQueueLimit.ApartKeepsLimit` the
  schedules that keep it all the same.
- Asset digests are said to change with any dependency (assets/compile.go:52-55). With the
  references as they are, `AssetChanges.EveryChangeNoticedIff` says exactly for which files
  that is so; bytes that move from one file to the next leave a digest as it was
  (`AssetChanges.TwoChangesCanCancel`), while changes that keep lengths are always noticed.
- Event payloads are split at newlines defensively (channels/sse.go:74-76), but a carriage
  return also ends a line; `ServerSentEvents.StreamRoundTrip` is the exact condition.
- The retry delay is said to grow exponentially (jobs/backend/dbqueue/run.go:114-117).
  `DbQueueBackend.BackoffIff` says exactly for which bases and maxima it does, overflow
  included; `DbQueueBackend.BackoffOverflows` is a base for which it collapses.
- A slot of the async pool that expires while held is replaced, and the late release then
  gives back a place in its replacement. A step keeps the counts if and only if it acquires
  no such slot (`AsyncPoolSafety.SlotsKeptIff`), and some run comes to one that does
  (`AsyncPoolSafety.LateAcquireReached`).
- A queued job is documented to run at most MaxAttempts times (jobs/enqueue.go:30-33). The
  database queue keeps that if and only if MaxAttempts is not negative
  (`DbQueueSafety.AttemptsKeptIff`); otherwise it still runs the job once. The Cloud Tasks
  backend then acknowledges the job's pushes and leaves it pending forever
  (`CloudTaskSafety.NegativeAcknowledged`, `CloudTaskSafety.NegativeStaysPending`).
- A batch insert is said never to bind more than 65535 values (pack/create_all.go:17-21). The
  values of a conflict update are not counted; `CreateAll.EveryStatementFits` is the exact
  condition, and `CreateAll.UpdatesCanExceed` a full batch that breaks it.

## Model

| member | source | states |
|---|---|---|
| `Rendering.Renderer.Bind` | pack/internal/sqlbuild/render.go:20-23 | appends one value to the argument list and returns the placeholder that is its own |
| `Rendering.Renderer.BindList` | pack/internal/sqlbuild/render.go:167-175 | binds a list in order, one placeholder each, separated by commas |
| `Rendering.Renderer.RenderRawFragment` | pack/internal/sqlbuild/render.go:49-71 | every chunk stays and each placeholder is renumbered by the arguments already bound; it succeeds if and only if each names one of the fragment's own arguments, and fails at the first that does not |
| `Rendering.Renderer.RenderPredicate` | pack/internal/sqlbuild/render.go:73-153 | writes the text and arguments of the tree; it succeeds if and only if every ILIKE is one the dialect has and every raw placeholder has its argument, and otherwise reports a node that breaks this |
| `Predicates.RendersIff` | pack/internal/sqlbuild/render.go:49-153 | a tree renders if and only if no node anywhere in it is an ILIKE the dialect lacks or a raw fragment with a placeholder out of range; without raw fragments, if and only if the dialect has ILIKE or none is used |
| `Predicates.RawFilled` | pack/internal/sqlbuild/render.go:49-71 | a raw fragment, rendered after any arguments and executed, has each of its chunks as written and each of its own arguments at the placeholders that name it |
| `Rendering.Renderer.RenderChild` | pack/internal/sqlbuild/render.go:155-165 | parenthesises exactly nested AND, OR and NOT |
| `Rendering.Renderer.RenderAssignment` | pack/internal/sqlbuild/render.go:177-188 | the column, an equals sign and the value side, bound or raw |
| `Rendering.Renderer.RenderJoin` | pack/internal/sqlbuild/render.go:190-207 | the join keyword, the table and the rendered condition |
| `Predicates.ResolveRendered` | pack/internal/sqlbuild/render.go:20-153 | whatever was bound before and is bound after, each numbered placeholder in the text of a predicate stands for the value the predicate attached there |
| `Predicates.PositionalIff` | pack/internal/sqlbuild/render.go:49-153 | positional markers and arguments line up if and only if every raw fragment uses $1 to $n once each, in order |
| `Predicates.SameShapeRendered` | pack/internal/sqlbuild/render.go:20-23 | a positional dialect gets the numbered text with every placeholder replaced by a marker, and nothing else |
| `SqlMeaning.TextParses` | pack/internal/sqlbuild/render.go:73-165 | read with NOT over AND over OR and BETWEEN owning its AND, the text parses back to the very tree it came from |
| `SqlMeaning.EvalExprOf` | pack/internal/sqlbuild/render.go:73-153 | evaluating that parse in three-valued logic gives the tree's meaning, empty IN and NOT IN included |
| `SqlMeaning.MeaningPreserved` | pack/internal/sqlbuild/render.go:73-175 | main result: a raw-free predicate, rendered, bound and read by the engine, means what the tree means on every row, NULLs included |
| `Statements.NumberedStatementBinds` | pack/internal/sqlbuild/render.go:20-71 | in any statement every numbered placeholder stands for the value the builder attached at that spot |
| `Statements.PositionalStatementIff` | pack/internal/sqlbuild/render.go:20-71 | in any statement the ith marker binds the ith argument at its own spot if and only if all raw fragments count up |
| `Statements.PositionalStatementBinds` | pack/internal/sqlbuild/render.go:20-71 | so executing a positional statement puts every value in place |
| `Statements.StatementBinds` | pack/internal/sqlbuild/render.go:20-71 | both dialect families at once, with errors independent of the dialect's placeholders |
| `StatementErrors.SelectErrorIff` | pack/internal/sqlbuild/select.go:193-226 | a SELECT renders, locks aside, if and only if its WHERE, its HAVING and each ON do |
| `StatementErrors.InsertErrorIff` | pack/internal/sqlbuild/insert.go:95-162 | an INSERT renders, RETURNING aside, if and only if every raw value it writes has its arguments, those of a conflict update only when one is written |
| `StatementErrors.UpdateErrorIff` | pack/internal/sqlbuild/update.go:43-71 | an UPDATE renders if and only if its condition does and every raw value has its arguments |
| `ReadBack.InsertReads` | pack/internal/sqlbuild/insert.go:78-174 | main result: an engine reads in an executed INSERT the table, the columns of the first row in order, for each row its values in order, on a conflict nothing, the update of each column to its value, or failure, in the dialect's own form, and the returned columns |
| `ReadBack.RowsInserted` | pack/internal/sqlbuild/insert.go:95-124 | so, where all rows have one column list, the jth column of row i is given the value that row was built with for it |
| `ReadBack.UpdateSets` | pack/internal/sqlbuild/update.go:43-71 | an engine reads in an UPDATE its table and, in order, which column is set to which value |
| `ReadBack.DeleteFrom` | pack/internal/sqlbuild/delete.go:31-44 | and in a DELETE its table |
| `ReadBack.SelectPartsRead` | pack/internal/sqlbuild/select.go:173-257 | an engine reads in a SELECT whether it is distinct, its list, its table and alias, each join with its table and whether it keeps unmatched rows, the grouping, each ordering with its direction, limit, offset and lock |
| `Builders.RenderSelect` | pack/internal/sqlbuild/select.go:157-258 | the three lock errors in order; otherwise it succeeds if and only if every condition in it renders; executed, every value is where its clause put it and the statement is read as its parts |
| `Builders.RenderInsert` | pack/internal/sqlbuild/insert.go:78-174 | refused with RETURNING where there is none; otherwise it succeeds if and only if every raw value written has its arguments; executed, each value stands in its own row under its own column, with the conflict clause in the dialect's form |
| `Builders.RenderUpdate` | pack/internal/sqlbuild/update.go:43-71 | succeeds if and only if its condition renders and every raw value has its arguments; executed, each column is set to its own value, with the condition's arguments at their own spots |
| `Builders.RenderDelete` | pack/internal/sqlbuild/delete.go:31-44 | succeeds if and only if its condition renders; executed, it deletes from the builder's table with the condition's arguments at their own spots |
| `Queries.ChainMeaning` | pack/query.go:584-600 | however Where and Or calls are chained, the accumulated condition means their left fold in three-valued logic |
| `Queries.ChainRenders` | pack/query.go:584-600 | a chain renders if and only if each of its conditions does |
| `Queries.OrTakesEverythingBefore` | pack/query.go:82-89 | Where(a).Where(b).Or(c) asks for (a AND b) OR c |
| `Queries.DeleteWhere` | pack/query.go:539-559 | a chain of raw-free calls succeeds if and only if each condition renders for the dialect; executed with its arguments, the DELETE filters each row by the fold of the chain |
| `Queries.PredicateReads` | pack/internal/sqlbuild/render.go:73-175 | a raw-free predicate rendered for any dialect, numbered or positional, and executed with its arguments is read as what it means |
| `Queries.SelectReads` | pack/internal/sqlbuild/select.go:157-258 | the WHERE of a SELECT, between its joins and everything after it, is read as exactly the builder's condition |
| `Queries.HavingReads` | pack/internal/sqlbuild/select.go:157-258 | and so is its HAVING |
| `Queries.JoinReads` | pack/internal/sqlbuild/render.go:190-207 | the ON of each join is read as that join's condition |
| `Queries.UpdateReads` | pack/internal/sqlbuild/update.go:43-71 | the WHERE of an UPDATE, after its assignments, is read as exactly the builder's condition |
| `Transactions.OwnSavepoint` | pack/tx.go:34-42 | however many rolled-back savepoints are still on the stack, RELEASE and ROLLBACK TO find the one this Tx made, where it made it |
| `Transactions.NestedRefines` | pack/tx.go:51-104 | a nested Tx keeps everything below it on the connection and has exactly the effect of its subtree |
| `Transactions.StepsRefine` | pack/tx.go:51-104 | the same for any stretch of a callback, with errors and panics caught or passed on |
| `Transactions.RootRefines` | pack/tx.go:47-104 | main result: any tree of Tx calls ends as its all-or-nothing reading does, commits exactly its kept writes, leaves no transaction open and never names a missing savepoint |
| `Transactions.NestedFailure` | pack/tx.go:47-104 | a nested error or panic nobody catches ends the root the same way; a caught one leaves no trace of the nested call, unless its callback returned nil over an error that blocks the transaction, and then nothing is committed |
| `Transactions.AllOrNothing` | pack/tx.go:44-70 | a root Tx that does not succeed leaves the committed state as it was |
| `Transactions.CommittedWrites` | pack/tx.go:44-104 | with no statement refused, exactly the reached writes whose calls all succeeded are committed, in order |
| `Transactions.LastWriteWins` | pack/tx.go:44-70 | applied in order, the last write to a key decides about it and a key not written stays as it was |
| `Transactions.SwallowedErrorStillFails` | pack/tx.go:44-70 | in a blocking engine a swallowed statement error still fails the transaction: the documented commit on nil does not happen |
| `Transactions.CommitsIff` | pack/tx.go:44-70 | Tx reports success if and only if the callback returned nil and no blocking error was left standing |
| `Transactions.CommitsAsDocumented` | pack/tx.go:44-46 | so it commits if and only if the callback returns nil, in an engine that does not block, and in any engine when the callbacks swallow no refused statement |
| `Transactions.Session.Tx` | pack/tx.go:51-104 | the call on one connection, updated in place: state and outcome are those of the step semantics |
| `Transactions.Session.Run` | pack/tx.go:51-70 | the callback's loop over its steps |
| `Transactions.Session.RootTx` | pack/tx.go:47-70 | the main result for the object: what is committed, the outcome, nothing left open, no savepoint missed |
| `Transactions.Session.ReleaseSavepoint` | pack/tx.go:34-37 | releases the topmost savepoint of the name and everything above it |
| `Transactions.Session.RollbackToSavepoint` | pack/tx.go:39-42 | restores the snapshot and leaves the savepoint itself on the stack |
| `CloudTaskSafety.LimitHolds` | jobs/backend/cloudtask/claim.go:67-107 | main result: in every interleaving of pushes, crashes and cleanups, from the latest committed claim's clock reading on, a key's executing rows inside its window never outnumber its limit, in whatever order the readings came |
| `CloudTaskRuns.LimitReached` | jobs/backend/cloudtask/claim.go:67-107 | and some run has as many jobs of a key executing as its limit allows, whatever the limit |
| `CloudTaskSafety.SlotExclusive` | jobs/backend/cloudtask/claim.go:67-81 | the lock row may be created and deleted at any time, but never do two claims hold one key's |
| `CloudTaskSafety.AttemptsBounded` | jobs/backend/cloudtask/claim.go:41-53 | attempts stay within MaxAttempts, and a pending job has one left if and only if MaxAttempts is positive: a claim is exhausted only if the job was never to run |
| `CloudTaskSafety.DispatchesBounded` | jobs/backend/cloudtask/push.go:96-128 | a job is dispatched at most MaxAttempts times, however often it is delivered and whatever crashes |
| `CloudTaskRuns.DispatchesReached` | jobs/backend/cloudtask/finish.go:18-37 | and for every MaxAttempts that is not negative some run dispatches the job that often, after which it has failed: no failure is final before |
| `CloudTaskSafety.OneOwner` | jobs/backend/cloudtask/claim.go:41-58 | at most one push owns a job, and the stored row is the one it claimed |
| `CloudTaskSafety.AckMeansNotPending` | jobs/backend/cloudtask/push.go:102-128 | a task is acknowledged only when its job is gone, no longer pending, or was never to run |
| `CloudTaskSafety.NegativeStaysPending` | jobs/backend/cloudtask/claim.go:41-48 | a job enqueued with a negative MaxAttempts is pending in every later world of every run in which its row exists, and is never claimed or dispatched |
| `CloudTaskSafety.NegativeAcknowledged` | jobs/backend/cloudtask/push.go:102-110 | each of its pushes is acknowledged at its first look at the row, unless a statement fails or the process crashes before |
| `CloudTaskSafety.DeferralRestores` | jobs/backend/cloudtask/claim.go:91-107 | a deferred claim gives the row back pending with its attempts, changing only its last lock time |
| `CloudTaskInvariant.OwnRowCounts` | jobs/backend/cloudtask/claim.go:83-89 | the count under the slot lock sees the claim's own row exactly once |
| `CloudTaskInvariant.ClaimCounts` | jobs/backend/cloudtask/claim.go:83-107 | a claim that commits under the slot lock keeps every key's count within its limit |
| `CloudTaskInvariant.DeleteIdleSlotKeeps` | jobs/backend/cloudtask/cleanup.go:123-156 | deleting an idle slot row between its check and a later claim keeps the whole invariant |
| `CloudTaskInvariant.StepKeeps` | jobs/backend/cloudtask/claim.go:21-110 | every statement of every push, and every cleanup statement, keeps the invariant |
| `CloudTaskBackend.SkippedClaim` | jobs/backend/cloudtask/claim.go:33-50 | a claim of a row that is missing, not pending or exhausted changes nothing and is acknowledged |
| `CloudTaskBackend.UnlimitedClaim` | jobs/backend/cloudtask/claim.go:52-69 | a claim without a concurrency key, run alone, takes the row in one go |
| `CloudTaskBackend.LimitedClaim` | jobs/backend/cloudtask/claim.go:52-107 | a claim with a key, run alone, leaves the slot row there and the row taken or given back, by the count |
| `CloudTaskBackend.Backend.ClaimForExecution` | jobs/backend/cloudtask/claim.go:21-110 | a row that is not there, not pending or without attempts left is passed over; any other is taken, its attempts counted up, if and only if with it no more rows of its key run in its window than its limit allows, and otherwise keeps its attempts and state; a key's slot row is there afterwards; all of it as the transaction's steps do |
| `CloudTaskBackend.Backend.ClaimWithinLimit` | jobs/backend/cloudtask/claim.go:72-107 | the same for the part after the row is marked, for a row with a key: taken or deferred, by the count of the other rows |
| `CloudTaskBackend.Backend.EnsureSlot` | jobs/backend/cloudtask/claim.go:72-81 | afterwards the key has a slot row, the old one if there was one |
| `CloudTaskBackend.Backend.Finish` | jobs/backend/cloudtask/finish.go:10-16 | the stored row becomes finished, if it is still there and the UPDATE succeeds |
| `CloudTaskBackend.Backend.Fail` | jobs/backend/cloudtask/finish.go:18-37 | terminal exactly when the claimed row's attempts are used up, otherwise pending again |
| `CloudTaskBackend.Backend.HandlePush` | jobs/backend/cloudtask/push.go:79-128 | 400 without a job id, 200 for a row not to be run, 429 over the limit, 200 once performed or out of attempts, 500 for a failure to be retried; the tables after each; all of it as the push's steps do |
| `CloudTaskBackend.Backend.CleanupSlots` | jobs/backend/cloudtask/cleanup.go:123-156 | exactly the selected slots without an executing row are deleted |
| `DbQueueSafety.LimitHolds` | jobs/backend/dbqueue/claim.go:12-17 | main result: with claims made by the one UPDATE, a key's rows inside its window never outnumber its limit, in any run of any workers |
| `DbQueueSafety.AttemptsKeptIff` | jobs/enqueue.go:30-33 | in every run a job is performed no more often than the MaxAttempts it was enqueued with, if and only if that is not negative |
| `DbQueueSafety.AttemptsReached` | jobs/backend/dbqueue/run.go:93-112 | for every MaxAttempts some run performs the job as often as any run may, that often or once if it is negative, after which it has failed: no failure is final before |
| `DbQueueLimit.LimitKeptIff` | jobs/backend/dbqueue/claim.go:12-79 | main result: for every configuration and every key with a positive duration, the limit is kept in all runs if and only if there are no row locks, or the limit is zero |
| `DbQueueLimit.LimitReached` | jobs/backend/dbqueue/claim.go:81-119 | without row locks the limit is not only kept but reached, in some run, whatever it is |
| `DbQueueLimit.Overshoot` | jobs/backend/dbqueue/claim.go:40-79 | with row locks and a limit of at least one, some run of several workers ends with one row more than the limit at work |
| `DbQueueLimit.ApartKeepsLimit` | jobs/backend/dbqueue/claim.go:40-79 | row locks or not, a run in which no two claims of a key overlap between their SELECT and their UPDATE keeps the limit |
| `DbQueueSafety.OneHolder` | jobs/backend/dbqueue/claim.go:40-119 | a row is selected or held by at most one claim, in either claim form |
| `DbQueueSafety.SnapshotIsStored` | jobs/backend/dbqueue/run.go:93-98 | while a row is held the stored row, attempts included, is the holder's snapshot, so writing attempts back loses nothing |
| `DbQueueSafety.PerformedAtMostMax` | jobs/backend/dbqueue/run.go:93-112 | a job is performed at most MaxAttempts times, or once if that is not positive; an available row has attempts left |
| `DbQueueInvariant.ClaimedCounts` | jobs/backend/dbqueue/claim.go:12-17 | the guard leaves room for the row it lets through |
| `DbQueueInvariant.StepKeeps` | jobs/backend/dbqueue/claim.go:19-119 | every statement of every worker, and cleanup, keeps the invariant |
| `DbQueueBackend.Backend.ClaimOne` | jobs/backend/dbqueue/claim.go:81-119 | takes, of the rows that wait in one of the queues, are due and have room under their key's limit, one scheduled no later than any other, and fails only if there is none |
| `DbQueueBackend.Backend.ClaimOneLocking` | jobs/backend/dbqueue/claim.go:40-79 | the same among the rows nobody else has locked, as the two steps of its transaction |
| `DbQueueBackend.Backend.Claim` | jobs/backend/dbqueue/claim.go:19-38 | the loop ends; the batch has no row twice, none that was not ready, and is short only if nothing is ready or a statement failed, in which case what was claimed is still returned |
| `DbQueueBackend.Backend.Finish` | jobs/backend/dbqueue/run.go:81-91 | the stored row becomes finished |
| `DbQueueBackend.Backend.Fail` | jobs/backend/dbqueue/run.go:93-112 | the snapshot's attempts plus one; with attempts left the row is available again at the retry time, otherwise failed, and no other column or row changes |
| `DbQueueBackend.Backend.Dispatch` | jobs/backend/dbqueue/run.go:63-79 | a held row ends finished if it was performed, available again at the retry time with one more attempt if it failed with attempts left, and failed otherwise; these are the two steps the code stands for |
| `DbQueueBackend.ComputeBackoff` | jobs/backend/dbqueue/run.go:118-131 | the delay lies between half of the capped exponential and all of it; the call panics if and only if the maximum is below minus one |
| `DbQueueBackend.BackoffDoubles` | jobs/backend/dbqueue/run.go:115-126 | while nothing overflows the delay before jitter doubles up to the tenth attempt or the maximum, and never shrinks |
| `DbQueueBackend.BackoffIff` | jobs/backend/dbqueue/run.go:114-126 | for every positive base and every maximum the delay before jitter is the doubled base, capped, for all attempts, if and only if none of the eleven products overflows to a positive number below the maximum |
| `DbQueueBackend.BackoffOverflows` | jobs/backend/dbqueue/run.go:124-126 | a base for which it is not: a late retry comes almost at once |
| `Preloads.RunPreload` | pack/preload.go:113-231 | main result: a parent with a key of its own and some matching row gets in its relation field every matching row, in the engine's order and with its own nested relations, or the first one for a single-valued relation; no other parent and no other field changes. It is what a query for each parent would give; it fails if and only if one of those would, then no parent is touched, and some relation has no columns to join on or a Where that cannot be rendered |
| `Preloads.SeparateHolds` | pack/preload.go:163-230 | one query per parent leaves in it exactly that, through every level of nesting |
| `Preloads.RunAll` | pack/query.go:313-317 | several relations of the same rows, one after the other, equal loading each row's separately |
| `Preloads.EveryWhereApplies` | pack/preload.go:30-54 | however many Where options are given, a child is loaded only when all of them hold |
| `Preloads.BatchByKey` | pack/preload.go:163-168 | the batched rows, cut down to one key, are the rows of that key's own query |
| `Preloads.ShareOfBatch` | pack/preload.go:163-228 | a parent's share of the loaded batch is what loading it alone gives |
| `Preloads.FailureOfBatch` | pack/preload.go:197-201 | a child whose nested relation cannot be loaded fails the parent it belongs to |
| `Preloads.LoadKeepsCols` | pack/preload.go:197-208 | loading nested relations leaves the columns children are grouped by alone |
| `Preloads.GroupParents` | pack/preload.go:145-159 | each nonzero key once, with exactly the places of the parents that have it |
| `Preloads.GroupChildren` | pack/preload.go:203-208 | each key's children, in fetch order |
| `Preloads.AssignChildren` | pack/preload.go:210-228 | in whatever order keys come, each parent's field gets all of its key's children, or the first for a single-valued relation; parents without a key or without children, and every other field, stay as they were |
| `Assets.HashesReachable` | assets/compile.go:173-194 | main result: on any graph, cycles included, a digest covers exactly the files reachable from the start, itself first, each once |
| `Assets.HashOrderIgnoresListOrder` | assets/compile.go:180-182 | the order in which references were found does not change the order of hashing |
| `Assets.HashOrderDepthFirst` | assets/compile.go:178-191 | right after a file comes the first by name of the files it refers to that have not come yet, as long as there is one |
| `Assets.DigestNotices` | assets/compile.go:173-194 | with the references as they are, changing one file changes the digested bytes of exactly the files that reach it |
| `AssetChanges.SameLengthChanges` | assets/compile.go:52-55 | however many files change, if those covered keep their lengths the hashed bytes differ if and only if a reachable file changed |
| `AssetChanges.FirstChangeNoticed` | assets/compile.go:173-194 | when lengths change too, the hashed bytes differ if of the first file that changed neither version starts with the other |
| `AssetChanges.EveryChangeNoticedIff` | assets/compile.go:52-55 | with the references as they are, every change of the files covered changes the hashed bytes, if and only if the file reaches nothing but itself or all it reaches is empty |
| `AssetChanges.TwoChangesCanCancel` | assets/compile.go:173-194 | bytes after an import may move to the start of the imported file: both files change, both still carry their references, and the hashed bytes are the same |
| `Assets.Digester.Walk` | assets/compile.go:178-191 | the walk visits and hashes exactly what the specification's depth-first order says, and ends |
| `Assets.Digest` | assets/compile.go:173-194 | the first sixteen digits of the hash of the reachable files' bytes, in order |
| `Assets.DigestedNameInjective` | assets/compile.go:196-202 | a digested name tells file and digest apart: no two files are written to one name |
| `Assets.DigestedNameIs` | assets/compile.go:196-202 | the digest goes between the base name and the extension, and the directory stays |
| `Assets.ExternalIff` | assets/compile.go:227-232 | a target is external if and only if it starts with two slashes, a web scheme or inline data; every path without a colon among its first six characters and without two slashes at its start is local |
| `Assets.LocalReferences` | assets/compile.go:151-163 | exactly what the local targets of one file join to, or the first target that is no known file |
| `Assets.ResolveReferences` | assets/compile.go:142-167 | fails if and only if some local target of a stylesheet or script is no known file; otherwise each such file refers to exactly what its local targets join to, and no other file to any |
| `Assets.Fingerprint` | assets/compile.go:77-80 | every file gets a name of its own made from the bytes of what it reaches |
| `Broadcaster.NeverPanics` | channels/backend/memory/memory.go:44-142 | in every interleaving of publishing, subscribing, receiving, unsubscribing and closing, no message is sent on a closed channel and none is closed twice |
| `Broadcaster.ReceivesInOrder` | channels/backend/memory/memory.go:44-60 | what a subscriber receives is an in-order, duplicate-free part of what was published on its topic |
| `Broadcaster.NothingLost` | channels/backend/memory/memory.go:44-60 | main result: from its subscription on, as long as it stays listed and its buffer has room whenever a message is sent to it, what a subscriber has received and what waits for it are exactly the publications on its topic, in order; only one still being sent may be missing |
| `Broadcaster.ClosedForGood` | channels/backend/memory/memory.go:93-117 | once closed, nothing is published and nobody is subscribed again |
| `Broadcaster.StepKeeps` | channels/backend/memory/memory.go:44-142 | every section under the mutex, and every step outside it, keeps the invariant |
| `Broadcaster.Backend.Publish` | channels/backend/memory/memory.go:44-60 | each subscriber listed under the topic with fewer than sixteen messages waiting has the message added at the end of its buffer; everything else about it, and every other subscriber, stays as it was |
| `Broadcaster.Backend.Subscribe` | channels/backend/memory/memory.go:64-83 | a new subscription is listed under its topic, unless the backend is closed |
| `Broadcaster.Backend.Unsubscribe` | channels/backend/memory/memory.go:130-143 | takes effect once: the subscription's channel is closed and it alone is delisted, from its own topic; every other subscriber stays listed where it was, and no topic is left with nobody |
| `Broadcaster.Backend.Close` | channels/backend/memory/memory.go:96-117 | every subscription listed is delisted and its channel closed |
| `HubSafety.IndexesAgree` | channels/hub.go:227-282 | in every run a subscriber is in a topic's fanout if and only if the topic is among its own, and no fanout is empty |
| `HubSafety.OneSubscriptionEach` | channels/hub.go:227-245 | a listed topic has exactly one subscription the hub has not given up; every unlisted fanout's has been |
| `HubSafety.GoneUntilStreaming` | channels/hub.go:266-282 | a subscriber with no topics is in no fanout, through any steps but its own streaming |
| `HubSafety.TeardownForgets` | channels/hub.go:202-205 | after a teardown, and until it streams again, no fanout mentions the subscriber |
| `HubSafety.DeliveredInOrder` | channels/hub.go:247-264 | what one fanout puts in a subscriber's outbox is an in-order, duplicate-free part of what was published on its topic, and an outbox never overflows |
| `HubSafety.EveryoneIsServed` | channels/hub.go:247-264 | whoever is in the fanout when its pump turns to the subscribers with a message is in the end sent it, unless the outbox is full when its turn comes, and until then the pump goes on to no other message |
| `HubSafety.HubNeverPanics` | channels/hub.go:227-282 | whatever the hub does, the broadcaster under it never panics |
| `HubInvariant.StepKeeps` | channels/hub.go:86-282 | every section under the hub's mutex and every send of a pump keeps the invariant |
| `Hub.Hub.StreamFrom` | channels/hub.go:227-245 | joins the topic's fanout, or opens one with a new subscription of its own; both indexes show it, and no other fanout changes |
| `Hub.Hub.UntrackTopics` | channels/hub.go:266-282 | the subscriber leaves every fanout; everyone else stays in theirs, and a topic is delisted exactly if the subscriber was alone in its fanout |
| `Hub.Hub.Subscribe` | channels/hub.go:130-177 | which error in which order of checks; a refused subscription is rolled back in both indexes, whatever its channel has streamed from by then |
| `Hub.Hub.Subscribed` | channels/hub.go:165-177 | a channel's Subscribed streaming from any topics is that many steps, and keeps the indexes agreeing |
| `Hub.Hub.RollBack` | channels/hub.go:168-173 | the name is forgotten and the subscriber is in no fanout any more |
| `Hub.Hub.Unsubscribe` | channels/hub.go:183-200 | the name is forgotten and its subscriber is in no fanout any more |
| `Hub.Hub.Disconnect` | channels/hub.go:103-122 | the connection is forgotten and none of its subscribers is in any fanout any more |
| `ServerSentEvents.Writer.WriteEvent` | channels/sse.go:77-88 | writes the name line, one data line for each line of the payload, and the empty line |
| `ServerSentEvents.FrameReceived` | channels/sse.go:77-88 | a client with nothing pending makes of one frame exactly its event, empty, multi-line and space-leading payloads included |
| `ServerSentEvents.HeartbeatIgnored` | channels/sse.go:92-95 | a heartbeat is invisible to the client |
| `ServerSentEvents.StreamRoundTrip` | channels/sse.go:74-95 | main result: a client following sections 9.2.5 and 9.2.6 of the WHATWG HTML Standard receives exactly the messages written, if and only if every name is a nonempty single line and no payload has a carriage return |
| `MemoryCache.Backend.Read` | cache/backend/memory/memory.go:67-83 | the value if the key has an entry that has no deadline or one not yet past, nothing otherwise; an entry found expired is removed |
| `MemoryCache.Backend.Exist` | cache/backend/memory/memory.go:113-127 | the same for presence |
| `MemoryCache.Backend.Write` | cache/backend/memory/memory.go:87-101 | replaces the entry, with a deadline only for a positive time to live |
| `MemoryCache.Backend.Increment` | cache/backend/memory/memory.go:131-155 | continues a live counter with its deadline, opens a new one otherwise, and refuses a value that is no integer |
| `MemoryCache.Backend.Sweep` | cache/backend/memory/memory.go:181-192 | removes exactly the expired entries |
| `MemoryCache.ReadsWhatWasWritten` | cache/backend/memory/memory.go:67-101 | after a Write, whatever is done with other keys, looked up or swept, the key is found with the value up to its deadline and not after |
| `MemoryCache.ReadsNothingDeleted` | cache/backend/memory/memory.go:104-127 | after a Delete it is not found until it is written again |
| `MemoryCache.Backend.Delete` | cache/backend/memory/memory.go:104-110 | removes that key and no other |
| `MemoryCache.FormatParses` | cache/backend/memory/memory.go:145-153 | a stored counter is read back as the number it was |
| `MemoryCache.StepAlike` | cache/backend/memory/memory.go:67-192 | a store that evicts and one that does not cannot be told apart after any operation either |
| `MemoryCache.EvictionInvisible` | cache/backend/memory/memory.go:67-192 | main result: with a clock that does not run backwards, evictions and sweeps placed anywhere change no answer, though a Write or a sweep may come to the mutex with an old reading of it |
| `RateLimit.Decide` | ratelimit/ratelimit.go:151-178 | admitted exactly when the counter is within the limit; otherwise retry-after is never negative and reaches the window's end |
| `RateLimit.StoreKeepsWindows` | cache/backend/memory/memory.go:131-155 | whatever is done to other keys, the answers to one key's requests are the counts of its windows |
| `RateLimit.AnswersAreWindows` | ratelimit/ratelimit.go:151-162 | the same through a store that evicts and sweeps |
| `RateLimit.AtMostLimitPerWindow` | ratelimit/ratelimit.go:151-162 | a window admits at most limit requests |
| `RateLimit.NoTwoWindowsOverlap` | cache/backend/memory/memory.go:138-144 | two requests share a window, or their windows have no instant in common |
| `RateLimit.LessThanTwicePerPeriod` | ratelimit/ratelimit.go:151-162 | any interval of one period, both ends included, admits fewer than twice the limit |
| `RateLimit.TwiceLessOneIsReached` | ratelimit/ratelimit.go:151-162 | and for every limit and period that bound is reached |
| `Settings.FindsLongestMatch` | settings.go:109-172 | main result: a field is found if and only if some path's tags spell the name, and it is the one whose consumed counts are lexicographically largest |
| `Settings.Config.ResolveField` | settings.go:109-172 | the search ends, writes the value at the chosen place or refuses it there, and changes nothing otherwise |
| `Settings.Config.TryAll` | settings.go:151-171 | the candidates are tried longest first, the first that leads anywhere decides |
| `Settings.Collect` | settings.go:121-145 | exactly the fields whose whole tag starts the name |
| `Settings.OverrideWritesOneLeaf` | settings.go:155-161 | an override changes the leaf its name finds to the value its kind reads in the text, and no other |
| `Settings.OverrideFailsIff` | settings.go:109-161 | it changes nothing if no path spells the name, and fails if and only if the longest match is a struct or its kind cannot read the text |
| `Settings.Config.ApplyEnvOverrides` | settings.go:91-107 | the variables in turn, stopping at the first whose value does not fit |
| `AsyncPoolSafety.CounterCountsPending` | jobs/backend/async/async.go:86-135 | main result: in every run the in-flight counter is the number of jobs queued, in send, on a timer or with a worker, so Drain ends exactly when none is; no job is done twice |
| `AsyncPoolSafety.OneWorkerPerJob` | jobs/backend/async/async.go:107-135 | a job is with at most one worker, and the queue never outgrows its capacity |
| `AsyncPoolSafety.SlotsCountHolders` | jobs/backend/async/async.go:141-174 | while no slot expires while held, a slot's count is the jobs that hold it, and they are within the limit |
| `AsyncPoolSafety.LateAcquireMiscounts` | jobs/backend/async/async.go:146-158 | acquiring a slot that expired while held leaves its count wrong |
| `AsyncPoolSafety.SlotsKeptIff` | jobs/backend/async/async.go:122-174 | so a step keeps every count right if and only if it acquires no slot that expired while held |
| `AsyncPoolSafety.LateAcquireReached` | jobs/backend/async/async.go:107-158 | with two workers and a limit of at least one, some run from an empty pool comes to such an acquire |
| `AsyncPool.Slots.TryAcquire` | jobs/backend/async/async.go:141-159 | succeeds if and only if fewer than limit places of the slot are held, an expired slot counting as empty; then one more is, until a duration from now, and no other slot changes |
| `AsyncPool.Slots.Release` | jobs/backend/async/async.go:161-174 | one place fewer is held, a slot with none left is deleted, and no other slot changes |
| `AsyncPoolInvariant.StepKeeps` | jobs/backend/async/async.go:86-135 | every step of a sender, timer or worker keeps the counter |
| `AsyncPoolInvariant.StepKeepsSlots` | jobs/backend/async/async.go:122-174 | every step keeps the slots, unless it acquires one that expired while held |
| `CreateAll.ChunksCover` | pack/create_all.go:105-112 | the chunks, end to end, are the rows; every chunk but the last is full and the last is not empty |
| `CreateAll.BatchSizeLargest` | pack/create_all.go:44-99 | a batch is as large as asked for, or a thousand rows, unless its values would be more than 65535; then as large as they allow, and at least one row |
| `CreateAll.ChunkReads` | pack/create_all.go:105-124 | an engine reads in a chunk's statement, for each of its rows, every insert column with that row's own value |
| `CreateAll.ChunkEndReads` | pack/create_all.go:113-161 | and the conflict clause asked for, with the generated columns returned wherever the dialect and the clause allow it |
| `CreateAll.StatementArgs` | pack/create_all.go:113-124 | a statement binds its rows' values row after row, then those of the conflict clause |
| `CreateAll.EveryStatementFits` | pack/create_all.go:91-99 | every statement binds at most 65535 values if and only if the longest chunk with its conflict arguments does; without conflict updates, if and only if there are at most 65535 insert columns |
| `CreateAll.UpdatesCanExceed` | pack/create_all.go:17-21 | a full batch with a conflict update binds more |
| `CreateAll.CreateAll` | pack/create_all.go:29-161 | main result: each chunk is sent once as its own INSERT, in order; an unset composite key stops the call before anything is sent; on success every row carries the id its own statement generated; on an error the rows of the accepted chunks have theirs, a short answer fills as many rows as it has ids for, and all later rows are as they were |
| `CreateAll.Backfill` | pack/create_all.go:186-225 | row j of the chunk gets the jth returned id, or the first id plus j; rows beyond the ids that came back, rows outside the chunk and everything else stay as they were; it is complete if and only if there was an id for every row that was to get one |
| `CreateAll.IdsComeBack` | pack/create_all.go:125-225 | in a complete call row i of a chunk has the ith id its own statement returned, or the first id plus i where there is no RETURNING, or its old one where none is asked for; nothing else of a row changes |

## Left out

- SqlMeaning.MeaningPreserved: raw fragments are excluded, because the renderer does not parenthesise them and their text is not parsed here; they are covered by the placeholder results. Stated for numbered placeholders; `Queries.PredicateReads` covers both kinds.
- ReadBack.InsertReads: a raw value must have some text, and there must be rows; an INSERT with an empty raw value, or without rows, is no SQL any engine takes.
- Queries.SelectReads: raw select lists, raw orderings and raw conditions are read as one unit each, so a clause keyword inside one is not seen; quoted names never are keywords.
- Predicates.PositionalIff: the text of raw fragments is taken to have no question mark of its own, which a driver would take for a marker.
- Statements.PositionalStatementIff: the same for the raw fragments of a whole statement.
- Rendering.Renderer.RenderRawFragment: a fragment arrives already cut at its placeholders; finding `$k` in the text by regular expression is not modelled.
- Preloads.SeparateHolds: it takes a broken relation for a load to fail, but a broken relation is not noticed where no parent has a key.
- Preloads.RunPreload: records are values, so children shared by several parents are copies rather than one pointer; keys are compared as SQL values, so pointer-typed and custom key fields are not covered; raw Where fragments and driver errors are left out.
- CloudTaskSafety.LimitHolds: one limit and one positive duration for each key; rows are read committed and row locks held until commit; SQLite, which has no row locks, is not modelled.
- CloudTaskBackend.Backend.HandlePush: authentication and body decoding are left out, apart from the zero job id.
- DbQueueSafety.LimitHolds: one limit and one duration for each key, and the single-statement claim only; `DbQueueLimit` has the rest.
- DbQueueBackend.Backend.Claim: the loop is shown over the single-statement claim; the row-locking claim is shown by itself.
- Broadcaster.ReceivesInOrder: messages carry their publication number so that they can be told apart; what is lost beyond a full buffer is shown by `Broadcaster.NothingLost` only for a subscriber that always has room.
- HubSafety.TeardownForgets: needs that no later StreamFrom names the subscriber, which channel code may do; nothing is said about a fanout member's connection still being known, because Subscribe does not look again.
- ServerSentEvents.StreamRoundTrip: text is a sequence of characters; UTF-8 decoding and failed writes are left out.
- MemoryCache.EvictionInvisible: a ttl that overflows the clock is not modelled.
- RateLimit.AnswersAreWindows: fewer than 2^63 calls, a positive period, and no Write, Delete or Clear of the limiter's own key; key building and response headers are left out.
- Settings.FindsLongestMatch: fields of one struct have different tags, as the sort of equally long matches is not stable; parsing a scalar is a parameter.
- CreateAll.CreateAll: hooks, and values that cannot be bound, are left out; the database's replies are a parameter.
- AssetChanges.EveryChangeNoticedIff: references are taken to stay as they are, so a change that also adds or drops a reference is not covered.
- Assets.Digest: SHA-256 and path joining are parameters; the regular expressions that find references are not modelled, nor is rewriting them in the output.
- Transactions.RootRefines: a lost connection, a failing COMMIT for other reasons, and Commit or Rollback called by hand are left out, as is PinnedConn.
- Transactions.CommitsIff: its condition is read off the tree's own semantics; `Transactions.CommitsAsDocumented` is what a caller can check beforehand.
- Cleanup of old job rows is a choice of any finished or failed row; retention times, batch sizes and the rescheduling chain of the Cloud Tasks cleanup are left out.
- The polling loop, semaphore and wait group of the database queue's workers.
- DDL rendering, migrations, drivers, model reflection, lifecycle hooks and result scanning.
- Database-backed cache and broadcaster, whose rows are evicted without looking at their expiry again.
- HTTP routing and middleware other than the rate limiter's decision, encryption, hashing, mail, templates and the command line.
