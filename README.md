# Trash purge: a Dafny model

This project models the trash purge job of an eZ Publish extension. The job
permanently removes content nodes that have been in the trash longer than a
retention period.

The model covers two parts:

- **The arrival ledger** (`ptTrash`, module `PtTrash`). It is the `pt_trash`
  table, keyed by `node_id`, that records when each node was trashed. The
  model has its schema, `fetch` and `removeExisting`. The table is a
  `map<int, int>` from node id to trashed time. A `Table` class holds it as
  shared, updatable state.
- **The batch purge controller** (`eZScriptTrashPurge`, module
  `ScriptTrashPurge`). Its `run` method:
  - resolves defaults and the cutoff time;
  - checks that the privileged user can be fetched;
  - returns early on an empty trash;
  - walks the trash list, purging each node that is old enough and removing
    its ledger row;
  - counts down a batch counter once per node and commits whenever it reaches
    0 or below, clearing the cache after each successful interim commit and
    then requesting a pause when `sleep > 0`;
  - makes a final commit at the end.

  The first failed commit ends the run with `false`.

The module `Store` holds the collaborators in abstract form:

- the content store, as the set of node ids still present;
- the database transaction, as a current state plus the state as of the last
  successful commit, and an open flag;
- a commit oracle, a sequence of booleans saying whether each successive
  commit succeeds (past its end, every commit succeeds);
- a count of content-cache invalidations.

A failed commit rolls back to the last committed state.

The controller is specified by functions over values, kept apart from its
imperative form:

- `Apply` is the effect of processing a list of nodes in order;
- `Expected` is how far a run gets for a list length, a limit and an oracle;
- `AfterRun` is everything a run can be observed to do.

`TrashPurge.Run` and its loop `TrashPurge.PurgeList` are imperative methods
proved against these functions. The loop is proved with the invariant
`LoopHead`.

Two behaviours of the code worth noting:

- **Commit count.** The counter is decremented for every listed node
  (classes/ezscripttrashpurge.php:151, outside the `if`), and the final
  commit at :175 always happens. So L listed nodes in batches of N > 0 give
  floor(L/N) interim commits plus one final commit, however many of them are
  eligible (`CommitCountWhenAllSucceed`, `OneFullBatchCommitsTwice`).
- **Node id 0.** `fetch` treats a falsy id as absent. So node 0 is always
  eligible and its ledger row, if any, is never removed (`EligibleIff`,
  `RemovedFrame`, `EligiblePurged`).

## Model

| member | source | states |
|---|---|---|
| PtTrash.DefinitionShape | classes/pttrash.php:14-34 | the schema has two required integer columns and its key is `node_id` alone, so a record's key is just its node id |
| PtTrash.OneRecordPerNode | classes/pttrash.php:16-29 | in a table that keeps the schema's key unique, two rows with the same node id are the same row: at most one `trashed` value per node |
| PtTrash.TableOf | classes/pttrash.php:16-29 | a key-unique table is faithfully a map: its keys are exactly the stored node ids and each maps to that row's `trashed` |
| PtTrash.Fetch | classes/pttrash.php:44-52 | id 0 gives null whatever the table holds; a non-zero id gives a record exactly when the table has a row under it, and then that row's node id and trashed time |
| PtTrash.FetchZeroIgnoresTable | classes/pttrash.php:46-47 | the answer for id 0 is null for any two tables, so the table is not consulted |
| PtTrash.Table.RemoveExisting | classes/pttrash.php:37-42 | the new table is `Removed(old table, id)`: the row under a non-zero id is deleted and nothing else changes |
| PtTrash.RemovedClears | classes/pttrash.php:37-42 | after removing a non-zero id, no row for it remains and `fetch` finds nothing |
| PtTrash.RemovedFrame | classes/pttrash.php:37-42 | every other key keeps its row and value, and so does id 0 |
| PtTrash.RemovedAbsentIsNoop | classes/pttrash.php:38-41 | removing an id that `fetch` does not find leaves the table unchanged |
| PtTrash.RemovedIdempotent | classes/pttrash.php:38-41 | removing twice equals removing once |
| Store.Database.Commit | classes/ezscripttrashpurge.php:157-162 | a commit succeeds as the oracle says; on success the pending state becomes durable, on failure it is rolled back; either way the transaction is closed and one commit is counted |
| Store.Database.Begin | classes/ezscripttrashpurge.php:127 | opening a transaction (here and again at :165) marks it open and changes nothing else: the pending and durable states, the oracle and the counters stay as they were |
| Store.Database.Purge | classes/ezscripttrashpurge.php:142 | purging a node removes it from the present nodes, pending until commit, and leaves the durable state, the transaction flag, the oracle and the counters unchanged |
| Store.Database.ClearCache | classes/ezscripttrashpurge.php:163 | clearing the content cache (here and again at :181) counts one more invalidation and leaves the store and the transaction unchanged |
| ScriptTrashPurge.IterationLimitOf | classes/ezscripttrashpurge.php:74-77 | a null limit becomes 10; any other value is used unchanged |
| ScriptTrashPurge.SleepOf | classes/ezscripttrashpurge.php:79-82 | a null sleep becomes 1; any other value is used unchanged |
| ScriptTrashPurge.Cutoff | classes/ezscripttrashpurge.php:90-95 | the cutoff is `now - 86400 * days`, with 7 days when the setting is absent |
| ScriptTrashPurge.EligibleIff | classes/ezscripttrashpurge.php:213-220 | a node is eligible exactly when it is id 0, has no ledger row, or was trashed strictly before the cutoff; trashed exactly at the cutoff is not eligible |
| ScriptTrashPurge.EligibleIffOlderThanRetention | classes/ezscripttrashpurge.php:90-95 | a recorded node is eligible exactly when it has been in the trash longer than the retention period in seconds |
| ScriptTrashPurge.ApplyIsPurged | classes/ezscripttrashpurge.php:129-149 | processing the nodes one by one in list order removes exactly the eligible listed nodes and their ledger rows (but for id 0), as the independent description `Purged` says |
| ScriptTrashPurge.EligibilityStable | classes/ezscripttrashpurge.php:129-149 | processing nodes never changes any node's eligibility, so a node's fate does not depend on its position in the list |
| ScriptTrashPurge.IneligibleUntouched | classes/ezscripttrashpurge.php:145-149 | a node trashed at or after the cutoff keeps its presence and its row, whatever is processed |
| ScriptTrashPurge.EligiblePurged | classes/ezscripttrashpurge.php:133-144 | a listed eligible node is purged and, if non-zero, its ledger row is removed |
| ScriptTrashPurge.UnlistedUntouched | classes/ezscripttrashpurge.php:129-149 | nodes not in the list keep their presence and rows |
| ScriptTrashPurge.ApplyConcat | classes/ezscripttrashpurge.php:129-172 | processing a list in two parts equals processing it whole, so committed batches compose into the whole run |
| ScriptTrashPurge.ApplyIdempotent | classes/ezscripttrashpurge.php:129-149 | a second pass over the same list purges nothing more |
| ScriptTrashPurge.BatchSize | classes/ezscripttrashpurge.php:151-166 | the counter reaches 0 or below after `limit` nodes when `limit > 0`, and after every node otherwise |
| ScriptTrashPurge.FirstFailure | classes/ezscripttrashpurge.php:157-162 | the first failing commit among the first `n`: all earlier ones succeed, it fails, or `n` when none fails |
| ScriptTrashPurge.QuotBounds | classes/ezscripttrashpurge.php:151-166 | `q` full batches fit in the list exactly when `q` is at most the number of full batches, and fewer than one batch is left over |
| ScriptTrashPurge.Expected | classes/ezscripttrashpurge.php:125-190 | a run succeeds exactly when every one of its floor(L/b)+1 commits succeeds; on success all L nodes are committed; on failure at commit `f`, `f+1` commits were attempted, the `f` full batches before it stay committed, and at most one batch more was processed |
| ScriptTrashPurge.ExpectedAtInterimFailure | classes/ezscripttrashpurge.php:154-162 | when interim commit `q` is the first to fail, the run has attempted `q+1` commits, keeps `q` batches and processed `q+1` batches |
| ScriptTrashPurge.ExpectedAtFinalCommit | classes/ezscripttrashpurge.php:174-180 | after `q` successful interim commits, the run's outcome is decided by the final commit alone |
| ScriptTrashPurge.CommitCountWhenAllSucceed | classes/ezscripttrashpurge.php:151-175 | with a positive limit N and every commit succeeding, a run over L nodes makes L/N interim commits, L/N+1 in all, and commits all L nodes |
| ScriptTrashPurge.CommitAfterEveryNode | classes/ezscripttrashpurge.php:151-166 | with a limit of 0 or less, every node is followed by an interim commit: L interim commits and L+1 in all |
| ScriptTrashPurge.FailureLosesAtMostOneBatch | classes/ezscripttrashpurge.php:157-179 | a failed run keeps exactly `f * b` committed nodes for the `f` interim commits that succeeded, and loses at most the one batch in progress |
| ScriptTrashPurge.OneFullBatchCommitsTwice | classes/ezscripttrashpurge.php:151-175 | exactly one full batch is followed by a second, empty, final commit |
| ScriptTrashPurge.SecondBatchFails | classes/ezscripttrashpurge.php:157-162 | batches of 2 over 5 nodes with the second commit failing: 4 nodes processed, 2 committed, 2 commits attempted |
| ScriptTrashPurge.TrashPurge.Monitor | classes/ezscripttrashpurge.php:198-204 | a checkpoint is appended to the memory log exactly when monitoring is on |
| ScriptTrashPurge.TrashPurge.PurgeIfOldEnough | classes/ezscripttrashpurge.php:132-149 | an eligible node gets a `purge` checkpoint, is purged and loses its ledger row; an ineligible one leaves everything unchanged |
| ScriptTrashPurge.TrashPurge.EndBatch | classes/ezscripttrashpurge.php:156-170 | the interim commit; on success the cache is cleared, a new transaction opened and a pause requested only when `sleep > 0`; on failure the batch is rolled back and nothing else happens |
| ScriptTrashPurge.TrashPurge.FinishRun | classes/ezscripttrashpurge.php:174-188 | the final commit; on success the cache is cleared and the `end` checkpoint logged, on failure neither |
| ScriptTrashPurge.TrashPurge.VisitNode | classes/ezscripttrashpurge.php:129-171 | one pass of the loop body keeps the loop invariant, or stops the run exactly when the interim commit fails, leaving the state `AfterRun` describes |
| ScriptTrashPurge.HeadAtBatchEnd | classes/ezscripttrashpurge.php:151-171 | the commit after the last node of a batch is commit number `batches`; on success the loop goes on with the counter reset to the limit, on failure the run is unsuccessful and ends as `AfterRun` says |
| ScriptTrashPurge.TrashPurge.PurgeList | classes/ezscripttrashpurge.php:124-190 | the loop and final commit: the result is the `ok` of `Expected`, and the database, memory log and pauses end as `AfterRun` describes |
| ScriptTrashPurge.TrashPurge.Run | classes/ezscripttrashpurge.php:72-191 | without the privileged user: false, database and ledger untouched; with an empty trash: true, untouched; otherwise the result is `Expected(...).ok`, the durable store is the listed prefix `Expected` says was committed, processed through `Apply`, and commits, cache clears, pauses and memory checkpoints are exactly as counted |

## Left out

- Console output (`eZCLI` output and errors, the `quiet` flag): operator messaging only, with no effect on state.
- Memory monitoring: the memory log records which checkpoints were logged, not the figures `memory_get_usage` returns or the contents of the rotated file.
- `time()` and `sleep()`: `now` is a parameter of `Run`, and a pause is recorded as a request instead of waited out.
- INI configuration: the retention setting arrives as an optional integer (`None` when absent); non-integer INI values are not modelled.
- User identity: `eZUser::fetch` and `setCurrentlyLoggedInUser` become the boolean `userResolved`.
- The trash list itself: `trashList` is given as node ids, and the trash count is taken to be its length.
- `$object->purge()` and `eZContentObject::clearCache()`: a purge is removal from the set of present nodes; a cache clear is a counter.
- SQL and persistent-object machinery (`fetchObject`, `remove`) and the `$asObject` parameter of `fetch`: the table is a map and `fetch` returns a record value.
- PHP falsiness: only the id 0 is treated as falsy; other falsy values (null, "", "0") are outside the integer type used here.
- Nested transactions: `Run` requires that no transaction is open on entry.
- ScriptTrashPurge.Cutoff: integers are unbounded, so the 64-bit PHP integer turning into a float when `86400 * days` passes PHP_INT_MAX is not modelled; no realistic retention setting comes near it.
