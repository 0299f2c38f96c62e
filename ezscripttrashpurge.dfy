/**
 * The batch purge controller (`eZScriptTrashPurge`): it walks the trash
 * list, permanently removes every node that has been in the trash longer
 * than the retention period (or whose arrival time is unknown), deletes its
 * ledger row, and commits the work in batches of `iterationLimit` nodes.
 *
 * The first half of this module says what a run does: eligibility, the
 * effect of processing a sequence of nodes, and how many commits a run
 * attempts. The class `TrashPurge` at the end is the controller itself.
 */
module ScriptTrashPurge {
  import opened Wrappers
  import opened PtTrash
  import opened Store

  const SecondsPerDay := 86400
  const DefaultIterationLimit := 10
  const DefaultSleep := 1
  const DefaultRetentionDays := 7

  // ---------------------------------------------------------------- inputs

  /** A null `iterationLimit` becomes 10; any other value is used as given. */
  function IterationLimitOf(requested: Option<int>): (limit: int)
    ensures requested == None ==> limit == DefaultIterationLimit
    ensures requested.Some? ==> limit == requested.value
  {
    requested.GetOr(DefaultIterationLimit)
  }

  /** A null `sleep` becomes 1; any other value is used as given. */
  function SleepOf(requested: Option<int>): (seconds: int)
    ensures requested == None ==> seconds == DefaultSleep
    ensures requested.Some? ==> seconds == requested.value
  {
    requested.GetOr(DefaultSleep)
  }

  /** `TrashSettings.DaysInTrashBeforePurge`, 7 when the setting is absent. */
  function RetentionDays(setting: Option<int>): int {
    setting.GetOr(DefaultRetentionDays)
  }

  /** The purge cutoff: `now` less the retention period in seconds. */
  function Cutoff(now: int, setting: Option<int>): (cutoff: int)
    ensures setting == None ==> cutoff == now - 7 * 86400
    ensures setting.Some? ==> now - cutoff == 86400 * setting.value
  {
    now - SecondsPerDay * RetentionDays(setting)
  }

  // ----------------------------------------------------------- eligibility

  /**
   * `isTrashNodeOldEnoughToPurge`: a node with no ledger row (as `fetch`
   * sees it) may be purged; otherwise only if it was trashed strictly
   * before the cutoff.
   */
  predicate IsTrashNodeOldEnoughToPurge(table: map<int, int>, nodeId: int, cutoff: int) {
    match Fetch(table, nodeId)
    case None => true
    case Some(record) => record.trashed < cutoff
  }

  /** Eligibility in terms of the table: missing row or id 0, or trashed strictly before the cutoff. */
  lemma EligibleIff(table: map<int, int>, nodeId: int, cutoff: int)
    ensures IsTrashNodeOldEnoughToPurge(table, nodeId, cutoff)
        <==> nodeId == 0 || nodeId !in table || table[nodeId] < cutoff
    ensures nodeId != 0 && nodeId in table && table[nodeId] == cutoff
        ==> !IsTrashNodeOldEnoughToPurge(table, nodeId, cutoff)
  {
  }

  /** A recorded node is eligible exactly when it has been in the trash longer than the retention period. */
  lemma EligibleIffOlderThanRetention(table: map<int, int>, nodeId: int, now: int, setting: Option<int>)
    requires nodeId != 0 && nodeId in table
    ensures IsTrashNodeOldEnoughToPurge(table, nodeId, Cutoff(now, setting))
        <==> now - table[nodeId] > 86400 * RetentionDays(setting)
  {
  }

  // ------------------------------------------------- effect of processing

  /** One iteration of the loop body on the store: purge and forget an eligible node, skip the others. */
  function Step(s: Snapshot, nodeId: int, cutoff: int): Snapshot {
    if IsTrashNodeOldEnoughToPurge(s.rows, nodeId, cutoff)
    then Snapshot(s.nodes - {nodeId}, Removed(s.rows, nodeId))
    else s
  }

  /** The loop body applied to each node of `ids`, in list order. */
  function Apply(s: Snapshot, ids: seq<int>, cutoff: int): Snapshot
    decreases |ids|
  {
    if ids == [] then s else Step(Apply(s, ids[..|ids| - 1], cutoff), ids[|ids| - 1], cutoff)
  }

  /** The nodes of `ids` that are eligible against `table`. */
  function EligibleIn(table: map<int, int>, ids: seq<int>, cutoff: int): set<int> {
    set x | x in ids && IsTrashNodeOldEnoughToPurge(table, x, cutoff)
  }

  /** An independent description of a run's effect: the eligible nodes disappear, with their rows (but for id 0). */
  function Purged(s: Snapshot, ids: seq<int>, cutoff: int): Snapshot {
    var gone := EligibleIn(s.rows, ids, cutoff);
    Snapshot(s.nodes - gone, s.rows - (gone - {0}))
  }

  /** Processing the nodes one by one has exactly the effect that `Purged` describes. */
  lemma {:induction false} ApplyIsPurged(s: Snapshot, ids: seq<int>, cutoff: int)
    ensures Apply(s, ids, cutoff) == Purged(s, ids, cutoff)
    decreases |ids|
  {
    if ids != [] {
      var front, x := ids[..|ids| - 1], ids[|ids| - 1];
      ApplyIsPurged(s, front, cutoff);
      var mid := Purged(s, front, cutoff);
      var goneFront := EligibleIn(s.rows, front, cutoff);
      assert ids == front + [x];
      assert EligE: IsTrashNodeOldEnoughToPurge(mid.rows, x, cutoff) == IsTrashNodeOldEnoughToPurge(s.rows, x, cutoff) by {
        if x != 0 && x in goneFront {
          assert x !in mid.rows;
        }
      }
      if IsTrashNodeOldEnoughToPurge(s.rows, x, cutoff) {
        assert EligibleIn(s.rows, ids, cutoff) == goneFront + {x};
        assert Removed(mid.rows, x) == s.rows - (goneFront + {x} - {0});
      } else {
        assert EligibleIn(s.rows, ids, cutoff) == goneFront;
      }
    }
  }

  /** Processing nodes never changes any node's eligibility, so list order does not matter to it. */
  lemma EligibilityStable(s: Snapshot, ids: seq<int>, cutoff: int, x: int)
    ensures IsTrashNodeOldEnoughToPurge(Apply(s, ids, cutoff).rows, x, cutoff)
        == IsTrashNodeOldEnoughToPurge(s.rows, x, cutoff)
  {
    ApplyIsPurged(s, ids, cutoff);
    if x != 0 && x in EligibleIn(s.rows, ids, cutoff) {
      assert x !in Apply(s, ids, cutoff).rows;
    }
  }

  /** A node with a row not older than the cutoff is never purged, and its row is never touched. */
  lemma IneligibleUntouched(s: Snapshot, ids: seq<int>, cutoff: int, x: int)
    requires x != 0 && x in s.rows && s.rows[x] >= cutoff
    ensures x in Apply(s, ids, cutoff).nodes <==> x in s.nodes
    ensures x in Apply(s, ids, cutoff).rows && Apply(s, ids, cutoff).rows[x] == s.rows[x]
  {
    ApplyIsPurged(s, ids, cutoff);
  }

  /** A listed eligible node is purged, and its row removed (id 0 has no row `fetch` can see). */
  lemma EligiblePurged(s: Snapshot, ids: seq<int>, cutoff: int, x: int)
    requires x in ids && IsTrashNodeOldEnoughToPurge(s.rows, x, cutoff)
    ensures x !in Apply(s, ids, cutoff).nodes
    ensures x != 0 ==> x !in Apply(s, ids, cutoff).rows
  {
    ApplyIsPurged(s, ids, cutoff);
  }

  /** Nodes that are not in the list keep their presence and their rows. */
  lemma UnlistedUntouched(s: Snapshot, ids: seq<int>, cutoff: int, x: int)
    requires x !in ids
    ensures x in Apply(s, ids, cutoff).nodes <==> x in s.nodes
    ensures x in Apply(s, ids, cutoff).rows <==> x in s.rows
    ensures x in s.rows ==> Apply(s, ids, cutoff).rows[x] == s.rows[x]
  {
    ApplyIsPurged(s, ids, cutoff);
  }

  /** Processing a list in two parts is processing it whole: committed batches compose. */
  lemma {:induction false} ApplyConcat(s: Snapshot, a: seq<int>, b: seq<int>, cutoff: int)
    ensures Apply(Apply(s, a, cutoff), b, cutoff) == Apply(s, a + b, cutoff)
    decreases |b|
  {
    if b == [] {
      assert a + b == a;
    } else {
      var front := b[..|b| - 1];
      ApplyConcat(s, a, front, cutoff);
      assert (a + b)[..|a + b| - 1] == a + front;
    }
  }

  /** A second pass over the same list finds nothing more to purge. */
  lemma ApplyIdempotent(s: Snapshot, ids: seq<int>, cutoff: int)
    ensures Apply(Apply(s, ids, cutoff), ids, cutoff) == Apply(s, ids, cutoff)
  {
    var once := Apply(s, ids, cutoff);
    ApplyIsPurged(s, ids, cutoff);
    ApplyIsPurged(once, ids, cutoff);
    forall x | x in ids
      ensures IsTrashNodeOldEnoughToPurge(once.rows, x, cutoff) == IsTrashNodeOldEnoughToPurge(s.rows, x, cutoff)
    {
      EligibilityStable(s, ids, cutoff, x);
    }
    assert EligibleIn(once.rows, ids, cutoff) == EligibleIn(s.rows, ids, cutoff);
  }

  /** The number of eligible entries in `ids` (each one a `purge` memory checkpoint). */
  function CountEligible(table: map<int, int>, ids: seq<int>, cutoff: int): (n: nat)
    ensures n <= |ids|
    decreases |ids|
  {
    if ids == [] then 0
    else CountEligible(table, ids[..|ids| - 1], cutoff)
         + (if IsTrashNodeOldEnoughToPurge(table, ids[|ids| - 1], cutoff) then 1 else 0)
  }

  // ------------------------------------------------------------- batching

  /**
   * The number of nodes between interim commits: the counter starts at
   * `limit` and a commit follows as soon as it drops to 0 or below, so a
   * limit of 0 or less commits after every node.
   */
  function BatchSize(limit: int): (b: nat)
    ensures b >= 1
    ensures limit > 0 ==> b == limit
    ensures limit <= 0 ==> b == 1
  {
    if limit > 0 then limit else 1
  }

  /** The index of the first failing commit among the first `n`, or `n` if they all succeed. */
  function FirstFailure(outcomes: seq<bool>, n: nat): (f: nat)
    ensures f <= n
    ensures forall k :: 0 <= k < f ==> Succeeds(outcomes, k)
    ensures f < n ==> !Succeeds(outcomes, f)
  {
    if n == 0 then 0
    else
      var f := FirstFailure(outcomes, n - 1);
      if f < n - 1 then f else if Succeeds(outcomes, n - 1) then n else n - 1
  }

  /**
   * `q` batches of `b` nodes, counted by repeated addition (equal to
   * `q * b`, see `TimesIsProduct`); the batch bookkeeping is stated with it
   * so that its proofs stay linear.
   */
  function Times(q: nat, b: nat): nat {
    if q == 0 then 0 else Times(q - 1, b) + b
  }

  /** The number of full batches of `b` in `a` nodes, by repeated subtraction (equal to `a / b`, see `QuotIsDiv`). */
  function Quot(a: nat, b: nat): nat
    requires b >= 1
    decreases a
  {
    if a < b then 0 else 1 + Quot(a - b, b)
  }

  /** `q` batches fit in `a` nodes exactly when `q` is at most the number of full batches. */
  lemma {:induction false} QuotBounds(a: nat, b: nat, q: nat)
    requires b >= 1
    ensures Times(q, b) <= a <==> q <= Quot(a, b)
    ensures a - Times(Quot(a, b), b) < b
    decreases a
  {
    if a >= b {
      QuotBounds(a - b, b, if q > 0 then q - 1 else 0);
      assert Times(Quot(a, b), b) == Times(Quot(a - b, b), b) + b;
    } else if q > 0 {
      TimesAtLeast(q, b);
    }
  }

  lemma {:induction false} TimesAtLeast(q: nat, b: nat)
    requires q > 0 && b >= 1
    ensures Times(q, b) >= b
  {
    if q > 1 {
      TimesAtLeast(q - 1, b);
    }
  }

  /** Dividing `Times(q, b) + r` with `0 <= r < b` into batches of `b` gives `q` full batches. */
  lemma QuotOfParts(a: nat, b: nat, q: nat, r: int)
    requires b >= 1 && 0 <= r < b && a == Times(q, b) + r
    ensures Quot(a, b) == q
  {
    QuotBounds(a, b, q);
    QuotBounds(a, b, q + 1);
  }

  lemma MulSucc(x: int, b: int)
    ensures (x + 1) * b == x * b + b
  {
  }

  lemma MulLe(x: int, y: int, b: int)
    requires x <= y && b >= 0
    ensures x * b <= y * b
  {
  }

  /** Division recovers the quotient of `a == q * b + r` with `0 <= r < b`. */
  lemma DivOfParts(a: int, q: int, r: int, b: int)
    requires b >= 1 && 0 <= q && 0 <= r < b && a == q * b + r
    ensures a / b == q
  {
    var d := a / b;
    assert a == d * b + a % b;
    if d < q {
      MulLe(d + 1, q, b);
      MulSucc(d, b);
    }
    if d > q {
      MulLe(q + 1, d, b);
      MulSucc(q, b);
    }
  }

  lemma {:induction false} TimesIsProduct(q: nat, b: nat)
    ensures Times(q, b) == q * b
  {
    if q > 0 {
      TimesIsProduct(q - 1, b);
      MulSucc(q - 1, b);
    }
  }

  lemma QuotIsDiv(a: nat, b: nat)
    requires b >= 1
    ensures Quot(a, b) == a / b
  {
    var q := Quot(a, b);
    QuotBounds(a, b, q);
    TimesIsProduct(q, b);
    DivOfParts(a, q, a - Times(q, b), b);
  }

  /**
   * How far a run over `length` nodes gets: whether it succeeds, how many
   * commits it attempts, how many interim commits succeed, how many leading
   * nodes end up committed and how many were processed.
   */
  datatype Progress = Progress(ok: bool, attempts: nat, interim: nat, committed: nat, processed: nat)

  /**
   * The progress of a run: `Quot(length, b)` interim commits, one after
   * each full batch of `b = BatchSize(limit)` nodes, then the final commit;
   * the first failing commit stops the run, and only the batches before it
   * stay committed.
   */
  function Expected(length: nat, limit: int, outcomes: seq<bool>): (p: Progress)
    requires length > 0
    ensures p.committed <= p.processed <= length
    ensures p.ok <==> forall k :: 0 <= k <= Quot(length, BatchSize(limit)) ==> Succeeds(outcomes, k)
    ensures p.ok ==> && p.interim == Quot(length, BatchSize(limit)) && p.attempts == p.interim + 1
                     && p.committed == p.processed == length
    ensures !p.ok ==> && p.attempts == p.interim + 1 && !Succeeds(outcomes, p.interim)
                      && (forall k :: 0 <= k < p.interim ==> Succeeds(outcomes, k))
                      && p.committed == Times(p.interim, BatchSize(limit))
                      && p.processed - p.committed <= BatchSize(limit)
  {
    var b := BatchSize(limit);
    var n := Quot(length, b) + 1;
    var f := FirstFailure(outcomes, n);
    QuotBounds(length, b, if f < n then f else n - 1);
    QuotBounds(length, b, if f < n then f + 1 else n);
    if f == n then Progress(true, n, n - 1, length, length)
    else Progress(false, f + 1, f, Times(f, b), if f < n - 1 then Times(f + 1, b) else length)
  }

  /** The progress of a run whose interim commit number `q`, after `q + 1` full batches, is the first to fail. */
  lemma ExpectedAtInterimFailure(length: nat, limit: int, outcomes: seq<bool>, q: nat)
    requires length > 0 && Times(q + 1, BatchSize(limit)) <= length
    requires forall k :: 0 <= k < q ==> Succeeds(outcomes, k)
    requires !Succeeds(outcomes, q)
    ensures Expected(length, limit, outcomes)
         == Progress(false, q + 1, q, Times(q, BatchSize(limit)), Times(q + 1, BatchSize(limit)))
  {
    QuotBounds(length, BatchSize(limit), q + 1);
  }

  /** The progress of a run whose first `q` commits succeeded and whose final commit is number `q`. */
  lemma ExpectedAtFinalCommit(length: nat, limit: int, outcomes: seq<bool>, q: nat, rest: int)
    requires length > 0 && 0 <= rest < BatchSize(limit) && length == Times(q, BatchSize(limit)) + rest
    requires forall k :: 0 <= k < q ==> Succeeds(outcomes, k)
    ensures Expected(length, limit, outcomes)
         == if Succeeds(outcomes, q) then Progress(true, q + 1, q, length, length)
            else Progress(false, q + 1, q, Times(q, BatchSize(limit)), length)
  {
    QuotOfParts(length, BatchSize(limit), q, rest);
    assert FirstFailure(outcomes, q + 1) == if Succeeds(outcomes, q) then q + 1 else q;
  }

  /**
   * In ordinary arithmetic: with every commit succeeding and a limit
   * `N > 0`, a run makes floor(L/N) interim commits and one final one, all
   * L nodes committed.
   */
  lemma CommitCountWhenAllSucceed(length: nat, limit: int, outcomes: seq<bool>)
    requires length > 0 && limit > 0
    requires forall k :: 0 <= k < |outcomes| ==> outcomes[k]
    ensures Expected(length, limit, outcomes).ok
    ensures Expected(length, limit, outcomes).interim == length / limit
    ensures Expected(length, limit, outcomes).attempts == length / limit + 1
    ensures Expected(length, limit, outcomes).committed == length
  {
    QuotIsDiv(length, limit);
  }

  /**
   * In ordinary arithmetic: a run that fails at commit `f` keeps the first
   * `f * b` nodes committed, and loses at most the one batch of `b` nodes it
   * was working on.
   */
  lemma FailureLosesAtMostOneBatch(length: nat, limit: int, outcomes: seq<bool>)
    requires length > 0
    requires !Expected(length, limit, outcomes).ok
    ensures var p := Expected(length, limit, outcomes);
      && p.committed == p.interim * BatchSize(limit)
      && p.interim <= length / BatchSize(limit)
      && p.processed - p.committed <= BatchSize(limit)
  {
    var p := Expected(length, limit, outcomes);
    TimesIsProduct(p.interim, BatchSize(limit));
    QuotIsDiv(length, BatchSize(limit));
  }

  /** With a limit of 0 or less every node is followed by an interim commit. */
  lemma CommitAfterEveryNode(length: nat, limit: int, outcomes: seq<bool>)
    requires length > 0 && limit <= 0
    requires forall k :: 0 <= k < |outcomes| ==> outcomes[k]
    ensures Expected(length, limit, outcomes).interim == length
    ensures Expected(length, limit, outcomes).attempts == length + 1
  {
    QuotIsDiv(length, 1);
  }

  /** Exactly one full batch still ends with a second, empty, final commit. */
  lemma OneFullBatchCommitsTwice(limit: int)
    requires limit > 0
    ensures Expected(limit, limit, []) == Progress(true, 2, 1, limit, limit)
  {
    QuotOfParts(limit, limit, 1, 0);
  }

  /**
   * Batches of 2 over 5 nodes, the second commit failing: nodes 1-4 were
   * processed, only nodes 1-2 stay committed, node 5 is never reached.
   */
  lemma SecondBatchFails()
    ensures Expected(5, 2, [true, false]) == Progress(false, 2, 1, 2, 4)
  {
    QuotOfParts(5, 2, 2, 1);
    assert FirstFailure([true, false], 3) == 1;
  }

  // ------------------------------------------------------------ the controller

  /** The lifecycle points at which memory usage is logged. */
  datatype Checkpoint = Start | Purge | End

  /** An entry of the memory log: the rotation at run start, or a checkpoint. */
  datatype LogEntry = Rotated | Memory(checkpoint: Checkpoint)

  /** `s` if `b` holds, nothing otherwise. */
  function When<T>(b: bool, s: seq<T>): (r: seq<T>)
    ensures r == if b then s else []
  {
    if b then s else []
  }

  /** `n` copies of `x`. */
  function Repeat<T>(x: T, n: nat): (r: seq<T>)
    ensures |r| == n
    ensures forall i :: 0 <= i < n ==> r[i] == x
  {
    if n == 0 then [] else Repeat(x, n - 1) + [x]
  }

  /** Appending one `purge` checkpoint when the node is eligible keeps the log a run of checkpoints. */
  lemma LogStep(log: seq<LogEntry>, monitoring: bool, n: nat, eligible: bool)
    ensures log + When(monitoring, Repeat(Memory(Purge), n)) + When(monitoring && eligible, [Memory(Purge)])
         == log + When(monitoring, Repeat(Memory(Purge), n + (if eligible then 1 else 0)))
  {
    if monitoring && eligible {
      assert Repeat(Memory(Purge), n + 1) == Repeat(Memory(Purge), n) + [Memory(Purge)];
    }
  }

  /** What a run can be observed to do: the database, the memory log and the pauses requested. */
  datatype Observed = Observed(db: DbState, memoryLog: seq<LogEntry>, pauses: seq<int>)

  /** The effect of the loop body on one node (`PurgeIfOldEnough`). */
  function AfterNode(s: Observed, nodeId: int, cutoff: int, monitoring: bool): Observed {
    Observed(s.db.(current := Step(s.db.current, nodeId, cutoff)),
             s.memoryLog + When(monitoring && IsTrashNodeOldEnoughToPurge(s.db.current.rows, nodeId, cutoff),
                                [Memory(Purge)]),
             s.pauses)
  }

  /** The effect of an interim commit (`EndBatch`): on success the batch is durable and a new transaction open. */
  function AfterEndBatch(s: Observed, pause: int): Observed {
    var db := s.db;
    if Succeeds(db.outcomes, 0) then
      Observed(DbState(db.current, db.current, true, Drop(db.outcomes, 1), db.commits + 1, db.cacheClears + 1),
               s.memoryLog, s.pauses + When(pause > 0, [pause]))
    else
      Observed(DbState(db.durable, db.durable, false, Drop(db.outcomes, 1), db.commits + 1, db.cacheClears),
               s.memoryLog, s.pauses)
  }

  /** The effect of the final commit and what follows it (`FinishRun`). */
  function AfterFinish(s: Observed, monitoring: bool): Observed {
    var db := s.db;
    if Succeeds(db.outcomes, 0) then
      Observed(DbState(db.current, db.current, false, Drop(db.outcomes, 1), db.commits + 1, db.cacheClears + 1),
               s.memoryLog + When(monitoring, [Memory(End)]), s.pauses)
    else
      Observed(DbState(db.durable, db.durable, false, Drop(db.outcomes, 1), db.commits + 1, db.cacheClears),
               s.memoryLog, s.pauses)
  }

  /**
   * The state at the head of the batch loop with `i` nodes processed and
   * `batches` interim commits done, all of them successful.
   */
  function AtHead(s0: Observed, trashList: seq<int>, limit: int, pause: int, cutoff: int, monitoring: bool,
                  i: nat, batches: nat): Observed
    requires i <= |trashList| && Times(batches, BatchSize(limit)) <= i
  {
    var start := s0.db.current;
    Observed(DbState(Apply(start, trashList[..i], cutoff),
                     Apply(start, trashList[..Times(batches, BatchSize(limit))], cutoff),
                     true, Drop(s0.db.outcomes, batches), s0.db.commits + batches, s0.db.cacheClears + batches),
             s0.memoryLog + When(monitoring, Repeat(Memory(Purge), CountEligible(start.rows, trashList[..i], cutoff))),
             s0.pauses + Repeat(pause, if pause > 0 then batches else 0))
  }

  /**
   * The outcome of the batch loop over a non-empty list, from `s0`: the
   * committed prefix is purged and nothing else, the commits are counted as
   * `Expected` says, one `purge` checkpoint per eligible node processed, and
   * an `end` checkpoint only on success.
   */
  function AfterRun(s0: Observed, trashList: seq<int>, limit: int, pause: int, cutoff: int, monitoring: bool): Observed
    requires trashList != []
  {
    var p := Expected(|trashList|, limit, s0.db.outcomes);
    var start := s0.db.current;
    var committed := Apply(start, trashList[..p.committed], cutoff);
    Observed(DbState(committed, committed, false, Drop(s0.db.outcomes, p.attempts),
                     s0.db.commits + p.attempts, s0.db.cacheClears + p.interim + (if p.ok then 1 else 0)),
             s0.memoryLog + When(monitoring,
               Repeat(Memory(Purge), CountEligible(start.rows, trashList[..p.processed], cutoff))
               + (if p.ok then [Memory(End)] else [])),
             s0.pauses + Repeat(pause, if pause > 0 then p.interim else 0))
  }

  /** The memory log of a run, counted from before the `Rotated` and `start` entries. */
  lemma RunLog(s0: Observed, trashList: seq<int>, limit: int, pause: int, cutoff: int, monitoring: bool,
               log0: seq<LogEntry>)
    requires trashList != []
    requires s0.memoryLog == log0 + When(monitoring, [Rotated, Memory(Start)])
    ensures var p := Expected(|trashList|, limit, s0.db.outcomes);
            AfterRun(s0, trashList, limit, pause, cutoff, monitoring).memoryLog
            == log0 + When(monitoring,
                 [Rotated, Memory(Start)]
                 + Repeat(Memory(Purge), CountEligible(s0.db.current.rows, trashList[..p.processed], cutoff))
                 + (if p.ok then [Memory(End)] else []))
  {
  }

  /** Opening the first transaction puts the loop at its head with nothing done. */
  lemma LoopEntry(s0: Observed, trashList: seq<int>, limit: int, pause: int, cutoff: int, monitoring: bool)
    ensures AtHead(s0, trashList, limit, pause, cutoff, monitoring, 0, 0)
         == Observed(s0.db.(durable := s0.db.current, open := true), s0.memoryLog, s0.pauses)
  {
    assert trashList[..0] == [];
  }

  /** One node processed: the loop moves one place along. */
  lemma NodeStep(s0: Observed, trashList: seq<int>, limit: int, pause: int, cutoff: int, monitoring: bool,
                 i: nat, batches: nat)
    requires i < |trashList| && Times(batches, BatchSize(limit)) <= i
    ensures AfterNode(AtHead(s0, trashList, limit, pause, cutoff, monitoring, i, batches), trashList[i], cutoff, monitoring)
         == AtHead(s0, trashList, limit, pause, cutoff, monitoring, i + 1, batches)
  {
    var start := s0.db.current;
    assert trashList[..i + 1][..i] == trashList[..i];
    EligibilityStable(start, trashList[..i], cutoff, trashList[i]);
    LogStep(s0.memoryLog, monitoring, CountEligible(start.rows, trashList[..i], cutoff),
            IsTrashNodeOldEnoughToPurge(start.rows, trashList[i], cutoff));
  }

  /** A successful interim commit after `q + 1` full batches: the batch is durable. */
  lemma BatchCommitted(s0: Observed, trashList: seq<int>, limit: int, pause: int, cutoff: int, monitoring: bool,
                       i: nat, q: nat)
    requires i <= |trashList| && i == Times(q + 1, BatchSize(limit))
    requires Succeeds(s0.db.outcomes, q)
    ensures Times(q, BatchSize(limit)) <= i
    ensures AfterEndBatch(AtHead(s0, trashList, limit, pause, cutoff, monitoring, i, q), pause)
         == AtHead(s0, trashList, limit, pause, cutoff, monitoring, i, q + 1)
  {
    DropSucceeds(s0.db.outcomes, q, 0);
    DropDrop(s0.db.outcomes, q);
    if pause > 0 {
      assert Repeat(pause, q + 1) == Repeat(pause, q) + [pause];
    }
  }

  /** A failed interim commit: the batch is rolled back and the run ends as `AfterRun` says. */
  lemma BatchFailed(s0: Observed, trashList: seq<int>, limit: int, pause: int, cutoff: int, monitoring: bool,
                    i: nat, q: nat)
    requires 0 < i <= |trashList| && i == Times(q + 1, BatchSize(limit))
    requires forall k :: 0 <= k < q ==> Succeeds(s0.db.outcomes, k)
    requires !Succeeds(s0.db.outcomes, q)
    ensures Times(q, BatchSize(limit)) <= i
    ensures AfterEndBatch(AtHead(s0, trashList, limit, pause, cutoff, monitoring, i, q), pause)
         == AfterRun(s0, trashList, limit, pause, cutoff, monitoring)
  {
    DropSucceeds(s0.db.outcomes, q, 0);
    DropDrop(s0.db.outcomes, q);
    ExpectedAtInterimFailure(|trashList|, limit, s0.db.outcomes, q);
  }

  /** The final commit, after `q` full batches and `rest` more nodes, ends the run as `AfterRun` says. */
  lemma FinalCommit(s0: Observed, trashList: seq<int>, limit: int, pause: int, cutoff: int, monitoring: bool,
                    q: nat, rest: int)
    requires trashList != [] && 0 <= rest < BatchSize(limit) && |trashList| == Times(q, BatchSize(limit)) + rest
    requires forall k :: 0 <= k < q ==> Succeeds(s0.db.outcomes, k)
    ensures AfterFinish(AtHead(s0, trashList, limit, pause, cutoff, monitoring, |trashList|, q), monitoring)
         == AfterRun(s0, trashList, limit, pause, cutoff, monitoring)
  {
    DropSucceeds(s0.db.outcomes, q, 0);
    DropDrop(s0.db.outcomes, q);
    ExpectedAtFinalCommit(|trashList|, limit, s0.db.outcomes, q, rest);
    assert trashList[..|trashList|] == trashList;
    if Succeeds(s0.db.outcomes, q) {
      FinalCommitted(s0, trashList, limit, pause, cutoff, monitoring, q);
    } else {
      FinalFailed(s0, trashList, limit, pause, cutoff, monitoring, q);
    }
  }

  /** The final commit succeeds: everything listed is durable and `end` is logged. */
  lemma FinalCommitted(s0: Observed, trashList: seq<int>, limit: int, pause: int, cutoff: int, monitoring: bool, q: nat)
    requires trashList != [] && Times(q, BatchSize(limit)) <= |trashList|
    requires Succeeds(s0.db.outcomes, q)
    requires Expected(|trashList|, limit, s0.db.outcomes) == Progress(true, q + 1, q, |trashList|, |trashList|)
    ensures AfterFinish(AtHead(s0, trashList, limit, pause, cutoff, monitoring, |trashList|, q), monitoring)
         == AfterRun(s0, trashList, limit, pause, cutoff, monitoring)
  {
    DropSucceeds(s0.db.outcomes, q, 0);
    DropDrop(s0.db.outcomes, q);
  }

  /** The final commit fails: the last batch is rolled back and no `end` is logged. */
  lemma FinalFailed(s0: Observed, trashList: seq<int>, limit: int, pause: int, cutoff: int, monitoring: bool, q: nat)
    requires trashList != [] && Times(q, BatchSize(limit)) <= |trashList|
    requires !Succeeds(s0.db.outcomes, q)
    requires Expected(|trashList|, limit, s0.db.outcomes)
          == Progress(false, q + 1, q, Times(q, BatchSize(limit)), |trashList|)
    ensures AfterFinish(AtHead(s0, trashList, limit, pause, cutoff, monitoring, |trashList|, q), monitoring)
         == AfterRun(s0, trashList, limit, pause, cutoff, monitoring)
  {
    DropSucceeds(s0.db.outcomes, q, 0);
    DropDrop(s0.db.outcomes, q);
  }

  /**
   * The invariant of the batch loop: `i` nodes processed, the counter at
   * `iteration`, `batches` interim commits done and all successful, and
   * `now` the state `AtHead` describes.
   */
  ghost predicate LoopHead(s0: Observed, trashList: seq<int>, limit: int, pause: int, cutoff: int, monitoring: bool,
                           i: nat, iteration: int, batches: nat, now: Observed)
  {
    && i <= |trashList|
    && (limit > 0 ==> 0 < iteration <= limit)
    && (limit <= 0 ==> iteration == limit)
    && i == Times(batches, BatchSize(limit)) + (if limit > 0 then limit - iteration else 0)
    && (forall k :: 0 <= k < batches ==> Succeeds(s0.db.outcomes, k))
    && now == AtHead(s0, trashList, limit, pause, cutoff, monitoring, i, batches)
  }

  /** A node inside a batch: the counter stays positive and the loop moves one place along. */
  lemma HeadWithinBatch(s0: Observed, trashList: seq<int>, limit: int, pause: int, cutoff: int, monitoring: bool,
                        i: nat, iteration: int, batches: nat, now: Observed)
    requires i < |trashList| && iteration - 1 > 0
    requires LoopHead(s0, trashList, limit, pause, cutoff, monitoring, i, iteration, batches, now)
    ensures LoopHead(s0, trashList, limit, pause, cutoff, monitoring, i + 1, iteration - 1, batches,
                     AfterNode(now, trashList[i], cutoff, monitoring))
  {
    NodeStep(s0, trashList, limit, pause, cutoff, monitoring, i, batches);
  }

  /**
   * The last node of a batch: the commit that follows is commit number
   * `batches`; if it succeeds the loop goes on with the counter reset, and if
   * it fails the run ends as `AfterRun` says, unsuccessfully.
   */
  lemma HeadAtBatchEnd(s0: Observed, trashList: seq<int>, limit: int, pause: int, cutoff: int, monitoring: bool,
                       i: nat, iteration: int, batches: nat, now: Observed)
    requires i < |trashList| && iteration - 1 <= 0
    requires LoopHead(s0, trashList, limit, pause, cutoff, monitoring, i, iteration, batches, now)
    ensures AfterNode(now, trashList[i], cutoff, monitoring).db.open
    ensures Succeeds(AfterNode(now, trashList[i], cutoff, monitoring).db.outcomes, 0) == Succeeds(s0.db.outcomes, batches)
    ensures Succeeds(s0.db.outcomes, batches) ==>
              LoopHead(s0, trashList, limit, pause, cutoff, monitoring, i + 1, limit, batches + 1,
                       AfterEndBatch(AfterNode(now, trashList[i], cutoff, monitoring), pause))
    ensures !Succeeds(s0.db.outcomes, batches) ==>
              && !Expected(|trashList|, limit, s0.db.outcomes).ok
              && AfterEndBatch(AfterNode(now, trashList[i], cutoff, monitoring), pause)
                 == AfterRun(s0, trashList, limit, pause, cutoff, monitoring)
  {
    NodeStep(s0, trashList, limit, pause, cutoff, monitoring, i, batches);
    DropSucceeds(s0.db.outcomes, batches, 0);
    assert i + 1 == Times(batches + 1, BatchSize(limit));
    if Succeeds(s0.db.outcomes, batches) {
      BatchCommitted(s0, trashList, limit, pause, cutoff, monitoring, i + 1, batches);
      assert forall k :: 0 <= k < batches + 1 ==> Succeeds(s0.db.outcomes, k);
    } else {
      BatchFailed(s0, trashList, limit, pause, cutoff, monitoring, i + 1, batches);
      ExpectedAtInterimFailure(|trashList|, limit, s0.db.outcomes, batches);
    }
  }

  /** The loop has run through the whole list: the final commit ends the run as `AfterRun` says. */
  lemma HeadAtEnd(s0: Observed, trashList: seq<int>, limit: int, pause: int, cutoff: int, monitoring: bool,
                  iteration: int, batches: nat, now: Observed)
    requires trashList != []
    requires LoopHead(s0, trashList, limit, pause, cutoff, monitoring, |trashList|, iteration, batches, now)
    ensures now.db.open
    ensures Succeeds(now.db.outcomes, 0) == Expected(|trashList|, limit, s0.db.outcomes).ok
    ensures AfterFinish(now, monitoring) == AfterRun(s0, trashList, limit, pause, cutoff, monitoring)
  {
    var rest := if limit > 0 then limit - iteration else 0;
    FinalCommit(s0, trashList, limit, pause, cutoff, monitoring, batches, rest);
    DropSucceeds(s0.db.outcomes, batches, 0);
    ExpectedAtFinalCommit(|trashList|, limit, s0.db.outcomes, batches, rest);
  }

  class TrashPurge {
    const quiet: bool
    const memoryMonitoring: bool
    const logFile: string
    /** The memory log written to `logFile` (memory figures themselves are not modelled). */
    var memoryLog: seq<LogEntry>
    /** The pauses requested between batches, in seconds. */
    var pauses: seq<int>

    constructor (quiet: bool, memoryMonitoring: bool, logFile: string)
      ensures this.quiet == quiet && this.memoryMonitoring == memoryMonitoring && this.logFile == logFile
      ensures memoryLog == [] && pauses == []
    {
      this.quiet := quiet;
      this.memoryMonitoring := memoryMonitoring;
      this.logFile := logFile;
      memoryLog := [];
      pauses := [];
    }

    /** What can be observed of a run against `db`. */
    function Observe(db: Database): Observed
      reads this, db, db.ledger
    {
      Observed(db.State(), memoryLog, pauses)
    }

    /** `monitor`: log a checkpoint when memory monitoring is on. */
    method Monitor(checkpoint: Checkpoint)
      modifies this
      ensures memoryLog == old(memoryLog) + When(memoryMonitoring, [Memory(checkpoint)])
      ensures pauses == old(pauses)
    {
      if memoryMonitoring {
        memoryLog := memoryLog + [Memory(checkpoint)];
      }
    }

    /**
     * The body of `run`'s loop for one node: if it is old enough, log the
     * `purge` checkpoint, purge it and remove its ledger row; otherwise skip it.
     */
    method PurgeIfOldEnough(nodeId: int, cutoff: int, db: Database)
      modifies this, db, db.ledger
      ensures Observe(db) == AfterNode(old(Observe(db)), nodeId, cutoff, memoryMonitoring)
    {
      if IsTrashNodeOldEnoughToPurge(db.ledger.rows, nodeId, cutoff) {
        Monitor(Purge);
        db.Purge(nodeId);
        db.ledger.RemoveExisting(nodeId);
      }
    }

    /**
     * The end of a batch inside `run`'s loop: commit; if that succeeds,
     * clear the content cache, open the next transaction and request a pause
     * of `pause` seconds when it is positive.
     */
    method EndBatch(pause: int, db: Database) returns (committed: bool)
      requires db.open
      modifies this, db, db.ledger
      ensures committed == Succeeds(old(db.outcomes), 0)
      ensures Observe(db) == AfterEndBatch(old(Observe(db)), pause)
    {
      committed := db.Commit();
      if !committed {
        return;
      }
      db.ClearCache();
      db.Begin();
      if pause > 0 {
        pauses := pauses + [pause];
      }
    }

    /** The final commit of `run`; on success the cache is cleared and the `end` checkpoint logged. */
    method FinishRun(db: Database) returns (committed: bool)
      requires db.open
      modifies this, db, db.ledger
      ensures committed == Succeeds(old(db.outcomes), 0)
      ensures Observe(db) == AfterFinish(old(Observe(db)), memoryMonitoring)
    {
      committed := db.Commit();
      if !committed {
        return;
      }
      db.ClearCache();
      Monitor(End);
    }

    /**
     * `run`: purge the eligible nodes of `trashList` in batches.
     * `userResolved` says whether the privileged user could be fetched;
     * `retentionSetting` is `DaysInTrashBeforePurge` (None when absent) and
     * `now` the current time. The trash count is the list's length.
     */
    method Run(iterationLimit: Option<int>, sleep: Option<int>, now: int, retentionSetting: Option<int>,
               userResolved: bool, trashList: seq<int>, db: Database) returns (ok: bool)
      requires db.Valid() && !db.open
      modifies this, db, db.ledger
      // without the privileged user nothing is touched
      ensures !userResolved ==> !ok && unchanged(db, db.ledger)
      // an empty trash succeeds without any transaction
      ensures userResolved && trashList == [] ==> ok && unchanged(db, db.ledger)
      ensures trashList == [] || !userResolved ==>
        && pauses == old(pauses)
        && memoryLog == old(memoryLog) + When(memoryMonitoring, [Rotated, Memory(Start)])
      ensures userResolved && trashList != [] ==>
        var start := Snapshot(old(db.nodes), old(db.ledger.rows));
        var cutoff := Cutoff(now, retentionSetting);
        var pause := SleepOf(sleep);
        var p := Expected(|trashList|, IterationLimitOf(iterationLimit), old(db.outcomes));
        && ok == p.ok
        && !db.open && db.Current() == db.durable
        && db.durable == Apply(start, trashList[..p.committed], cutoff)
        && db.commits == old(db.commits) + p.attempts
        && db.outcomes == Drop(old(db.outcomes), p.attempts)
        && db.cacheClears == old(db.cacheClears) + p.interim + (if p.ok then 1 else 0)
        && pauses == old(pauses) + Repeat(pause, if pause > 0 then p.interim else 0)
        && memoryLog == old(memoryLog) + When(memoryMonitoring,
             [Rotated, Memory(Start)]
             + Repeat(Memory(Purge), CountEligible(start.rows, trashList[..p.processed], cutoff))
             + (if p.ok then [Memory(End)] else []))
    {
      var limit := IterationLimitOf(iterationLimit);
      var pause := SleepOf(sleep);
      if memoryMonitoring {
        memoryLog := memoryLog + [Rotated];
      }
      var cutoff := Cutoff(now, retentionSetting);
      Monitor(Start);
      if !userResolved {
        return false;
      }
      if |trashList| == 0 {
        return true;
      }
      ghost var s0 := Observe(db);
      ok := PurgeList(limit, pause, cutoff, trashList, db);
      RunLog(s0, trashList, limit, pause, cutoff, memoryMonitoring, old(memoryLog));
    }

    /**
     * The body of `run`'s loop for the node at position `i`: purge it if it
     * is old enough, count the counter down, and at the end of a batch
     * commit, reset the counter and (when `pause > 0`) request a pause.
     * `stop` says that the commit failed and the run must end.
     */
    method VisitNode(ghost s0: Observed, trashList: seq<int>, limit: int, pause: int, cutoff: int,
                     i: nat, iteration: int, ghost batches: nat, db: Database)
      returns (next: int, stop: bool, ghost batches': nat)
      requires i < |trashList|
      requires LoopHead(s0, trashList, limit, pause, cutoff, memoryMonitoring, i, iteration, batches, Observe(db))
      modifies this, db, db.ledger
      ensures !stop ==> LoopHead(s0, trashList, limit, pause, cutoff, memoryMonitoring, i + 1, next, batches', Observe(db))
      ensures stop ==> && !Expected(|trashList|, limit, s0.db.outcomes).ok
                       && Observe(db) == AfterRun(s0, trashList, limit, pause, cutoff, memoryMonitoring)
    {
      ghost var now := Observe(db);
      PurgeIfOldEnough(trashList[i], cutoff, db);
      next := iteration - 1;
      stop, batches' := false, batches;
      if next > 0 {
        HeadWithinBatch(s0, trashList, limit, pause, cutoff, memoryMonitoring, i, iteration, batches, now);
      } else {
        // interim commit
        HeadAtBatchEnd(s0, trashList, limit, pause, cutoff, memoryMonitoring, i, iteration, batches, now);
        var committed := EndBatch(pause, db);
        if !committed {
          return next, true, batches;
        }
        next := limit;
        batches' := batches + 1;
      }
    }

    /**
     * The batch loop of `run`, from the first `begin` to the final commit:
     * every node is looked at in list order, the counter counts down once
     * per node, eligible or not, and each time it reaches 0 or below the
     * batch is committed and the counter restarts at `limit`. The first
     * commit that fails ends the run.
     */
    method PurgeList(limit: int, pause: int, cutoff: int, trashList: seq<int>, db: Database) returns (ok: bool)
      requires db.Valid() && !db.open && trashList != []
      modifies this, db, db.ledger
      ensures ok == Expected(|trashList|, limit, old(db.outcomes)).ok
      ensures Observe(db) == AfterRun(old(Observe(db)), trashList, limit, pause, cutoff, memoryMonitoring)
    {
      ghost var s0 := Observe(db);
      ghost var batches: nat := 0;
      var iteration := limit;
      db.Begin();
      LoopEntry(s0, trashList, limit, pause, cutoff, memoryMonitoring);
      var i := 0;
      while i < |trashList|
        invariant LoopHead(s0, trashList, limit, pause, cutoff, memoryMonitoring, i, iteration, batches, Observe(db))
      {
        var stop;
        iteration, stop, batches := VisitNode(s0, trashList, limit, pause, cutoff, i, iteration, batches, db);
        if stop {
          return false;
        }
        i := i + 1;
      }

      // final commit
      HeadAtEnd(s0, trashList, limit, pause, cutoff, memoryMonitoring, iteration, batches, Observe(db));
      ok := FinishRun(db);
    }
  }
}
