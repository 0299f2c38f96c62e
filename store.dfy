/**
 * The collaborators the purge controller drives, in abstract form: the
 * content store (which trashed nodes still exist), the database transaction
 * that covers both the content store and the `pt_trash` table, and the
 * content cache. Whether a commit succeeds is decided by a given oracle.
 */
module Store {
  import PtTrash

  /** The state a transaction covers: the nodes still present and the ledger rows. */
  datatype Snapshot = Snapshot(nodes: set<int>, rows: map<int, int>)

  /** Whether the `k`-th commit of the oracle succeeds; past its end every commit does. */
  function Succeeds(outcomes: seq<bool>, k: nat): bool {
    k >= |outcomes| || outcomes[k]
  }

  /** The oracle after `k` commits have consumed it. */
  function Drop(outcomes: seq<bool>, k: nat): (rest: seq<bool>)
    ensures |rest| == if k <= |outcomes| then |outcomes| - k else 0
    ensures forall j :: 0 <= j < |rest| ==> rest[j] == outcomes[k + j]
  {
    if k <= |outcomes| then outcomes[k..] else []
  }

  /** The next commit of a consumed oracle is the `k`-th commit of the original. */
  lemma DropSucceeds(outcomes: seq<bool>, k: nat, j: nat)
    ensures Succeeds(Drop(outcomes, k), j) == Succeeds(outcomes, k + j)
  {
  }

  /** Consuming `k` commits and then one more is consuming `k + 1`. */
  lemma DropDrop(outcomes: seq<bool>, k: nat)
    ensures Drop(Drop(outcomes, k), 1) == Drop(outcomes, k + 1)
  {
  }

  /** Everything about the database a caller can observe. */
  datatype DbState = DbState(current: Snapshot, durable: Snapshot, open: bool,
                             outcomes: seq<bool>, commits: nat, cacheClears: nat)

  class Database {
    /** The `pt_trash` table, written through the same connection. */
    const ledger: PtTrash.Table
    /** The trashed nodes present, pending changes included. */
    var nodes: set<int>
    /** The state as of the last successful commit. */
    var durable: Snapshot
    /** Whether a transaction is open. */
    var open: bool
    /** The outcomes of the commits still to come. */
    var outcomes: seq<bool>
    /** Commits attempted so far. */
    var commits: nat
    /** Content-cache invalidations so far. */
    var cacheClears: nat

    /** What a reader inside the current transaction sees. */
    function Current(): Snapshot
      reads this, ledger
    {
      Snapshot(nodes, ledger.rows)
    }

    /** The observable state as one value. */
    function State(): DbState
      reads this, ledger
    {
      DbState(Current(), durable, open, outcomes, commits, cacheClears)
    }

    /** Outside a transaction nothing is pending. */
    predicate Valid()
      reads this, ledger
    {
      !open ==> Current() == durable
    }

    constructor (ledger: PtTrash.Table, nodes: set<int>, outcomes: seq<bool>)
      ensures this.ledger == ledger && this.nodes == nodes && this.outcomes == outcomes
      ensures durable == Snapshot(nodes, ledger.rows) && !open
      ensures commits == 0 && cacheClears == 0
      ensures Valid()
    {
      this.ledger := ledger;
      this.nodes := nodes;
      this.outcomes := outcomes;
      durable := Snapshot(nodes, ledger.rows);
      open := false;
      commits := 0;
      cacheClears := 0;
    }

    /** `$db->begin()`: open a transaction on the committed state. */
    method Begin()
      requires Valid() && !open
      modifies this
      ensures open
      ensures nodes == old(nodes) && durable == old(durable)
      ensures outcomes == old(outcomes) && commits == old(commits) && cacheClears == old(cacheClears)
    {
      open := true;
    }

    /**
     * `$db->commit()`: on success the pending changes become durable; on
     * failure they are rolled back. Either way the transaction is closed.
     */
    method Commit() returns (ok: bool)
      requires open
      modifies this, ledger
      ensures ok == Succeeds(old(outcomes), 0)
      ensures ok ==> durable == old(Current())
      ensures !ok ==> durable == old(durable)
      ensures Current() == durable && !open && Valid()
      ensures outcomes == Drop(old(outcomes), 1) && commits == old(commits) + 1
      ensures cacheClears == old(cacheClears)
    {
      ok := Succeeds(outcomes, 0);
      outcomes := Drop(outcomes, 1);
      commits := commits + 1;
      if ok {
        durable := Current();
      } else {
        nodes := durable.nodes;
        ledger.rows := durable.rows;
      }
      open := false;
    }

    /** `$object->purge()`: the node is permanently removed (pending until commit). */
    method Purge(nodeId: int)
      modifies this
      ensures nodes == old(nodes) - {nodeId}
      ensures durable == old(durable) && open == old(open)
      ensures outcomes == old(outcomes) && commits == old(commits) && cacheClears == old(cacheClears)
    {
      nodes := nodes - {nodeId};
    }

    /** `eZContentObject::clearCache()`, recorded as one more invalidation. */
    method ClearCache()
      modifies this
      ensures cacheClears == old(cacheClears) + 1
      ensures nodes == old(nodes) && durable == old(durable) && open == old(open)
      ensures outcomes == old(outcomes) && commits == old(commits)
    {
      cacheClears := cacheClears + 1;
    }
  }
}
