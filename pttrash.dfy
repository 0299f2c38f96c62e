/**
 * The arrival ledger: the `pt_trash` table, one row per trashed node, saying
 * when that node was moved to the trash.
 *
 * The table's contents are modelled as a map from `node_id` to `trashed`;
 * `Definition` and `TableOf` justify that view from the schema's single key.
 */
module PtTrash {
  import opened Wrappers

  /** One row of `pt_trash`. */
  datatype TrashRecord = TrashRecord(nodeId: int, trashed: int)

  /** A column of the persistent-object schema. */
  datatype FieldDef = FieldDef(name: string, kind: string, required: bool)

  /** The persistent-object schema: its columns, its key columns, class and table name. */
  datatype Schema = Schema(fields: seq<FieldDef>, keys: seq<string>, className: string, tableName: string)

  /** The schema of `pt_trash`: two required integer columns, keyed by `node_id` alone. */
  function Definition(): Schema {
    Schema([FieldDef("node_id", "integer", true), FieldDef("trashed", "integer", true)],
           ["node_id"], "ptTrash", "pt_trash")
  }

  /** The value a record holds in the named column (0 for a column it does not have). */
  function Column(r: TrashRecord, name: string): int {
    if name == "node_id" then r.nodeId
    else if name == "trashed" then r.trashed
    else 0
  }

  /** The values of a record's key columns, in key order. */
  function KeyOf(keys: seq<string>, r: TrashRecord): (k: seq<int>)
    ensures |k| == |keys|
    ensures forall i :: 0 <= i < |keys| ==> k[i] == Column(r, keys[i])
  {
    if keys == [] then [] else [Column(r, keys[0])] + KeyOf(keys[1..], r)
  }

  /** The store's primary-key constraint: no two distinct rows share a key. */
  ghost predicate KeyUnique(s: Schema, rows: set<TrashRecord>) {
    forall a, b :: a in rows && b in rows && KeyOf(s.keys, a) == KeyOf(s.keys, b) ==> a == b
  }

  /** Every column of the schema is a required integer, and the key is `node_id` alone. */
  lemma DefinitionShape()
    ensures |Definition().fields| == 2
    ensures forall i :: 0 <= i < |Definition().fields| ==>
      Definition().fields[i].kind == "integer" && Definition().fields[i].required
    ensures Definition().keys == ["node_id"]
    ensures forall r :: KeyOf(Definition().keys, r) == [r.nodeId]
  {
  }

  /** Keyed by `node_id` alone, a table holds at most one `trashed` value per node. */
  lemma OneRecordPerNode(rows: set<TrashRecord>)
    requires KeyUnique(Definition(), rows)
    ensures forall a, b :: a in rows && b in rows && a.nodeId == b.nodeId ==> a == b
  {
    forall a, b | a in rows && b in rows && a.nodeId == b.nodeId
      ensures a == b
    {
      assert KeyOf(Definition().keys, a) == [a.nodeId];
      assert KeyOf(Definition().keys, b) == [b.nodeId];
    }
  }

  /** The map view of a key-unique table: each stored node id to its `trashed` time. */
  function TableOf(rows: set<TrashRecord>): (m: map<int, int>)
    requires KeyUnique(Definition(), rows)
    ensures m.Keys == set r | r in rows :: r.nodeId
    ensures forall r :: r in rows ==> m[r.nodeId] == r.trashed
  {
    OneRecordPerNode(rows);
    map r | r in rows :: r.nodeId := r.trashed
  }

  /**
   * `ptTrash::fetch`: a falsy id (0) gives null without consulting the
   * table; any other id gives the row stored under it, or null.
   */
  function Fetch(table: map<int, int>, nodeId: int): (r: Option<TrashRecord>)
    ensures nodeId == 0 ==> r == None
    ensures nodeId != 0 ==> (r.Some? <==> nodeId in table)
    ensures r.Some? ==> r.value.nodeId == nodeId && nodeId in table && r.value.trashed == table[nodeId]
  {
    if nodeId == 0 then None
    else if nodeId in table then Some(TrashRecord(nodeId, table[nodeId]))
    else None
  }

  /** The answer for id 0 does not depend on the table at all. */
  lemma FetchZeroIgnoresTable(t1: map<int, int>, t2: map<int, int>)
    ensures Fetch(t1, 0) == Fetch(t2, 0) == None
  {
  }

  /**
   * The table after `removeExisting(nodeId)`, stated without the fetch:
   * the row under a non-zero id is gone; id 0 is never looked up, so nothing changes.
   */
  function Removed(table: map<int, int>, nodeId: int): map<int, int> {
    if nodeId == 0 then table else table - {nodeId}
  }

  /** After the removal no row for a non-zero id is left. */
  lemma RemovedClears(table: map<int, int>, nodeId: int)
    requires nodeId != 0
    ensures nodeId !in Removed(table, nodeId)
    ensures Fetch(Removed(table, nodeId), nodeId) == None
  {
  }

  /** Every other key keeps its row, and id 0 keeps its row too. */
  lemma RemovedFrame(table: map<int, int>, nodeId: int, other: int)
    requires other != nodeId || other == 0
    ensures other in Removed(table, nodeId) <==> other in table
    ensures other in table ==> Removed(table, nodeId)[other] == table[other]
  {
  }

  /** Removing an id that has no row (as `fetch` sees it) changes nothing. */
  lemma RemovedAbsentIsNoop(table: map<int, int>, nodeId: int)
    requires Fetch(table, nodeId) == None
    ensures Removed(table, nodeId) == table
  {
  }

  /** Removing twice is removing once. */
  lemma RemovedIdempotent(table: map<int, int>, nodeId: int)
    ensures Removed(Removed(table, nodeId), nodeId) == Removed(table, nodeId)
  {
  }

  /** The `pt_trash` table as shared, updatable state. */
  class Table {
    var rows: map<int, int>

    constructor (initial: map<int, int>)
      ensures rows == initial
    {
      rows := initial;
    }

    /** `ptTrash::removeExisting`: fetch the row, and delete it if one was found. */
    method RemoveExisting(nodeId: int)
      modifies this
      ensures rows == Removed(old(rows), nodeId)
    {
      var existing := Fetch(rows, nodeId);
      if existing.Some? {
        rows := rows - {existing.value.nodeId};
      }
    }
  }
}
