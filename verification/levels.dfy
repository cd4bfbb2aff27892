/**
 The tables on disk, level by level, and the disk half of a lookup (pkg/lsm/engine.go, `Get`).
 Level 0 is a list of overlapping tables, oldest first; from level 1 on the tables of a level
 are disjoint. Row 7 is where a compaction out of level 6 puts its output; no lookup reads it.
 */
module Levels {
  import opened Bytes
  import opened Entries
  import opened Runs
  import TableFormat

  const MAX_LEVELS: nat := 7
  const ROWS: nat := 8

  datatype Table = Table(run: seq<Entry>, blockSize: nat) {
    ghost predicate Ok() {
      run != [] && TableFormat.TableRun(run)
    }

    function MinKey(): Key
      requires run != []
    {
      run[0].key
    }

    function MaxKey(): Key
      requires run != []
    {
      run[|run| - 1].key
    }

    /** key lies in [MinKey, MaxKey]. */
    predicate Covers(key: Key)
      requires run != []
    {
      AtMost(MinKey(), key) && AtMost(key, MaxKey())
    }

    function DataSize(): nat {
      TableFormat.DataSize(run, blockSize)
    }
  }

  type Tables = map<nat, Table>

  type LevelLists = seq<seq<nat>>

  ghost predicate TablesOk(tables: Tables) {
    forall id :: id in tables ==> tables[id].Ok()
  }

  // ----- Lookup as the engine does it -----

  /** Level 0: newest, that is last, table first; a table without a reader is passed over. */
  function FindL0(ids: seq<nat>, tables: Tables, key: Key): Option<Entry> {
    if ids == [] then None
    else
      var id := ids[|ids| - 1];
      if id in tables && Find(tables[id].run, key).Some? then Find(tables[id].run, key)
      else FindL0(ids[..|ids| - 1], tables, key)
  }

  /** A level from 1 on: the first table that covers the key decides. */
  function FindInLevel(ids: seq<nat>, tables: Tables, key: Key): Option<Entry>
    requires forall id :: id in tables ==> tables[id].run != []
  {
    if ids == [] then None
    else if ids[0] in tables && tables[ids[0]].Covers(key) then Find(tables[ids[0]].run, key)
    else FindInLevel(ids[1..], tables, key)
  }

  function FindFromLevel(levels: LevelLists, lvl: nat, tables: Tables, key: Key): Option<Entry>
    requires |levels| == ROWS && forall id :: id in tables ==> tables[id].run != []
    decreases MAX_LEVELS - lvl
  {
    if lvl >= MAX_LEVELS then None
    else
      var found := FindInLevel(levels[lvl], tables, key);
      if found.Some? then found else FindFromLevel(levels, lvl + 1, tables, key)
  }

  function DiskFind(levels: LevelLists, tables: Tables, key: Key): Option<Entry>
    requires |levels| == ROWS && forall id :: id in tables ==> tables[id].run != []
  {
    var found := FindL0(levels[0], tables, key);
    if found.Some? then found else FindFromLevel(levels, 1, tables, key)
  }

  // ----- The same, as a search in a stack of runs -----

  function RunsOf(ids: seq<nat>, tables: Tables): (r: seq<seq<Entry>>) {
    if ids == [] then []
    else (if ids[0] in tables then [tables[ids[0]].run] else []) + RunsOf(ids[1..], tables)
  }

  function Reversed(ids: seq<nat>): (r: seq<nat>)
    ensures |r| == |ids|
    ensures forall i :: 0 <= i < |ids| ==> r[i] == ids[|ids| - 1 - i]
  {
    if ids == [] then [] else [ids[|ids| - 1]] + Reversed(ids[..|ids| - 1])
  }

  function LevelFind(ids: seq<nat>, tables: Tables, key: Key): Option<Entry> {
    FindFirst(RunsOf(ids, tables), key)
  }

  lemma {:induction false} FindL0IsFindFirst(ids: seq<nat>, tables: Tables, key: Key)
    ensures FindL0(ids, tables, key) == LevelFind(Reversed(ids), tables, key)
  {
    if ids != [] {
      var r := Reversed(ids);
      FindL0IsFindFirst(ids[..|ids| - 1], tables, key);
      assert r[1..] == Reversed(ids[..|ids| - 1]);
      var head := if r[0] in tables then [tables[r[0]].run] else [];
      FindFirstConcat(head, RunsOf(r[1..], tables), key);
      assert head != [] ==> head[1..] == [];
    }
  }

  predicate Apart(a: Table, b: Table)
    requires a.run != [] && b.run != []
  {
    Less(a.MaxKey(), b.MinKey()) || Less(b.MaxKey(), a.MinKey())
  }

  /** No two tables of the list overlap. */
  ghost predicate Disjoint(ids: seq<nat>, tables: Tables)
    requires TablesOk(tables)
  {
    forall i, j :: 0 <= i < j < |ids| && ids[i] in tables && ids[j] in tables ==> Apart(tables[ids[i]], tables[ids[j]])
  }

  lemma HoldsOnlyCovered(t: Table, key: Key)
    requires t.Ok() && Find(t.run, key).Some?
    ensures t.Covers(key)
  {
    var e := Find(t.run, key).value;
    var i :| 0 <= i < |t.run| && t.run[i] == e;
    LessIsStrictOrder();
    assert i > 0 ==> Less(t.run[0].key, e.key);
    assert i < |t.run| - 1 ==> Less(e.key, t.run[|t.run| - 1].key);
  }

  lemma ApartCoversOne(a: Table, b: Table, key: Key)
    requires a.run != [] && b.run != [] && Apart(a, b) && a.Covers(key)
    ensures !b.Covers(key)
  {
    LessIsStrictOrder();
  }

  lemma {:induction false} LevelFindNone(ids: seq<nat>, tables: Tables, key: Key)
    requires forall i :: 0 <= i < |ids| && ids[i] in tables ==> Find(tables[ids[i]].run, key).None?
    ensures LevelFind(ids, tables, key).None?
  {
    if ids != [] {
      LevelFindNone(ids[1..], tables, key);
      var head := if ids[0] in tables then [tables[ids[0]].run] else [];
      FindFirstConcat(head, RunsOf(ids[1..], tables), key);
      assert head != [] ==> head[1..] == [];
    }
  }

  lemma LevelFindCons(ids: seq<nat>, tables: Tables, key: Key)
    requires ids != []
    ensures LevelFind(ids, tables, key) ==
      Or(if ids[0] in tables then Find(tables[ids[0]].run, key) else None, LevelFind(ids[1..], tables, key))
  {
    var head := if ids[0] in tables then [tables[ids[0]].run] else [];
    FindFirstConcat(head, RunsOf(ids[1..], tables), key);
    assert head != [] ==> head[1..] == [];
  }

  /** In a level of disjoint tables, stopping at the first table that covers the key is sound. */
  lemma {:induction false} FirstCoveringDecides(ids: seq<nat>, tables: Tables, key: Key)
    requires TablesOk(tables) && Disjoint(ids, tables)
    ensures FindInLevel(ids, tables, key) == LevelFind(ids, tables, key)
  {
    if ids != [] {
      LevelFindCons(ids, tables, key);
      if ids[0] in tables && tables[ids[0]].Covers(key) {
        forall i | 1 <= i < |ids| && ids[i] in tables
          ensures Find(tables[ids[i]].run, key).None?
        {
          ApartCoversOne(tables[ids[0]], tables[ids[i]], key);
          if Find(tables[ids[i]].run, key).Some? {
            HoldsOnlyCovered(tables[ids[i]], key);
          }
        }
        LevelFindNone(ids[1..], tables, key);
      } else {
        if ids[0] in tables && Find(tables[ids[0]].run, key).Some? {
          HoldsOnlyCovered(tables[ids[0]], key);
        }
        FirstCoveringDecides(ids[1..], tables, key);
      }
    }
  }

  /** Without disjointness it is not: the first covering table may lack the key. */
  lemma BreakNeedsDisjointness()
    ensures var a, b := Entry([1], [], 0, OP_PUT), Entry([3], [], 0, OP_PUT);
      var k := Entry([2], [7], 0, OP_PUT);
      var tables := map[1 := Table([a, b], 1), 2 := Table([k], 1)];
      && FindInLevel([1, 2], tables, [2]).None?
      && LevelFind([1, 2], tables, [2]) == Some(k)
  {
    var a, b := Entry([1], [], 0, OP_PUT), Entry([3], [], 0, OP_PUT);
    var k := Entry([2], [7], 0, OP_PUT);
    var tables := map[1 := Table([a, b], 1), 2 := Table([k], 1)];
    assert Find([a, b], [2]) == Find([b], [2]) == Find([], [2]) == None;
    assert Find([k], [2]) == Some(k);
    LevelFindCons([1, 2], tables, [2]);
    LevelFindCons([2], tables, [2]);
  }

  // ----- Well-formed levels -----

  /** Every listed table is there. */
  ghost predicate AllListed(levels: LevelLists, tables: Tables) {
    forall l, i :: 0 <= l < |levels| && 0 <= i < |levels[l]| ==> levels[l][i] in tables
  }

  /** No table is listed twice. */
  ghost predicate DistinctIds(levels: LevelLists) {
    forall l, i, m, j :: 0 <= l < |levels| && 0 <= i < |levels[l]| && 0 <= m < |levels| && 0 <= j < |levels[m]| ==>
      (levels[l][i] == levels[m][j] ==> l == m && i == j)
  }

  ghost predicate DisjointLevels(levels: LevelLists, tables: Tables)
    requires TablesOk(tables)
  {
    forall l :: 1 <= l < |levels| ==> Disjoint(levels[l], tables)
  }

  ghost predicate LevelsOk(levels: LevelLists, tables: Tables) {
    && |levels| == ROWS && TablesOk(tables)
    && AllListed(levels, tables) && DistinctIds(levels) && DisjointLevels(levels, tables)
  }

  /** What the levels from lvl to 6 hold for a key, each level searched as a stack of runs. */
  ghost function DeepFind(levels: LevelLists, lvl: nat, tables: Tables, key: Key): Option<Entry>
    requires |levels| == ROWS
    decreases MAX_LEVELS - lvl
  {
    if lvl >= MAX_LEVELS then None
    else Or(LevelFind(levels[lvl], tables, key), DeepFind(levels, lvl + 1, tables, key))
  }

  lemma {:induction false} FindFromLevelIsDeepFind(levels: LevelLists, lvl: nat, tables: Tables, key: Key)
    requires LevelsOk(levels, tables) && 1 <= lvl
    ensures FindFromLevel(levels, lvl, tables, key) == DeepFind(levels, lvl, tables, key)
    decreases MAX_LEVELS - lvl
  {
    if lvl < MAX_LEVELS {
      FirstCoveringDecides(levels[lvl], tables, key);
      FindFromLevelIsDeepFind(levels, lvl + 1, tables, key);
    }
  }

  lemma DiskFindIsDeepFind(levels: LevelLists, tables: Tables, key: Key)
    requires LevelsOk(levels, tables)
    ensures DiskFind(levels, tables, key) ==
      Or(LevelFind(Reversed(levels[0]), tables, key), DeepFind(levels, 1, tables, key))
  {
    FindL0IsFindFirst(levels[0], tables, key);
    FindFromLevelIsDeepFind(levels, 1, tables, key);
  }
}
