/** Running a compaction (pkg/compactor/compactor.go). */
module Compactor {
  import opened Entries
  import opened Runs
  import opened Cuts
  import opened Cursors
  import opened Merger
  import opened TableIterators
  import opened Levels
  import opened Picker
  import opened Compaction

  /**
   The manifest, by what its callers rely on: identifiers are never handed out twice, an edit is
   applied as a whole, and new tables join the end of their level's list.
   */
  class Manifest {
    var levels: LevelLists
    var nextId: nat

    constructor ()
      ensures levels == seq(ROWS, _ => []) && nextId == 1
    {
      levels, nextId := seq(ROWS, _ => []), 1;
    }

    method NextID() returns (id: nat)
      modifies this`nextId
      ensures id == old(nextId) && nextId == old(nextId) + 1
    {
      id := nextId;
      nextId := nextId + 1;
    }

    method LogAndApply(added: seq<nat>, to: nat, deleted: seq<nat>)
      modifies this`levels
      ensures levels == Edited(old(levels), Members(deleted), added, to)
    {
      levels := Edited(levels, Members(deleted), added, to);
    }

    /** All levels; level 0 in list order, oldest table first, or the other way round. */
    method GetAllLevels(newestFirst: bool) returns (all: LevelLists)
      requires |levels| == ROWS
      ensures all == Listing(levels, newestFirst)
    {
      all := if newestFirst then levels[0 := Reversed(levels[0])] else levels;
    }
  }

  function Listing(levels: LevelLists, newestFirst: bool): LevelLists
    requires |levels| == ROWS
  {
    if newestFirst then levels[0 := Reversed(levels[0])] else levels
  }

  /** A task picked from either listing is one the compaction theorems speak of. */
  lemma PickedIsSensible(levels: LevelLists, tables: Tables, newestFirst: bool, task: Task)
    requires LevelsOk(levels, tables)
    requires TaskFor(Listing(levels, newestFirst), tables, task, MAX_LEVELS)
    ensures Sensible(levels, tables, task)
    ensures task.from == 0 ==> task.inputFrom == if newestFirst then Reversed(levels[0]) else levels[0]
  {
    hide AllListed, DistinctIds, DisjointLevels, Overlapping;
  }

  method OpenIterators(readers: Tables, ids: seq<nat>) returns (iters: seq<Cursor?>)
    requires TablesOk(readers) && forall i :: 0 <= i < |ids| ==> ids[i] in readers
    ensures forall p :: 0 <= p < |iters| ==> iters[p] != null && fresh(iters[p])
    ensures Opened(iters, RunsOf(ids, readers))
  {
    assert Opened([], RunsOf([], readers));
    hide Opened, RunsOf, Ascending, TablesOk;
    iters := [];
    assert ids[..0] == [];
    for i := 0 to |ids|
      invariant Opened(iters, RunsOf(ids[..i], readers))
      invariant forall p :: 0 <= p < |iters| ==> iters[p] != null && fresh(iters[p])
    {
      RunsOfOneMore(ids[..i], ids[i], readers);
      assert ids[..i + 1] == ids[..i] + [ids[i]];
      iters := OpenTable(readers, ids[i], iters, RunsOf(ids[..i], readers));
    }
    assert ids[..|ids|] == ids;
  }

  /** The merge loop: the merged entries, cut into pieces as they reach the target size. */
  method MergeAndCut(iters: seq<Cursor?>, isBottom: bool, target: nat) returns (outs: seq<seq<Entry>>)
    requires MergedIterator.Usable(iters)
    modifies iters
    ensures outs == Pieces(Keep(Merge(old(MergedIterator.Rests(iters))), isBottom), target)
  {
    hide MergedIterator.Inv, MergedIterator.Usable, MergedIterator.Rests, MergedIterator.Remaining, Merge, Keep, Cut,
         SumSize;
    CutOfNothing(target);
    var it := new MergedIterator(iters, isBottom);
    ghost var all := it.Remaining();
    var current: seq<Entry> := [];
    var currentSize := 0;
    outs := [];
    ghost var done: seq<Entry> := [];
    while it.valid
      invariant fresh(it) && it.iters == iters && it.Inv()
      invariant all == done + it.Remaining()
      invariant (outs, current) == Cut(done, target) && currentSize == SumSize(current)
      decreases |it.Remaining()|
    {
      ShownEntry(it);
      var entry := it.current.value;
      current, currentSize := current + [entry], currentSize + entry.Size();
      PieceGrows(done, entry, target);
      if currentSize >= target {
        outs := outs + [current];
        current, currentSize := [], 0;
      }
      AllStays(all, done, it.Remaining());
      done := done + [entry];
      it.Next();
    }
    NothingRemains(it);
    assert all == done;
    PiecesOfCut(done, target);
    if |current| > 0 {
      outs := outs + [current];
    }
  }

  lemma CutOfNothing(target: nat)
    ensures Cut([], target) == ([], []) && SumSize([]) == 0
  {
  }

  lemma PiecesOfCut(s: seq<Entry>, target: nat)
    ensures var (closed, open) := Cut(s, target); Pieces(s, target) == if open == [] then closed else closed + [open]
  {
  }

  lemma AllStays(all: seq<Entry>, done: seq<Entry>, rest: seq<Entry>)
    requires all == done + rest && rest != []
    ensures all == (done + [rest[0]]) + rest[1..]
  {
  }

  lemma ShownEntry(it: MergedIterator)
    requires it.Inv() && it.valid
    ensures it.current.Some? && it.Remaining() != [] && it.Remaining()[0] == it.current.value
  {
  }

  lemma NothingRemains(it: MergedIterator)
    requires it.Inv() && !it.valid
    ensures it.Remaining() == []
  {
  }

  lemma PieceGrows(done: seq<Entry>, e: Entry, target: nat)
    ensures var piece := Cut(done, target).1 + [e];
      && SumSize(piece) == SumSize(Cut(done, target).1) + e.Size() && SumSize([]) == 0
      && Cut(done + [e], target) ==
         if SumSize(piece) >= target then (Cut(done, target).0 + [piece], []) else (Cut(done, target).0, piece)
  {
    assert (done + [e])[..|done|] == done;
    assert (Cut(done, target).1 + [e])[..|Cut(done, target).1|] == Cut(done, target).1;
  }

  datatype Compacted = Compacted(task: Task, added: seq<nat>, newTables: Tables)

  class Compactor {
    const manifest: Manifest
    const cfg: LevelConfig
    const targetTable: nat

    /** A target size that is not positive stands for 2 MiB. */
    constructor (manifest: Manifest, cfg: LevelConfig, targetTableSize: int)
      requires cfg.maxLevels == MAX_LEVELS
      ensures this.manifest == manifest && this.cfg == cfg
      ensures targetTable == if targetTableSize <= 0 then 2 * 1024 * 1024 else targetTableSize
    {
      this.manifest, this.cfg := manifest, cfg;
      targetTable := if targetTableSize <= 0 then 2 * 1024 * 1024 else targetTableSize;
    }

    /** One identifier for each piece of output. */
    method NewTables(outs: seq<seq<Entry>>) returns (added: seq<nat>, tables: Tables)
      modifies manifest`nextId
      ensures |added| == |outs| && manifest.nextId == old(manifest.nextId) + |outs|
      ensures forall i :: 0 <= i < |added| ==> added[i] == old(manifest.nextId) + i
      ensures tables.Keys == Members(added)
      ensures forall i :: 0 <= i < |added| ==>
        added[i] in tables && tables[added[i]] == Table(outs[i], COMPACTION_BLOCK_SIZE)
    {
      added, tables := [], map[];
      for i := 0 to |outs|
        invariant |added| == i && manifest.nextId == old(manifest.nextId) + i
        invariant forall j :: 0 <= j < i ==> added[j] == old(manifest.nextId) + j
        invariant tables.Keys == Members(added)
        invariant forall j :: 0 <= j < i ==>
          added[j] in tables && tables[added[j]] == Table(outs[j], COMPACTION_BLOCK_SIZE)
      {
        var id := manifest.NextID();
        added := added + [id];
        tables := tables[id := Table(outs[i], COMPACTION_BLOCK_SIZE)];
        assert Members(added) == Members(added[..i]) + {id};
      }
    }

    /**
     One compaction, if one is due: the inputs are merged, the output is cut at the target size, and
     one edit replaces inputs by outputs.
     */
    method Compact(readers: Tables, newestFirst: bool) returns (r: Option<Compacted>)
      requires cfg.maxLevels == MAX_LEVELS && LevelsOk(manifest.levels, readers)
      requires forall id :: id in readers ==> id < manifest.nextId
      modifies manifest
      ensures r.None? ==> manifest.levels == old(manifest.levels) && manifest.nextId == old(manifest.nextId)
      ensures r.None? <==> !CompactionDue(Listing(old(manifest.levels), newestFirst), readers, cfg)
      ensures r.Some? ==> CompactedBy(old(manifest.levels), readers, newestFirst, r.value, manifest.levels, targetTable)
      ensures r.Some? ==> Picked(Listing(old(manifest.levels), newestFirst), readers, cfg, r.value.task)
      ensures r.Some? ==> forall id :: id in r.value.newTables ==> old(manifest.nextId) <= id < manifest.nextId
      ensures r.Some? ==> (r.value.task.from == 0 <==> |old(manifest.levels)[0]| >= cfg.l0Trigger)
      ensures manifest.nextId >= old(manifest.nextId)
    {
      hide LevelsOk, Sensible, Due, TaskFor, Pieces, CompactedBy, Edited, Listing, Fullest;
      KeepTables(manifest.levels, readers, newestFirst);
      var levels := manifest.GetAllLevels(newestFirst);
      var picked := PickCompaction(levels, readers, cfg);
      if picked.None? {
        return None;
      }
      r := Run(readers, newestFirst, picked.value);
    }

    /** Runs a picked task and commits it. */
    method Run(readers: Tables, newestFirst: bool, task: Task) returns (r: Option<Compacted>)
      requires LevelsOk(manifest.levels, readers)
      requires TaskFor(Listing(manifest.levels, newestFirst), readers, task, MAX_LEVELS)
      requires forall id :: id in readers ==> id < manifest.nextId
      modifies manifest
      ensures r.Some? && r.value.task == task
      ensures CompactedBy(old(manifest.levels), readers, newestFirst, r.value, manifest.levels, targetTable)
      ensures forall id :: id in r.value.newTables ==> old(manifest.nextId) <= id < manifest.nextId
      ensures manifest.nextId >= old(manifest.nextId)
    {
      PickedIsSensible(manifest.levels, readers, newestFirst, task);
      InputsPlaced(manifest.levels, readers, task);
      KeepTables(manifest.levels, readers, newestFirst);
      hide *;
      var outs := MergeInputs(readers, task);
      var c := Commit(readers, newestFirst, task, outs);
      return Some(c);
    }

    /** Writes the pieces out as tables and logs the edit. */
    method Commit(readers: Tables, newestFirst: bool, task: Task, outs: seq<seq<Entry>>) returns (c: Compacted)
      requires LevelsOk(manifest.levels, readers)
      requires TaskFor(Listing(manifest.levels, newestFirst), readers, task, MAX_LEVELS)
      requires forall id :: id in readers ==> id < manifest.nextId
      requires outs == Pieces(MergedRun(task, readers), targetTable)
      modifies manifest
      ensures c.task == task && CompactedBy(old(manifest.levels), readers, newestFirst, c, manifest.levels, targetTable)
      ensures forall id :: id in c.newTables ==> old(manifest.nextId) <= id < manifest.nextId
      ensures manifest.nextId >= old(manifest.nextId)
    {
      hide LevelsOk, TaskFor, Pieces, CompactedBy, Edited, Listing, MergedRun;
      ghost var before := manifest.levels;
      var added, tables := NewTables(outs);
      manifest.LogAndApply(added, task.to, task.Inputs());
      c := Compacted(task, added, tables);
      CompactedIsOutcome(before, readers, newestFirst, c, outs, manifest.levels, targetTable);
    }

    lemma KeepTables(levels: LevelLists, readers: Tables, newestFirst: bool)
      requires LevelsOk(levels, readers)
      ensures TablesOk(readers) && TablesNotEmpty(readers) && |levels| == ROWS
      ensures |Listing(levels, newestFirst)| == ROWS && |Listing(levels, newestFirst)[0]| == |levels[0]|
    {
    }

    method MergeInputs(readers: Tables, task: Task) returns (outs: seq<seq<Entry>>)
      requires TablesOk(readers)
      requires forall id :: id in task.inputFrom || id in task.inputTo ==> id in readers
      ensures outs == Pieces(MergedRun(task, readers), targetTable)
    {
      hide MergedIterator.Usable, MergedIterator.Rests, Pieces, Opened;
      var iters := OpenIterators(readers, task.Inputs());
      OpenedRests(iters, RunsOf(task.Inputs(), readers));
      outs := MergeAndCut(iters, task.isBottom, targetTable);
    }
  }

  /** The tables once the compaction's edit has taken effect. */
  function TablesAfter(tables: Tables, c: Compacted): Tables {
    (tables - Members(c.task.Inputs())) + c.newTables
  }

  ghost predicate CompactedBy(levels: LevelLists, tables: Tables, newestFirst: bool, c: Compacted,
                              levels': LevelLists, target: nat)
    requires LevelsOk(levels, tables)
  {
    && TaskFor(Listing(levels, newestFirst), tables, c.task, MAX_LEVELS)
    && (c.task.from == 0 ==> c.task.inputFrom == if newestFirst then Reversed(levels[0]) else levels[0])
    && Outcome(levels, tables, c.task, c.added, Pieces(MergedRun(c.task, tables), target), levels',
      TablesAfter(tables, c))
  }

  lemma CompactedIsOutcome(levels: LevelLists, tables: Tables, newestFirst: bool, c: Compacted, outs: seq<seq<Entry>>,
                           levels': LevelLists, target: nat)
    requires LevelsOk(levels, tables)
    requires TaskFor(Listing(levels, newestFirst), tables, c.task, MAX_LEVELS)
    requires outs == Pieces(MergedRun(c.task, tables), target)
    requires |c.added| == |outs| && FreshIds(c.added, tables) && c.newTables.Keys == Members(c.added)
    requires forall i :: 0 <= i < |c.added| ==>
      c.added[i] in c.newTables && c.newTables[c.added[i]] == Table(outs[i], COMPACTION_BLOCK_SIZE)
    requires levels' == Edited(levels, Members(c.task.Inputs()), c.added, c.task.to)
    ensures CompactedBy(levels, tables, newestFirst, c, levels', target)
  {
    PickedIsSensible(levels, tables, newestFirst, c.task);
    PiecesProperties(MergedRun(c.task, tables), target);
    hide LevelsOk, Sensible, TaskFor, MergedRun, Pieces;
    ReplacedAfter(tables, c, outs);
  }

  lemma ReplacedAfter(tables: Tables, c: Compacted, outs: seq<seq<Entry>>)
    requires |c.added| == |outs| && FreshIds(c.added, tables) && c.newTables.Keys == Members(c.added)
    requires forall i :: 0 <= i < |c.added| ==>
      c.added[i] in c.newTables && c.newTables[c.added[i]] == Table(outs[i], COMPACTION_BLOCK_SIZE)
    ensures Replaced(tables, TablesAfter(tables, c), Members(c.task.Inputs()), c.added, outs)
  {
    var now, gone := TablesAfter(tables, c), Members(c.task.Inputs());
    forall id | id in c.newTables
      ensures id !in tables
    {
      assert id in Members(c.added);
    }
    assert now.Keys == (tables.Keys - gone) + Members(c.added);
  }
}
