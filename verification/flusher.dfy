/** Writing a memtable out as a level-0 table (pkg/lsm/engine.go, `flushMemTableDirect`). */
module Flusher {
  import opened Entries
  import opened Cursors
  import opened Levels
  import opened Storage
  import opened Compaction
  import opened Compactor
  import opened SkipLists
  import opened MemTables

  /** The memtable's entries, in order, become a table at the end of level 0; nothing is done when there are none. */
  method WriteTable(manifest: Manifest, mem: MemTable, blockSize: nat, files0: Tables, readers0: Tables)
    returns (files: Tables, readers: Tables, written: bool)
    requires mem.Valid() && |manifest.levels| == ROWS
    modifies manifest
    ensures written == (mem.Run() != [])
    ensures !written ==>
      && files == files0 && readers == readers0
      && manifest.levels == old(manifest.levels) && manifest.nextId == old(manifest.nextId)
    ensures written ==>
      var id, t := old(manifest.nextId), Table(mem.Run(), blockSize);
      && files == files0[id := t] && readers == readers0[id := t]
      && manifest.levels == Pushed(old(manifest.levels), id) && manifest.nextId == id + 1
  {
    mem.EmptyIs();
    hide SkipList.Valid, MemTable.Valid, Edited, Pushed;
    files, readers, written := files0, readers0, !mem.Empty();
    if !written {
      return;
    }
    var id := manifest.NextID();
    var iter := mem.NewIterator();
    var built := DrainInto(iter);
    files := files[id := Table(built, blockSize)];
    EditedPushes(manifest.levels, id);
    manifest.LogAndApply([id], 0, []);
    readers := readers[id := Table(built, blockSize)];
  }

  /** The loop that hands every entry to the builder. */
  method DrainInto(iter: Cursor) returns (built: seq<Entry>)
    requires iter.Ok() && iter.idx == 0
    modifies iter
    ensures built == iter.entries
  {
    built := [];
    while iter.Valid()
      invariant iter.Ok() && built == iter.entries[..iter.idx]
      decreases |iter.entries| - iter.idx
    {
      built := built + [iter.Current()];
      iter.Next();
    }
  }

  /** The version edit of a flush. */
  lemma EditedPushes(levels: LevelLists, id: nat)
    requires |levels| == ROWS
    ensures Edited(levels, Members([]), [id], 0) == Pushed(levels, id)
  {
    forall l | 0 <= l < ROWS
      ensures Edited(levels, Members([]), [id], 0)[l] == Pushed(levels, id)[l]
    {
      WithoutNothing(levels[l], Members([]));
    }
  }
}
