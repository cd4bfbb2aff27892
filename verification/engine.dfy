/**
 The engine itself (pkg/lsm/engine.go): its methods, run one at a time, take the steps of the machine.
 files and closedLogs stand for the directory; a reader is the table it was opened on.
 */
module Engines {
  import opened Bytes
  import opened Entries
  import opened Runs
  import opened Cursors
  import opened Wal
  import opened Levels
  import opened Storage
  import opened DiskSteps
  import opened Picker
  import opened Compaction
  import opened Compactor
  import opened MemTables
  import opened Flusher
  import opened SkipLists
  import opened Machine
  import opened MachineSteps
  import opened MachineCompaction
  import opened Safety
  import opened CompactionView
  import CompactionEnds
  import Cuts
  import opened FlushGuard
  import opened JobEffects
  import opened Merger
  import opened Scans
  import opened TableIterators
  import opened ScanIterators
  import opened Upsert
  import opened TableFormat

  class Engine {
    const manifest: Manifest
    const comp: Compactor
    const blockSize: nat
    const memTableSize: int
    var activeWAL: WAL
    var activeMem: MemTable
    var immMem: MemTable?
    var readers: Tables
    var levelTables: LevelLists
    var files: Tables
    var closedLogs: seq<Log>

    var closed: bool

    /** The machine's view of all this. */
    ghost var live: Live

    ghost function MemOf(m: MemTable): Mem
      reads m.list
    {
      Mem(m.id, m.list.entries)
    }

    ghost function DiskOf(): Disk
      reads this, manifest, activeWAL.file
    {
      Disk(manifest.levels, files, manifest.nextId, closedLogs + [Log(activeWAL.id, activeWAL.file.content)])
    }

    /** What a write may change. */
    ghost function Footprint(): set<object>
      reads this, activeMem
    {
      {this, manifest, activeWAL, activeWAL.file} + activeMem.Repr
    }

    ghost function Fixed(): set<object>
      reads this
    {
      {this, manifest, comp, activeWAL, activeWAL.file}
    }

    /** No two of the engine's parts share an object. */
    ghost predicate Apart()
      reads this, activeMem, immMem
    {
      && activeMem.Repr !! Fixed()
      && (immMem != null ==> immMem.Repr !! Fixed() && immMem.Repr !! activeMem.Repr)
    }

    /** The memtables are valid; the machine's view is the one of the fields. */
    ghost predicate Coupled()
      reads this, manifest, activeWAL, activeWAL.file, activeMem, activeMem.Repr, immMem
      reads if immMem == null then {} else immMem.Repr
    {
      && Apart() && comp.manifest == manifest && comp.cfg.maxLevels == MAX_LEVELS
      && !activeWAL.closed && activeWAL.id == activeMem.id && activeMem.Valid() && (immMem != null ==> immMem.Valid())
      && live.disk == DiskOf() && live.active == MemOf(activeMem)
      && live.imm == (if immMem == null then None else Some(MemOf(immMem)))
      && live.shot == Snapshot(levelTables, readers)
    }

    constructor (manifest: Manifest, comp: Compactor, blockSize: nat, memTableSize: int, wal: WAL, mem: MemTable,
                 readers: Tables, files: Tables, ghost live: Live)
      requires {manifest, comp} !! {wal, wal.file} !! mem.Repr
      requires comp.manifest == manifest && comp.cfg.maxLevels == MAX_LEVELS && !wal.closed && wal.id == mem.id
      requires mem.Valid()
      requires live.disk == Disk(manifest.levels, files, manifest.nextId, [Log(wal.id, wal.file.content)])
      requires live.active == Mem(mem.id, mem.list.entries) && live.imm == None
      requires live.shot == Snapshot(manifest.levels, readers)
      ensures Coupled() && this.live == live && !closed
      ensures Footprint() == {this, manifest, wal, wal.file} + mem.Repr
    {
      this.manifest, this.comp, this.blockSize, this.memTableSize := manifest, comp, blockSize, memTableSize;
      activeWAL, activeMem, immMem, this.readers, levelTables := wal, mem, null, readers, manifest.levels;
      this.files, closedLogs, closed, this.live := files, [], false, live;
    }

    // ----- Writing -----

    /** The frame goes to the log, then the entry to the memtable. */
    method Append(e: Entry)
      requires Coupled() && live.inflight.None? && e.key != []
      modifies this`live, activeWAL, activeWAL.file, activeMem.Repr
      ensures Coupled() && live == EndsWrite(BeginsWrite(old(live), e))
      ensures fresh(activeMem.Repr - old(activeMem.Repr))
    {
      hide SkipList.Valid, Frame, TornDisk, Upsert.Put, WithContent, GivesBack, Find;
      ghost var before := live;
      WholeFrame(live.disk, e);
      LastReplaced(closedLogs, activeWAL.id, activeWAL.file.content, activeWAL.file.content + Frame(e));
      var ok := activeWAL.Write(e);
      activeMem.Put(e);
      live := EndsWrite(BeginsWrite(before, e));
    }

    /** A log and a memtable under a fresh identifier. */
    method NewGeneration() returns (w: WAL, m: MemTable)
      modifies manifest`nextId
      ensures manifest.nextId == old(manifest.nextId) + 1
      ensures fresh(w) && fresh(w.file) && w.id == old(manifest.nextId) && w.file.content == [] && !w.closed
      ensures m.Valid() && fresh(m) && fresh(m.Repr) && m.id == w.id && m.list.entries == [] && !m.ShouldFlush()
      ensures w !in m.Repr && w.file !in m.Repr
    {
      hide SkipList.Valid;
      var nextID := manifest.NextID();
      m := new MemTable(nextID, memTableSize);
      var file := new LogFile([]);
      w := new WAL(nextID, file);
    }

    /** rotateMemTable: whatever immMem was is replaced. */
    method RotateMemTable()
      requires Coupled()
      modifies this`live, this`immMem, this`closedLogs, this`activeWAL
      modifies this`activeMem, manifest`nextId, activeWAL`closed
      ensures Coupled() && live == RotatesAnyway(old(live))
      ensures immMem == old(activeMem) && fresh(activeMem) && fresh(activeMem.Repr) && fresh(activeWAL)
      ensures fresh(activeWAL.file)
      ensures !activeMem.ShouldFlush()
    {
      hide SkipList.Valid, ImmId;
      activeWAL.Close();
      var w, m := NewGeneration();
      live := RotatesAnyway(live);
      closedLogs := closedLogs + [Log(activeWAL.id, activeWAL.file.content)];
      immMem, activeWAL, activeMem := activeMem, w, m;
    }

    // ----- Flushing -----

    /** flushMemTableDirect on the engine's own fields. */
    method FlushMemTableDirect(mem: MemTable)
      requires mem.Valid() && |manifest.levels| == ROWS
      modifies this`readers, this`levelTables, this`files, manifest
      ensures mem.Run() == [] ==>
        && readers == old(readers) && levelTables == old(levelTables) && files == old(files)
        && manifest.levels == old(manifest.levels) && manifest.nextId == old(manifest.nextId)
      ensures mem.Run() != [] ==>
        var id, t := old(manifest.nextId), Table(mem.Run(), blockSize);
        && files == old(files)[id := t] && readers == old(readers)[id := t]
        && manifest.levels == levelTables == Pushed(old(manifest.levels), id) && manifest.nextId == id + 1
    {
      hide MemTable.Valid, Pushed;
      var written;
      files, readers, written := WriteTable(manifest, mem, blockSize, files, readers);
      if written {
        levelTables := manifest.levels;
      }
    }

    /** flushImmutable. */
    method FlushImmutable()
      requires Coupled() && Runnable(live)
      modifies this`live, this`immMem, this`readers, this`levelTables
      modifies this`files, this`closedLogs, this`activeWAL, this`activeMem
      modifies manifest, activeWAL`closed
      ensures Coupled() && live == FlushesImm(old(live), old(activeMem.ShouldFlush()), blockSize)
      ensures activeMem == old(activeMem) || (fresh(activeMem) && fresh(activeMem.Repr))
      ensures activeWAL == old(activeWAL) || (fresh(activeWAL) && fresh(activeWAL.file))
    {
      hide Coupled, MemTable.Valid, RotatesAnyway, RemovesLog, Drops;
      Parts();
      var imm := immMem;
      if imm == null {
        return;
      }
      SaveImmutable();
      DropImmutable();
      if activeMem.ShouldFlush() {
        RotateMemTable();
      }
      AfterDrop(old(live), old(activeMem.ShouldFlush()));
      Parts();
      RemoveLogFile(imm.id);
    }

    lemma Parts()
      requires Coupled()
      ensures live.imm.None? <==> immMem == null
      ensures immMem != null ==> live.imm.value.id == immMem.id
      ensures live.active.id == activeMem.id == activeWAL.id
    {
      hide MemTable.Valid;
    }

    method DropImmutable()
      requires Coupled() && CanDrop(live)
      modifies this`live, this`immMem
      ensures Coupled() && live == Drops(old(live))
    {
      hide MemTable.Valid;
      immMem := null;
      live := Drops(live);
    }

    lemma AfterDrop(s: Live, full: bool)
      requires OwnLogs(s) && s.job.Idle? && s.inflight.None? && s.imm.Some? && |s.disk.levels| == ROWS
      ensures var t := Drops(SavesImm(s, blockSize));
        && t.job == RotatesAnyway(t).job == Dropped(s.imm.value.id)
        && s.imm.value.id != t.active.id && s.imm.value.id != RotatesAnyway(t).active.id
    {
    }

    method SaveImmutable()
      requires Coupled() && live.job.Idle? && immMem != null && |live.disk.levels| == ROWS
      modifies this`live, this`readers, this`levelTables, this`files, manifest
      ensures Coupled() && live == SavesImm(old(live), blockSize)
    {
      hide SkipList.Valid, Pushed;
      FlushMemTableDirect(immMem);
      live := SavesImm(live, blockSize);
    }

    /** The log file of a memtable that is gone is deleted. */
    method RemoveLogFile(id: nat)
      requires Coupled() && live.job == Dropped(id) && id != activeWAL.id
      modifies this`live, this`closedLogs
      ensures Coupled() && live == RemovesLog(old(live))
    {
      hide SkipList.Valid, Besides;
      OthersStay(closedLogs, Log(activeWAL.id, activeWAL.file.content), id);
      closedLogs := Besides(closedLogs, {id});
      live := RemovesLog(live);
    }

    /** Flush, as it is: after its inner flush it rotates without looking at immMem again. */
    method Flush() returns (ok: bool)
      requires Coupled() && Runnable(live)
      modifies this`live, this`immMem, this`readers, this`levelTables
      modifies this`files, this`closedLogs, this`activeWAL, this`activeMem
      modifies manifest, activeWAL`closed
      ensures Coupled() && Runnable(live) && ok == !closed
      ensures live == if closed then old(live) else Flushes(old(live), old(activeMem.ShouldFlush()), blockSize)
      ensures ok ==> live.active.run == [] && live.imm.None? && live.hist == old(live.hist)
      ensures Resting(old(live)) && Saveable(old(live)) && !(old(live).imm.Some? && old(activeMem.ShouldFlush())) ==>
        Resting(live)
    {
      hide Coupled, MemTable.Valid, FlushesImm, RotatesAnyway, OwnLogs, LiveInv, Resting, Saveable;
      GuardedFlush(live, activeMem.ShouldFlush(), blockSize);
      FlushEmpties(live, activeMem.ShouldFlush(), blockSize);
      MemsEmpty();
      if closed {
        return false;
      }
      if activeMem.Empty() && immMem == null {
        return true;
      }
      FlushKeepsRows(live, activeMem.ShouldFlush(), blockSize);
      FlushWaiting();
      RotateMemTable();
      FlushKeepsRows(live, activeMem.ShouldFlush(), blockSize);
      FlushImmutable();
      return true;
    }

    /** An immutable memtable that is still there is flushed first. */
    method FlushWaiting()
      requires Coupled() && Runnable(live)
      modifies this`live, this`immMem, this`readers, this`levelTables
      modifies this`files, this`closedLogs, this`activeWAL, this`activeMem
      modifies manifest, activeWAL`closed
      ensures Coupled() && live == FlushesImm(old(live), old(activeMem.ShouldFlush()), blockSize)
      ensures activeWAL == old(activeWAL) || fresh(activeWAL)
    {
      hide Coupled, MemTable.Valid, OwnLogs;
      MemsEmpty();
      if immMem != null {
        FlushImmutable();
      }
    }

    lemma NothingShared()
      requires Coupled()
      ensures Apart()
    {
      hide MemTable.Valid;
    }

    lemma MemsEmpty()
      requires Coupled()
      ensures activeMem.Empty() <==> live.active.run == []
      ensures live.imm.None? <==> immMem == null
    {
      activeMem.EmptyIs();
      hide MemTable.Valid;
    }

    // ----- Put and Delete -----

    /** Put: an entry for the key, of whatever length, is the last write from now on. */
    method Put(key: Key, value: seq<byte>, now: int64) returns (err: Option<string>)
      requires Coupled() && Runnable(live)
      modifies this, manifest, activeWAL, activeWAL.file, activeMem.Repr
      ensures Coupled() && Runnable(live) && closed == old(closed)
      ensures err == if key == [] then Some(EMPTY_KEY) else if closed then Some(CLOSED) else None
      ensures err.Some? ==> live == old(live)
      ensures live.hist == if err.None? then old(live.hist) + [PutEntry(key, value, now)] else old(live.hist)
      ensures err.None? ==> MapOf(live.hist) == MapOf(old(live.hist))[key := value]
      ensures err.None? ==> LastOf(live.hist, key) == Some(Entry(key, value, now, OP_PUT))
      ensures err.None? ==> forall k: Key :: k != key ==> LastOf(live.hist, k) == LastOf(old(live.hist), k)
      ensures Resting(old(live)) && AllStorable(ImmRun(old(live).imm)) ==> Resting(live)
      ensures Saveable(old(live)) && PutEntry(key, value, now).Storable() ==> Saveable(live)
      ensures fresh(Footprint() - old(Footprint()))
    {
      hide LiveInv, Coupled, MemTable.Valid, Runnable, Resting, Saveable, AllStorable, Entry.Storable, WriteSteps;
      err := Refusal(key, closed);
      if err.None? {
        Write(PutEntry(key, value, now));
        LastIsWritten(old(live.hist), PutEntry(key, value, now));
      }
    }

    /** Delete: a tombstone for the key is the last write from now on. */
    method Delete(key: Key, now: int64) returns (err: Option<string>)
      requires Coupled() && Runnable(live)
      modifies this, manifest, activeWAL, activeWAL.file, activeMem.Repr
      ensures Coupled() && Runnable(live) && closed == old(closed)
      ensures err == if key == [] then Some(EMPTY_KEY) else if closed then Some(CLOSED) else None
      ensures err.Some? ==> live == old(live)
      ensures live.hist == if err.None? then old(live.hist) + [DeleteEntry(key, now)] else old(live.hist)
      ensures err.None? ==> MapOf(live.hist) == MapOf(old(live.hist)) - {key}
      ensures err.None? ==> LastOf(live.hist, key) == Some(Entry(key, [], now, OP_DELETE))
      ensures err.None? ==> forall k: Key :: k != key ==> LastOf(live.hist, k) == LastOf(old(live.hist), k)
      ensures Resting(old(live)) && AllStorable(ImmRun(old(live).imm)) ==> Resting(live)
      ensures Saveable(old(live)) && DeleteEntry(key, now).Storable() ==> Saveable(live)
      ensures fresh(Footprint() - old(Footprint()))
    {
      hide LiveInv, Coupled, MemTable.Valid, Runnable, Resting, Saveable, AllStorable, Entry.Storable, WriteSteps;
      err := Refusal(key, closed);
      if err.None? {
        Write(DeleteEntry(key, now));
        LastIsWritten(old(live.hist), DeleteEntry(key, now));
      }
    }

    /**
     The common part: waits for the flush worker, writes, and rotates if that filled the memtable: on return
     no full memtable is active unless another one still waits for its flush. The invariant is kept if the
     memtable that the wait flushes, if it does, can be given back by a table.
     */
    method Write(entry: Entry)
      requires Coupled() && Runnable(live) && entry.key != []
      modifies this, manifest, activeWAL, activeWAL.file, activeMem.Repr
      ensures Coupled() && Runnable(live) && closed == old(closed)
      ensures live.hist == old(live.hist) + [entry]
      ensures exists rotated: bool ::
        && WriteSteps(old(live), old(activeMem.ShouldFlush()), blockSize, entry, rotated, live)
        && (rotated ==> immMem != null && immMem.list.bytes >= immMem.maxBytes)
      ensures activeMem.list.bytes >= activeMem.maxBytes ==> immMem != null
      ensures old(activeMem.list.bytes >= activeMem.maxBytes) && old(live).imm.Some? ==>
        live.imm == Some(old(live).active) && live.active.run == [entry]
      ensures !(old(activeMem.list.bytes >= activeMem.maxBytes) && old(live).imm.Some?) ==>
        live.shot == old(live).shot && HoldsEntry(old(live), entry, live)
      ensures Resting(old(live)) && AllStorable(ImmRun(old(live).imm)) ==> Resting(live)
      ensures Saveable(old(live)) && entry.Storable() ==> Saveable(live)
      ensures fresh(Footprint() - old(Footprint()))
    {
      hide LiveInv, Coupled, MemTable.Valid, Runnable, Resting, Saveable, AllStorable, Entry.Storable, WroteOne,
           Waited;
      ghost var before, full := live, activeMem.ShouldFlush();
      BetweenJobs(before);
      WaitForFlush();
      ghost var rotated := WriteNow(entry);
      assert WriteSteps(before, full, blockSize, entry, rotated, live);
      WriteEffect(before, full, blockSize, entry, rotated, live);
    }

    /** The frame and the memtable's entry, then the rotation if that filled the memtable and none waits. */
    method WriteNow(entry: Entry) returns (ghost rotated: bool)
      requires Coupled() && Runnable(live) && entry.key != []
      modifies this, manifest, activeWAL, activeWAL.file, activeMem.Repr
      ensures Coupled() && Runnable(live) && closed == old(closed)
      ensures WroteOne(old(live), entry, rotated, live) && live.hist == old(live.hist) + [entry]
      ensures rotated ==> immMem != null && immMem.ShouldFlush()
      ensures activeMem.ShouldFlush() ==> immMem != null
      ensures Resting(old(live)) ==> Resting(live)
      ensures Saveable(old(live)) && entry.Storable() ==> Saveable(live)
      ensures fresh(Footprint() - old(Footprint()))
    {
      hide LiveInv, Coupled, MemTable.Valid, Resting, Saveable, AllStorable, Entry.Storable, BeginsWrite, EndsWrite,
           OwnLogs, Rotates;
      SomeLog();
      WriteStays(live, entry);
      WriteKeeps(live, entry);
      NothingShared();
      Append(entry);
      rotated := RotateIfFull();
    }

    lemma SomeLog()
      requires Coupled()
      ensures live.disk.logs != []
    {
      hide MemTable.Valid;
    }

    /** The write stall: a full memtable behind an unflushed one waits for the flush worker's turn. */
    method WaitForFlush()
      requires Coupled() && Runnable(live)
      modifies this, manifest, activeWAL
      ensures Coupled() && Runnable(live) && closed == old(closed)
      ensures live == Waited(old(live), old(activeMem.ShouldFlush()), blockSize)
      ensures live.hist == old(live.hist)
      ensures Resting(old(live)) && AllStorable(ImmRun(old(live).imm)) ==> Resting(live)
      ensures Saveable(old(live)) ==> Saveable(live)
      ensures activeMem == old(activeMem) || (fresh(activeMem) && fresh(activeMem.Repr))
      ensures activeMem == old(activeMem) ==> activeMem.Repr == old(activeMem.Repr)
      ensures activeWAL == old(activeWAL) || fresh(activeWAL)
      ensures activeWAL.file == old(activeWAL.file) || fresh(activeWAL.file)
    {
      hide LiveInv, Coupled, MemTable.Valid, Resting, Saveable, AllStorable, OwnLogs, FlushesImm;
      Parts();
      if activeMem.ShouldFlush() && immMem != null {
        FlushKeepsRows(live, activeMem.ShouldFlush(), blockSize);
        FlushShape(live, activeMem.ShouldFlush(), blockSize);
        FlushRests(live, activeMem.ShouldFlush(), blockSize);
        FlushImmutable();
      }
    }

    method RotateIfFull() returns (ghost rotated: bool)
      requires Coupled() && Runnable(live)
      modifies this`live, this`immMem, this`closedLogs, this`activeWAL
      modifies this`activeMem, manifest`nextId, activeWAL`closed
      ensures Coupled() && Runnable(live) && live.hist == old(live.hist)
      ensures rotated == (old(activeMem.ShouldFlush()) && old(live).imm.None?)
      ensures live == if rotated then Rotates(old(live)) else old(live)
      ensures rotated ==> immMem != null && immMem.ShouldFlush()
      ensures activeMem.ShouldFlush() ==> immMem != null
      ensures Resting(old(live)) ==> Resting(live)
      ensures Saveable(old(live)) ==> Saveable(live)
      ensures fresh(Footprint() - old(Footprint()))
    {
      hide LiveInv, Coupled, MemTable.Valid, Resting, Saveable, OwnLogs;
      MemsEmpty();
      RotationStays(live);
      rotated := activeMem.ShouldFlush() && immMem == null;
      if activeMem.ShouldFlush() && immMem == null {
        RotateMemTable();
        assert old(live).orphans + {} == old(live).orphans;
      }
    }

    // ----- Compaction -----

    /**
     One compaction step, of whatever kind. It keeps the invariant when the task is harmless, as it always is
     when the manifest lists level 0 newest first and the task does not come out of level 6.
     */
    method Compact(newestFirst: bool) returns (r: Option<Compacted>, ghost ids: nat)
      requires Coupled() && Compactable(live)
      modifies this`live, this`readers, this`levelTables, this`files, manifest
      ensures Coupled() && Compactable(live)
      ensures r.None? <==> !CompactionDue(Listing(old(live.disk.levels), newestFirst), old(live.shot.readers), comp.cfg)
      ensures r.Some? ==>
        CompactedBy(old(live.disk.levels), old(live.shot.readers), newestFirst, r.value, live.disk.levels,
                    comp.targetTable)
      ensures r.Some? ==> (r.value.task.from == 0 <==> |old(live.disk.levels)[0]| >= comp.cfg.l0Trigger)
      ensures r.Some? ==>
        Picked(Listing(old(live.disk.levels), newestFirst), old(live.shot.readers), comp.cfg, r.value.task)
      ensures live == if r.Some? then CompactsFully(old(live), r.value, ids) else old(live)
      ensures r.Some? && newestFirst && r.value.task.to < MAX_LEVELS ==>
        Harmless(old(live.disk.levels), old(live.shot.readers), r.value.task)
      ensures (LiveInv(old(live))
               && (r.Some? ==> Harmless(old(live.disk.levels), old(live.shot.readers), r.value.task)))
        ==> LiveInv(live) && live.hist == old(live.hist)
    {
      hide LiveInv, Coupled, CanCompact, CompactedBy, CompactionDue, Picked, LevelsOk, Edited, Harmless, Compactable,
           CompactsFully;
      CompactableRows(live);
      r, ids := RunCompactor(newestFirst);
      if r.Some? {
        if newestFirst && r.value.task.to < MAX_LEVELS {
          NewestIsHarmless(old(live.disk.levels), old(live.shot.readers), r.value, live.disk.levels, comp.targetTable);
        }
        KeepsWhenHarmless(old(live), r.value, newestFirst, comp.targetTable, ids);
        CompactsIs(old(live), r.value, ids);
        CompactsFullyReady(old(live), r.value, newestFirst, comp.targetTable, ids);
        Install(r.value);
        FullyIs(old(live), r.value, ids);
      }
    }

    /** Merges and commits. */
    method RunCompactor(newestFirst: bool) returns (r: Option<Compacted>, ghost ids: nat)
      requires Coupled() && Compactable(live)
      modifies this`live, this`files, manifest
      ensures Coupled()
      ensures r.None? <==> !CompactionDue(Listing(old(live.disk.levels), newestFirst), old(live.shot.readers), comp.cfg)
      ensures live == if r.Some? then Compacts(old(live), r.value, ids) else old(live)
      ensures r.Some? ==>
        CompactedBy(old(live.disk.levels), old(live.shot.readers), newestFirst, r.value,
                    CompactedLevels(old(live), r.value), comp.targetTable)
      ensures r.Some? ==> live.disk.levels == CompactedLevels(old(live), r.value)
      ensures r.Some? ==> (r.value.task.from == 0 <==> |old(live.disk.levels)[0]| >= comp.cfg.l0Trigger)
      ensures r.Some? ==>
        Picked(Listing(old(live.disk.levels), newestFirst), old(live.shot.readers), comp.cfg, r.value.task)
      ensures r.Some? ==> forall id :: id in r.value.newTables ==>
        old(live.disk.nextId) <= id < old(live.disk.nextId) + ids
    {
      hide LevelsOk, CompactedBy, CompactionDue, Picked, MemTable.Valid, Edited, Listing;
      r := comp.Compact(readers, newestFirst);
      ids := manifest.nextId - old(manifest.nextId);
      if r.Some? {
        EditIs(live.disk.levels, readers, newestFirst, r.value, manifest.levels, comp.targetTable);
        files := files + r.value.newTables;
        live := Compacts(live, r.value, ids);
      }
    }

    /**
     What the compaction worker does on a signal, with a trigger of at least 1: it compacts until level 0 is
     below the trigger. Each turn takes entries off the weight, so the loop ends.
     */
    method DrainLevel0(newestFirst: bool)
      requires Coupled() && Compactable(live) && comp.cfg.l0Trigger >= 1
      modifies this`live, this`readers, this`levelTables, this`files, manifest
      ensures Coupled() && Compactable(live) && |manifest.levels| == ROWS && |manifest.levels[0]| < comp.cfg.l0Trigger
    {
      hide Coupled, CompactedBy, CompactionDue, LevelsOk, Harmless, CompactsFully, Compactable, CompactionEnds.Weight;
      CompactableRows(live);
      SameManifest();
      while true
        invariant Coupled() && Compactable(live) && |live.disk.levels| == ROWS && TablesNotEmpty(live.shot.readers)
        invariant comp.cfg.maxLevels == MAX_LEVELS
        decreases CompactionEnds.Weight(live.disk.levels, 0, live.shot.readers)
      {
        ghost var before := live;
        CompactableRows(before);
        var r;
        ghost var ids;
        r, ids := Compact(newestFirst);
        CompactableRows(live);
        SameManifest();
        AfterTurn(before, r, newestFirst, ids, live, comp.cfg, comp.targetTable);
        if |manifest.levels[0]| < comp.cfg.l0Trigger {
          break;
        }
      }
    }

    lemma SameManifest()
      requires Coupled()
      ensures manifest.levels == live.disk.levels && comp.cfg.maxLevels == MAX_LEVELS
    {
      hide MemTable.Valid;
    }

    /** Installs the new readers and lists, then unlinks the input files. */
    method Install(done: Compacted)
      requires Coupled() && live.job == Compacting(done)
      modifies this`live, this`readers, this`levelTables, this`files
      ensures Coupled() && live == Unlinked(ShowsCompacted(old(live)), Members(done.task.Inputs()))
    {
      hide MemTable.Valid;
      readers, levelTables := TablesAfter(readers, done), manifest.levels;
      UnlinkFiles(done.task.Inputs());
      live := Unlinked(ShowsCompacted(live), Members(done.task.Inputs()));
    }

    method UnlinkFiles(deleted: seq<nat>)
      modifies this`files
      ensures files == old(files) - Members(deleted)
    {
      for i := 0 to |deleted|
        invariant files == old(files) - Members(deleted[..i])
      {
        files := files - {deleted[i]};
        assert Members(deleted[..i + 1]) == Members(deleted[..i]) + {deleted[i]};
      }
      assert deleted[..|deleted|] == deleted;
    }

    // ----- Lookup -----

    /** The memory phase of Get, under mu. */
    method SearchMemory(key: Key) returns (r: Option<Entry>)
      requires Coupled()
      ensures r == MemFind(live, key)
    {
      r := activeMem.Get(key);
      if r.None? && immMem != null {
        r := immMem.Get(key);
      }
    }

    /** Level 0, the last table first; a table without a reader is passed over. */
    method SearchLevel0(key: Key) returns (r: Option<Entry>)
      requires |levelTables| == ROWS
      ensures r == FindL0(levelTables[0], readers, key)
    {
      var ids := levelTables[0];
      var i := |ids|;
      assert ids[..|ids|] == ids;
      while i > 0
        invariant 0 <= i <= |ids|
        invariant FindL0(ids, readers, key) == FindL0(ids[..i], readers, key)
      {
        i := i - 1;
        assert ids[..i + 1][..i] == ids[..i];
        if ids[i] in readers {
          var found := Find(readers[ids[i]].run, key);
          if found.Some? {
            return found;
          }
        }
      }
      return None;
    }

    /** A level from 1 on: the first table that covers the key is the only one that is asked. */
    method SearchLevel(lvl: nat, key: Key) returns (r: Option<Entry>)
      requires lvl < |levelTables| && TablesNotEmpty(readers)
      ensures r == FindInLevel(levelTables[lvl], readers, key)
    {
      var ids := levelTables[lvl];
      assert ids[0..] == ids;
      for i := 0 to |ids|
        invariant FindInLevel(ids, readers, key) == FindInLevel(ids[i..], readers, key)
      {
        assert ids[i..][1..] == ids[i + 1..];
        if ids[i] in readers && readers[ids[i]].Covers(key) {
          return Find(readers[ids[i]].run, key);
        }
      }
      return None;
    }

    /** The disk phase of Get, under readersMu. */
    method SearchTables(key: Key) returns (r: Option<Entry>)
      requires |levelTables| == ROWS && TablesNotEmpty(readers)
      ensures r == DiskFind(levelTables, readers, key)
    {
      r := SearchLevel0(key);
      if r.Some? {
        return;
      }
      var lvl := 1;
      while lvl < 7
        invariant 1 <= lvl <= MAX_LEVELS && r.None?
        invariant DiskFind(levelTables, readers, key) == FindFromLevel(levelTables, lvl, readers, key)
      {
        r := SearchLevel(lvl, key);
        if r.Some? {
          return;
        }
        lvl := lvl + 1;
      }
    }

    /**
     With nothing running beside it, Get returns the value of the key's last write, if that is a put; it fails
     exactly when the key is empty, the engine is closed, or the key was never written or last deleted.
     */
    method Get(key: Key) returns (r: Result<seq<byte>>)
      requires Coupled() && LiveInv(live)
      ensures forall v :: r == Ok(v) <==>
        && key != [] && !closed && LastOf(live.hist, key).Some?
        && LastOf(live.hist, key).value.op != OP_DELETE && LastOf(live.hist, key).value.value == v
      ensures r == if key == [] then Err(EMPTY_KEY) else if closed then Err(CLOSED)
                   else if key in MapOf(live.hist) then Ok(MapOf(live.hist)[key]) else Err(NOT_FOUND)
    {
      if |key| == 0 {
        return Err(EMPTY_KEY);
      }
      if closed {
        return Err(CLOSED);
      }
      LookupIsLastWrite(live, key);
      MapIsLastWrites(live.hist, key);
      TablesReadable();
      hide LiveInv, MapOf;
      var found := SearchMemory(key);
      hide Coupled;
      if found.None? {
        found := SearchTables(key);
      }
      r := Answer(Visible(found));
    }

    /** The memtables' iterators, newest first. */
    method OpenMemtables() returns (iters: seq<Cursor?>)
      requires Coupled() && Ascending(live.active.run) && Ascending(ImmRun(live.imm))
      ensures Opened(iters, MemRuns(live.active, live.imm))
      ensures forall p :: 0 <= p < |iters| ==> iters[p] != null && fresh(iters[p])
    {
      hide Ascending, SkipList.Valid;
      var c := activeMem.NewIterator();
      iters := [c];
      if immMem != null {
        var d := immMem.NewIterator();
        iters := iters + [d];
      }
    }

    /** With nothing running beside it, the iterator shows what a scan of [lo, hi] has to show. */
    method Scan(lo: Key, hi: Key) returns (r: Result<MergedIterator>)
      requires Coupled() && LiveInv(live)
      ensures LevelsOk(live.shot.levels, live.shot.readers)
      ensures if closed then r == Err(CLOSED) else r.Ok?
      ensures r.Ok? ==> fresh(r.value) && r.value.Inv() && UpTo(r.value.Remaining(), hi) == ScanPairs(live, lo, hi)
      ensures r.Ok? ==> forall p :: 0 <= p < |r.value.iters| ==> r.value.iters[p] != null && fresh(r.value.iters[p])
    {
      hide LiveInv, Coupled, MergedIterator.Inv, MergedIterator.Remaining, Opened, LevelsOk, TableRuns, MemRuns,
           Scanned, UpTo;
      TablesReadable();
      MemsAscend(live);
      if closed {
        return Err(CLOSED);
      }
      var mems := OpenMemtables();
      ghost var runs := MemRuns(live.active, live.imm);
      var iters := OpenTables(levelTables, readers, lo, hi, mems, runs);
      assert forall p :: 0 <= p < |mems| ==> iters[p] == mems[p];
      var merged := MergeFromStart(iters, runs + TableRuns(live.shot, lo, hi), lo);
      return Ok(merged);
    }

    lemma TablesReadable()
      requires Coupled() && LiveInv(live)
      ensures levelTables == live.shot.levels && readers == live.shot.readers
      ensures |levelTables| == ROWS && TablesOk(readers) && TablesNotEmpty(readers) && LevelsOk(levelTables, readers)
    {
      hide DiskOk, LogsHold, JobOk, Refines, MemsOk, AllListed, DistinctIds, DisjointLevels, TableFormat.TableRun;
    }
  }

  lemma LastReplaced(before: seq<Log>, id: nat, content: seq<byte>, now: seq<byte>)
    ensures WithContent(before + [Log(id, content)], |before|, now) == before + [Log(id, now)]
  {
  }

  lemma NewestIsHarmless(levels: LevelLists, readers: Tables, c: Compacted, levels': LevelLists, target: nat)
    requires LevelsOk(levels, readers) && CompactedBy(levels, readers, true, c, levels', target)
    requires c.task.to < MAX_LEVELS
    ensures Harmless(levels, readers, c.task)
  {
    hide AllListed, DistinctIds, DisjointLevels, TablesOk, Outcome, Cuts.Pieces, MergedRun, Overlapping, IsBottom,
         Harmless;
    NewestFirstIsHarmless(levels, readers, c.task);
  }

  lemma KeepsWhenHarmless(s: Live, done: Compacted, newestFirst: bool, target: nat, ids: nat)
    requires Compactable(s)
    requires CompactedBy(s.disk.levels, s.shot.readers, newestFirst, done, CompactedLevels(s, done), target)
    requires forall id :: id in done.newTables ==> s.disk.nextId <= id < s.disk.nextId + ids
    ensures |s.disk.levels| == ROWS
    ensures LiveInv(s) && Harmless(s.disk.levels, s.shot.readers, done.task) ==>
      LiveInv(CompactsFully(s, done, ids)) && CompactsFully(s, done, ids).hist == s.hist
  {
    hide LiveInv, LevelsOk, CompactedBy, Harmless, CompactsFully, CompactedLevels;
    CompactableRows(s);
    if LiveInv(s) && Harmless(s.disk.levels, s.shot.readers, done.task) {
      ItCanCompact(s, done, newestFirst, target, ids);
      hide CanCompact;
      CompactsFullyKeeps(s, done, newestFirst, target, ids);
    }
  }

  lemma ItCanCompact(s: Live, done: Compacted, newestFirst: bool, target: nat, ids: nat)
    requires Compactable(s)
    requires CompactedBy(s.disk.levels, s.shot.readers, newestFirst, done, CompactedLevels(s, done), target)
    requires forall id :: id in done.newTables ==> s.disk.nextId <= id < s.disk.nextId + ids
    requires |s.disk.levels| == ROWS && Harmless(s.disk.levels, s.shot.readers, done.task)
    ensures CanCompact(s, done, newestFirst, target, ids)
  {
    hide LevelsOk, CompactedBy, Harmless, CompactedLevels;
  }

  lemma CompactableRows(s: Live)
    requires Compactable(s)
    ensures |s.disk.levels| == ROWS && LevelsOk(s.disk.levels, s.shot.readers) && TablesNotEmpty(s.shot.readers)
  {
  }

  lemma FullyIs(s: Live, done: Compacted, ids: nat)
    ensures Compacts(s, done, ids).job == Compacting(done)
    ensures CompactsFully(s, done, ids) == Unlinked(ShowsCompacted(Compacts(s, done, ids)), Members(done.task.Inputs()))
    ensures CompactsFully(s, done, ids).disk.levels == CompactedLevels(s, done)
    ensures CompactsFully(s, done, ids).shot.readers == TablesAfter(s.shot.readers, done)
  {
    hide Edited;
  }

  /** After a turn level 0 is below its trigger, or the weight is lower. */
  lemma AfterTurn(s: Live, r: Option<Compacted>, newestFirst: bool, ids: nat, t: Live, cfg: LevelConfig, target: nat)
    requires Compactable(s) && Compactable(t) && |s.disk.levels| == ROWS && |t.disk.levels| == ROWS
    requires TablesNotEmpty(s.shot.readers) && TablesNotEmpty(t.shot.readers)
    requires cfg.maxLevels == MAX_LEVELS && cfg.l0Trigger >= 1
    requires r.None? <==> !CompactionDue(Listing(s.disk.levels, newestFirst), s.shot.readers, cfg)
    requires t == if r.Some? then CompactsFully(s, r.value, ids) else s
    requires r.Some? ==> CompactedBy(s.disk.levels, s.shot.readers, newestFirst, r.value, t.disk.levels, target)
    requires r.Some? ==> (r.value.task.from == 0 <==> |s.disk.levels[0]| >= cfg.l0Trigger)
    ensures |t.disk.levels[0]| < cfg.l0Trigger
      || CompactionEnds.Weight(t.disk.levels, 0, t.shot.readers)
           < CompactionEnds.Weight(s.disk.levels, 0, s.shot.readers)
  {
    hide LevelsOk, CompactedBy, CompactsFully, CompactionEnds.Weight, Due, FilesBounded;
    if r.Some? {
      FullyIs(s, r.value, ids);
      CompactedLowersWeight(s.disk.levels, s.shot.readers, newestFirst, r.value, t.disk.levels, target, cfg);
    }
  }

  lemma EditIs(levels: LevelLists, readers: Tables, newestFirst: bool, done: Compacted, levels': LevelLists,
               target: nat)
    requires LevelsOk(levels, readers) && CompactedBy(levels, readers, newestFirst, done, levels', target)
    ensures levels' == Edited(levels, Members(done.task.Inputs()), done.added, done.task.to)
  {
    hide LevelsOk, TaskFor, Cuts.Pieces, Sensible, MergedRun, Cuts.Flatten;
  }

  /** A flush that does not meet both an immutable and a full active memtable keeps the invariant. */
  lemma GuardedFlush(s: Live, full: bool, blockSize: nat)
    requires s.job.Idle? && s.inflight.None? && |s.disk.levels| == ROWS
    ensures Resting(s) && Saveable(s) && !(s.imm.Some? && full) ==>
      Resting(Flushes(s, full, blockSize)) && Flushes(s, full, blockSize).hist == s.hist
  {
    hide LiveInv, Flushes;
    if Resting(s) && Saveable(s) && !(s.imm.Some? && full) {
      GuardedFlushKeeps(s, full, blockSize);
    }
  }

  /** What a write finds that has had to wait for the flush of the immutable memtable. */
  function Waited(s: Live, full: bool, blockSize: nat): Live
    requires s.job.Idle? && |s.disk.levels| == ROWS && s.inflight.None?
  {
    if full && s.imm.Some? then FlushesImm(s, true, blockSize) else s
  }

  /** One write, begun and ended, and the rotation behind it. */
  ghost predicate WroteOne(s: Live, e: Entry, rotated: bool, t: Live) {
    && CanBeginWrite(s, e) && CanEndWrite(BeginsWrite(s, e))
    && var u := EndsWrite(BeginsWrite(s, e));
       if rotated then CanRotate(u) && t == Rotates(u) else t == u
  }

  /** The steps of Write. */
  ghost predicate WriteSteps(s: Live, full: bool, blockSize: nat, e: Entry, rotated: bool, t: Live) {
    s.job.Idle? && |s.disk.levels| == ROWS && s.inflight.None? && WroteOne(Waited(s, full, blockSize), e, rotated, t)
  }

  /** The entry has joined the active memtable, which may have become the immutable one since. */
  predicate HoldsEntry(s: Live, e: Entry, t: Live) {
    var mem := Mem(s.active.id, Upsert.Put(s.active.run, e));
    (t.active == mem && t.imm == s.imm) || (s.imm.None? && t.imm == Some(mem) && t.active.run == [])
  }

  /** A write that waits finds the old active memtable waiting for its flush, and is the first in the new one. */
  lemma WriteEffect(s: Live, full: bool, blockSize: nat, e: Entry, rotated: bool, t: Live)
    requires WriteSteps(s, full, blockSize, e, rotated, t)
    ensures full && s.imm.Some? ==> !rotated && t.imm == Some(s.active) && t.active.run == [e]
    ensures !(full && s.imm.Some?) ==> t.shot == s.shot && HoldsEntry(s, e, t)
  {
    hide TornDisk, GivesBack, FlushesImm;
    if full && s.imm.Some? {
      FlushImmEffect(s, true, blockSize);
    }
  }

  lemma LastIsWritten(hist: seq<Entry>, e: Entry)
    ensures LastOf(hist + [e], e.key) == Some(e)
    ensures forall k: Key :: k != e.key ==> LastOf(hist + [e], k) == LastOf(hist, k)
    ensures MapOf(hist + [e]) == if e.op == OP_DELETE then MapOf(hist) - {e.key} else MapOf(hist)[e.key := e.value]
  {
    assert (hist + [e])[..|hist|] == hist;
  }

  function Refusal(key: Key, closed: bool): Option<string> {
    if |key| == 0 then Some(EMPTY_KEY) else if closed then Some(CLOSED) else None
  }

  /** What the methods need to find between calls, whether or not the invariant holds. */
  ghost predicate Runnable(s: Live) {
    OwnLogs(s) && s.job.Idle? && s.inflight.None? && |s.disk.levels| == ROWS
  }

  lemma BetweenJobs(s: Live)
    requires Runnable(s)
    ensures s.job.Idle? && s.inflight.None? && |s.disk.levels| == ROWS
  {
  }

  lemma RestingIsRunnable(s: Live)
    requires Resting(s)
    ensures Runnable(s)
  {
    hide LiveInv, OwnLogs;
    OwnLogsHold(s);
    RowsThere(s);
  }

  lemma WriteStays(s: Live, e: Entry)
    requires Runnable(s) && e.key != [] && s.disk.logs != []
    ensures CanEndWrite(BeginsWrite(s, e))
    ensures var t := EndsWrite(BeginsWrite(s, e));
      && Runnable(t) && t.hist == s.hist + [e] && (Saveable(s) && e.Storable() ==> Saveable(t))
  {
    hide TornDisk, GivesBack, Entry.Storable, Upsert.Put;
    WholeFrame(s.disk, e);
    PutFrom(s.active.run, e);
  }

  lemma WriteKeeps(s: Live, e: Entry)
    requires s.inflight.None? && e.key != [] && s.disk.logs != []
    ensures CanEndWrite(BeginsWrite(s, e))
    ensures Resting(s) ==> Resting(EndsWrite(BeginsWrite(s, e)))
  {
    hide LiveInv, TornDisk, GivesBack, Upsert.Put;
    if Resting(s) {
      BeginWriteKeeps(s, e);
      EndWriteKeeps(BeginsWrite(s, e));
    }
  }

  /** A flush leaves the active memtable, or an empty one behind it. */
  lemma FlushShape(s: Live, full: bool, blockSize: nat)
    requires s.job.Idle? && s.inflight.None? && |s.disk.levels| == ROWS
    ensures var t := FlushesImm(s, full, blockSize); t.hist == s.hist && (Saveable(s) ==> Saveable(t))
  {
    hide Besides, Pushed, Entry.Storable;
  }

  lemma FlushRests(s: Live, full: bool, blockSize: nat)
    requires s.job.Idle? && s.inflight.None? && |s.disk.levels| == ROWS
    ensures Resting(s) && AllStorable(ImmRun(s.imm)) ==> Resting(FlushesImm(s, full, blockSize))
  {
    hide LiveInv, FlushesImm, AllStorable;
    if Resting(s) && AllStorable(ImmRun(s.imm)) {
      FlushesImmKeeps(s, full, blockSize);
    }
  }

  lemma RotationStays(s: Live)
    requires Runnable(s)
    ensures var t := RotatesAnyway(s);
      && Runnable(t) && t.hist == s.hist
      && (s.imm.None? && Resting(s) ==> Resting(t)) && (Saveable(s) ==> Saveable(t))
  {
    hide LiveInv, Entry.Storable;
    if s.imm.None? && Resting(s) {
      RotateKeeps(s);
    }
  }

  lemma OwnLogsHold(s: Live)
    requires LiveInv(s)
    ensures OwnLogs(s)
  {
    hide DiskOk, ShotOk, Refines, MemsOk, LogsHold, JobOk;
    LiveParts(s);
    OwnIds(s);
  }

  /** The memtables' logs have identifiers of their own. */
  ghost predicate OwnLogs(s: Live) {
    && s.active.id < s.disk.nextId
    && (s.imm.Some? ==> s.imm.value.id < s.disk.nextId && s.imm.value.id != s.active.id)
  }

  /** Flushing and rotating leave the engine as flushing and rotating need it. */
  lemma FlushKeepsRows(s: Live, full: bool, blockSize: nat)
    requires Runnable(s)
    ensures Runnable(FlushesImm(s, full, blockSize)) && Runnable(RotatesAnyway(FlushesImm(s, full, blockSize)))
  {
    hide Besides;
  }

  lemma OthersStay(logs: seq<Log>, log: Log, id: nat)
    requires log.id != id
    ensures Besides(logs + [log], {id}) == Besides(logs, {id}) + [log]
  {
    BesidesLast(logs + [log], {id});
    assert (logs + [log])[..|logs|] == logs;
  }

  const EMPTY_KEY := "empty key not allowed"
  const CLOSED := "database is closed"
  const NOT_FOUND := "key not found"

  function Answer(v: Option<seq<byte>>): Result<seq<byte>> {
    if v.Some? then Ok(v.value) else Err(NOT_FOUND)
  }
}
