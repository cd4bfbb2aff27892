/** Opening the engine on a directory: readers, logs, active memtable (pkg/lsm/engine.go, `Open`, `recoverWAL`). */
module Opener {
  import opened Entries
  import opened Wal
  import opened Levels
  import opened Storage
  import opened DiskSteps
  import opened Compactor
  import opened SkipLists
  import opened MemTables
  import opened Flusher
  import opened Machine
  import opened MachineRecovery
  import opened Engines
  import opened FlushGuard
  import opened Upsert

  // ----- The steps of one older log, taken together -----

  function FlushesOldest(s: Recovery, blockSize: nat): Recovery
    requires CanReplay(s) && |s.disk.levels| == ROWS
  {
    var t := Replays(s);
    if t.stage.run == [] then RemovesOldest(t) else RemovesOldest(ListsSaved(Saves(t, blockSize)))
  }

  lemma FlushesOldestKeeps(s: Recovery, blockSize: nat)
    requires RecoveryInv(s) && CanReplay(s) && |s.disk.levels| == ROWS
    ensures var t := FlushesOldest(s, blockSize); RecoveryInv(t) && t.stage.Ready? && t.hist == s.hist
  {
    hide RecoveryInv;
    ReplayKeeps(s);
    var t := Replays(s);
    if t.stage.run != [] {
      SaveKeeps(t, blockSize);
      ListSavedKeeps(Saves(t, blockSize));
      RemoveOldestKeeps(ListsSaved(Saves(t, blockSize)));
    } else {
      RemoveOldestKeeps(t);
    }
  }

  /** What they do to the disk. */
  lemma FlushesOldestIs(s: Recovery, blockSize: nat)
    requires CanReplay(s) && |s.disk.levels| == ROWS
    ensures var run, d := PutAll(Replay(s.disk.logs[0].content)), s.disk;
      FlushesOldest(s, blockSize).disk == if run == [] then Disk(d.levels, d.files, d.nextId, d.logs[1..])
        else Disk(Pushed(d.levels, d.nextId), d.files[d.nextId := Table(run, blockSize)], d.nextId + 1, d.logs[1..])
  {
    hide Replay, PutAll, Pushed, Recovered;
    var content := Recovered(s.disk.logs[0].content);
    assert WithContent(s.disk.logs, 0, content)[1..] == s.disk.logs[1..];
  }

  lemma LoadedAfterPush(d: Disk, t: Table, logs: seq<Log>)
    requires |d.levels| == ROWS
    ensures Loaded(Disk(Pushed(d.levels, d.nextId), d.files[d.nextId := t], d.nextId + 1, logs)) ==
      Loaded(d)[d.nextId := t]
  {
    var id, now := d.nextId, Pushed(d.levels, d.nextId);
    forall x
      ensures x in ListedIds(now) <==> x in ListedIds(d.levels) || x == id
    {
      PushedIds(d.levels, id, x);
    }
  }

  lemma PushedIds(levels: LevelLists, id: nat, x: nat)
    requires |levels| == ROWS
    ensures x in ListedIds(Pushed(levels, id)) <==> x in ListedIds(levels) || x == id
  {
    var now := Pushed(levels, id);
    if x in ListedIds(levels) {
      var l, i :| 0 <= l < |levels| && 0 <= i < |levels[l]| && levels[l][i] == x;
      assert now[l][i] == x;
    }
    if x == id {
      assert now[0][|levels[0]|] == x;
    }
    if x in ListedIds(now) && x != id {
      var l, i :| 0 <= l < |now| && 0 <= i < |now[l]| && now[l][i] == x;
      assert levels[l][i] == x;
    }
  }

  // ----- Replaying into a memtable -----

  /** Recovers a log file and puts what it held into a new memtable. */
  method ReplayLog(log: Log, memTableSize: int) returns (file: LogFile, mem: MemTable)
    ensures fresh(file) && file.content == Recovered(log.content)
    ensures fresh(mem) && fresh(mem.Repr) && mem.Valid() && mem.id == log.id && mem.Run() == PutAll(Replay(log.content))
    ensures file !in mem.Repr
  {
    hide Replay, Recovered, ReportOf, MemTable.Valid, Put;
    mem := new MemTable(log.id, memTableSize);
    file := new LogFile(log.content);
    var report, entries := RecoverWithReport(file);
    for i := 0 to |entries|
      invariant mem.Valid() && fresh(mem.Repr) && mem.Run() == PutAll(entries[..i])
      invariant file.content == Recovered(log.content) && file !in mem.Repr
    {
      assert entries[..i + 1][..i] == entries[..i];
      mem.Put(entries[i]);
    }
    assert entries[..|entries|] == entries;
  }

  /** All logs but the last, oldest first: each is replayed, flushed to a table if it held anything, and deleted. */
  method FlushOlderLogs(manifest: Manifest, blockSize: nat, memTableSize: int, files0: Tables, order: seq<Log>,
                        ghost hist: seq<Entry>) returns (files: Tables, readers: Tables)
    requires order != [] && RecoveryInv(Recovery(Disk(manifest.levels, files0, manifest.nextId, order), hist, Ready))
    modifies manifest
    ensures var d := Disk(manifest.levels, files, manifest.nextId, [order[|order| - 1]]);
      RecoveryInv(Recovery(d, hist, Ready)) && readers == Loaded(d)
  {
    hide RecoveryInv, Loaded, Replay, PutAll, Pushed, MemTable.Valid, FlushesOldest;
    files := files0;
    readers := Loaded(Disk(manifest.levels, files, manifest.nextId, order));
    assert order[0..] == order;
    for i := 0 to |order| - 1
      invariant RecoveryInv(Recovery(Disk(manifest.levels, files, manifest.nextId, order[i..]), hist, Ready))
      invariant readers == Loaded(Disk(manifest.levels, files, manifest.nextId, order[i..]))
    {
      assert order[i..][0] == order[i] && order[i..][1..] == order[i + 1..];
      files, readers := FlushOneLog(manifest, blockSize, memTableSize, files, readers, order[i..], hist);
    }
    assert order[|order| - 1..] == [order[|order| - 1]];
  }

  method FlushOneLog(manifest: Manifest, blockSize: nat, memTableSize: int, files0: Tables, readers0: Tables,
                     logs: seq<Log>, ghost hist: seq<Entry>) returns (files: Tables, readers: Tables)
    requires |logs| >= 2 && RecoveryInv(Recovery(Disk(manifest.levels, files0, manifest.nextId, logs), hist, Ready))
    requires readers0 == Loaded(Disk(manifest.levels, files0, manifest.nextId, logs))
    modifies manifest
    ensures var d := Disk(manifest.levels, files, manifest.nextId, logs[1..]);
      RecoveryInv(Recovery(d, hist, Ready)) && readers == Loaded(d)
  {
    hide RecoveryInv, Loaded, Replay, PutAll, Pushed, MemTable.Valid, FlushesOldest;
    ghost var rec := Recovery(Disk(manifest.levels, files0, manifest.nextId, logs), hist, Ready);
    RecoveryRows(rec);
    FlushesOldestKeeps(rec, blockSize);
    FlushesOldestIs(rec, blockSize);
    ghost var run := PutAll(Replay(logs[0].content));
    LoadedAfterPush(rec.disk, Table(run, blockSize), logs[1..]);
    LoadedLogs(rec.disk, logs[1..]);
    var file, mem := ReplayLog(logs[0], memTableSize);
    var written;
    files, readers, written := WriteTable(manifest, mem, blockSize, files0, readers0);
    assert FlushesOldest(rec, blockSize).disk == Disk(manifest.levels, files, manifest.nextId, logs[1..]);
  }

  lemma RecoveryRows(s: Recovery)
    requires RecoveryInv(s)
    ensures |s.disk.levels| == ROWS
  {
    hide Represents, AllGood, ByName, Absorbed, Replay, PutAll, Unlisted, AllListed, DistinctIds, DisjointLevels,
         TablesOk, LogsOk;
  }

  lemma LoadedLogs(d: Disk, logs: seq<Log>)
    ensures Loaded(Disk(d.levels, d.files, d.nextId, logs)) == Loaded(d)
  {
  }

  /**
   Open: on any directory that the engine can have left behind, with its logs listed by name, recovery
   gives an engine whose lookups are the history's last writes.
   */
  method Open(manifest: Manifest, comp: Compactor, blockSize: nat, memTableSize: int, files0: Tables,
              ghost logs: seq<Log>, order: seq<Log>, ghost hist: seq<Entry>) returns (e: Engine)
    requires comp.manifest == manifest && comp.cfg.maxLevels == MAX_LEVELS
    requires Inv(Down(Disk(manifest.levels, files0, manifest.nextId, logs), hist))
    requires CanStart(Disk(manifest.levels, files0, manifest.nextId, logs), order)
    modifies manifest
    ensures fresh(e.Footprint() - {manifest}) && e.Coupled() && Resting(e.live) && Saveable(e.live)
    ensures e.live.hist == hist
    ensures e.live.leaky == {} && !e.closed
  {
    hide LiveInv, RecoveryInv, DownInv, CanStart, Engine.Coupled, Engine.Footprint, MemTable.Valid, Loaded, Replay,
         PutAll, Recovered;
    StartKeeps(Disk(manifest.levels, files0, manifest.nextId, logs), hist, order);
    if |order| == 0 {
      e := OpenEmpty(manifest, comp, blockSize, memTableSize, files0, hist);
      return;
    }
    var files, readers := FlushOlderLogs(manifest, blockSize, memTableSize, files0, order, hist);
    var last := order[|order| - 1];
    ghost var rec := Recovery(Disk(manifest.levels, files, manifest.nextId, [last]), hist, Ready);
    OpenLastKeeps(rec);
    OpenedLast(rec);
    LastSaveable(rec);
    var file, mem := ReplayLog(last, memTableSize);
    var w := new WAL(last.id, file);
    e := new Engine(manifest, comp, blockSize, memTableSize, w, mem, readers, files, OpensLast(rec));
  }

  lemma LastSaveable(s: Recovery)
    requires RecoveryInv(s) && CanOpenLast(s)
    ensures Saveable(OpensLast(s))
  {
    ReplayedRun(s.disk.logs[0].content);
    hide DiskOk, Represents, ByName, Good, Replay, PutAll, Recovered, Entry.Storable;
  }

  lemma OpenedLast(s: Recovery)
    requires CanOpenLast(s)
    ensures var t, log := OpensLast(s), s.disk.logs[0];
      && t.disk == Disk(s.disk.levels, s.disk.files, s.disk.nextId, [Log(log.id, Recovered(log.content))])
      && t.active == Mem(log.id, PutAll(Replay(log.content))) && t.imm == None && t.hist == s.hist
      && t.job.Idle? && t.inflight.None? && t.leaky == {}
      && t.shot == Snapshot(s.disk.levels, Loaded(s.disk))
  {
    hide Replay, PutAll, Recovered;
    var content := Recovered(s.disk.logs[0].content);
    assert WithContent(s.disk.logs, 0, content) == [Log(s.disk.logs[0].id, content)];
    LoadedLogs(s.disk, [Log(s.disk.logs[0].id, content)]);
  }

  /** No log at all: a new one is opened. */
  method OpenEmpty(manifest: Manifest, comp: Compactor, blockSize: nat, memTableSize: int, files: Tables,
                   ghost hist: seq<Entry>) returns (e: Engine)
    requires comp.manifest == manifest && comp.cfg.maxLevels == MAX_LEVELS
    requires RecoveryInv(Recovery(Disk(manifest.levels, files, manifest.nextId, []), hist, Ready))
    modifies manifest
    ensures fresh(e.Footprint() - {manifest}) && e.Coupled() && Resting(e.live) && Saveable(e.live)
    ensures e.live.hist == hist
    ensures e.live.leaky == {} && !e.closed
  {
    hide LiveInv, RecoveryInv, Engine.Coupled, Engine.Footprint, SkipList.Valid, Loaded;
    ghost var rec := Recovery(Disk(manifest.levels, files, manifest.nextId, []), hist, Ready);
    OpenFreshKeeps(rec);
    LoadedNext(rec.disk);
    var readers := Loaded(Disk(manifest.levels, files, manifest.nextId, []));
    var nextWalID := manifest.NextID();
    var mem := new MemTable(nextWalID, memTableSize);
    var file := new LogFile([]);
    var w := new WAL(nextWalID, file);
    assert [] + [Log(nextWalID, [])] == [Log(nextWalID, [])];
    e := new Engine(manifest, comp, blockSize, memTableSize, w, mem, readers, files, OpensFresh(rec));
  }

  lemma LoadedNext(d: Disk)
    ensures Loaded(LogOpened(d)) == Loaded(d)
  {
  }
}
