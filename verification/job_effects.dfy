/**
 What a flush or a compaction has done when it is over, in terms of lists and tables (pkg/lsm/engine.go,
 `flushImmutable`, `Flush`, `Compact`).
 */
module JobEffects {
  import opened Bytes
  import opened Entries
  import opened Upsert
  import opened Levels
  import opened Compaction
  import opened Compactor
  import opened Storage
  import opened Machine
  import opened MachineCompaction
  import opened MachineSteps
  import opened Safety
  import opened FlushGuard

  /**
   The immutable memtable is gone, and if it held anything, the next identifier names a table of it, listed last
   in level 0 and open for readers. A full active memtable has become the immutable one. Its own log is the only
   one that is deleted.
   */
  lemma FlushImmEffect(s: Live, full: bool, blockSize: nat)
    requires s.job.Idle? && s.inflight.None? && |s.disk.levels| == ROWS && s.imm.Some?
    ensures var t := FlushesImm(s, full, blockSize);
      && t.hist == s.hist && t.imm == (if full then Some(s.active) else None)
      && (if full then t.active.run == [] else t.active == s.active)
    ensures s.imm.value.run == [] ==>
      var t := FlushesImm(s, full, blockSize);
      t.disk.levels == s.disk.levels && t.disk.files == s.disk.files && t.shot == s.shot
    ensures s.imm.value.run != [] ==>
      var t, id, table := FlushesImm(s, full, blockSize), s.disk.nextId, Table(s.imm.value.run, blockSize);
      && t.disk.levels == t.shot.levels == s.disk.levels[0 := s.disk.levels[0] + [id]]
      && t.disk.files == s.disk.files[id := table] && t.shot.readers == s.shot.readers[id := table]
    ensures var t := FlushesImm(s, full, blockSize);
      && (forall log :: log in t.disk.logs ==> log.id != s.imm.value.id)
      && forall log :: log in s.disk.logs && log.id != s.imm.value.id ==> log in t.disk.logs
  {
    var u := Drops(SavesImm(s, blockSize));
    var v := if full then RotatesAnyway(u) else u;
    BesidesMembers(v.disk.logs, {s.imm.value.id});
  }

  /** Whatever it finds, Flush leaves both memtables empty, and no write is added or forgotten. */
  lemma FlushEmpties(s: Live, full: bool, blockSize: nat)
    requires s.job.Idle? && s.inflight.None? && |s.disk.levels| == ROWS
    ensures var t := Flushes(s, full, blockSize); t.active.run == [] && t.imm.None? && t.hist == s.hist
  {
    hide SavesImm, Besides;
    if !(s.active.run == [] && s.imm.None?) {
      ImmGone(s, full, blockSize);
      ImmGone(RotatesAnyway(FlushesImm(s, full, blockSize)), false, blockSize);
    }
  }

  lemma ImmGone(s: Live, full: bool, blockSize: nat)
    requires s.job.Idle? && s.inflight.None? && |s.disk.levels| == ROWS
    ensures var t := FlushesImm(s, full, blockSize);
      && t.job.Idle? && t.inflight.None? && |t.disk.levels| == ROWS && t.hist == s.hist
      && (!full || s.imm.None? ==> t.imm.None? && t.active == s.active)
  {
    if s.imm.Some? {
      FlushImmEffect(s, full, blockSize);
    }
  }

  /** But for the failing case, the tables alone then answer every lookup. */
  lemma FlushedToTables(s: Live, full: bool, blockSize: nat)
    requires Resting(s) && Saveable(s) && |s.disk.levels| == ROWS && !(s.imm.Some? && full)
    ensures var t := Flushes(s, full, blockSize);
      && ShotOk(t) && forall key: Key :: Visible(ShotFind(t, key)) == Visible(LastOf(s.hist, key))
  {
    hide LiveInv, Flushes, LastOf, LevelsOk, FilesBounded;
    FlushEmpties(s, full, blockSize);
    GuardedFlushKeeps(s, full, blockSize);
    var t := Flushes(s, full, blockSize);
    RowsThere(t);
    forall key: Key
      ensures Visible(ShotFind(t, key)) == Visible(LastOf(s.hist, key))
    {
      LookupIsLastWrite(t, key);
      assert MemFind(t, key).None?;
    }
  }

  /**
   A compaction leaves memtables, logs and history alone. Each level lists what it listed but the inputs, the
   target level the new tables as well; readers and files lose the inputs and gain the new tables.
   */
  lemma CompactEffect(s: Live, done: Compacted, ids: nat, l: nat, id: nat)
    requires l < |s.disk.levels|
    ensures var t, gone := CompactsFully(s, done, ids), done.task.inputFrom + done.task.inputTo;
      && t.active == s.active && t.imm == s.imm && t.hist == s.hist && t.disk.logs == s.disk.logs && t.job.Idle?
      && t.shot.levels == t.disk.levels && |t.disk.levels| == |s.disk.levels|
      && (id in t.disk.levels[l] <==>
        (id in s.disk.levels[l] && id !in gone) || (l == done.task.to && id in done.added))
      && (id in done.newTables ==> id in t.shot.readers && t.shot.readers[id] == done.newTables[id])
      && (id !in done.newTables ==>
            && (id in t.shot.readers <==> id in s.shot.readers && id !in gone)
            && (id in t.shot.readers ==> t.shot.readers[id] == s.shot.readers[id]))
      && (id in t.disk.files <==> (id in s.disk.files || id in done.newTables) && id !in gone)
      && (id in t.disk.files ==>
            t.disk.files[id] == if id in done.newTables then done.newTables[id] else s.disk.files[id])
  {
    hide Edited;
    EditedLists(s.disk.levels, Members(done.task.Inputs()), done.added, done.task.to, l, id);
  }
}
