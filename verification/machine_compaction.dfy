/** The compaction steps keep the invariant: no lookup, in memory or after a crash, changes its answer. */
module MachineCompaction {
  import opened Bytes
  import opened Entries
  import opened Runs
  import opened Levels
  import opened Storage
  import opened Picker
  import opened Compaction
  import opened Compactor
  import opened Machine
  import opened MachineSteps
  import CompactionEnds
  import CompactionView
  import Cuts
  import TableFormat

  // ----- What CompactedBy says -----

  lemma CompactedOutcome(levels: LevelLists, readers: Tables, newestFirst: bool, done: Compacted, levels': LevelLists,
                         target: nat)
    requires LevelsOk(levels, readers) && CompactedBy(levels, readers, newestFirst, done, levels', target)
    requires CompactionView.Harmless(levels, readers, done.task)
    ensures LevelsOk(levels', TablesAfter(readers, done))
    ensures forall key: Key ::
      Visible(DiskFind(levels', TablesAfter(readers, done), key)) == Visible(DiskFind(levels, readers, key))
  {
    hide AllListed, DistinctIds, DisjointLevels, TableFormat.TableRun, Outcome, TaskFor, DiskFind, Cuts.Pieces,
         MergedRun, CompactionView.Harmless;
    CompactionView.CompactionKeepsViewExactly(
      levels, readers, done.task, done.added, Cuts.Pieces(MergedRun(done.task, readers), target), levels',
      TablesAfter(readers, done));
    forall key: Key
      ensures Visible(DiskFind(levels', TablesAfter(readers, done), key)) == Visible(DiskFind(levels, readers, key))
    {
      assert CompactionView.DiskView(levels', TablesAfter(readers, done), key) ==
        CompactionView.DiskView(levels, readers, key);
    }
  }

  lemma CompactedIds(levels: LevelLists, readers: Tables, newestFirst: bool, done: Compacted, levels': LevelLists,
                     target: nat)
    requires LevelsOk(levels, readers) && CompactedBy(levels, readers, newestFirst, done, levels', target)
    ensures FreshIds(done.added, readers)
    ensures forall id :: id in done.added ==> id in done.newTables
    ensures levels' == Edited(levels, Members(done.task.Inputs()), done.added, done.task.to)
    ensures forall id :: id in done.task.Inputs() ==> id in readers
  {
    hide LevelsOk, TaskFor, Cuts.Pieces, Sensible, MergedRun, Cuts.Flatten;
    var now := TablesAfter(readers, done);
    forall id | id in done.added
      ensures id in done.newTables
    {
      assert id in Members(done.added) && id in now.Keys;
      var i :| 0 <= i < |done.added| && done.added[i] == id;
    }
    InputsPlaced(levels, readers, done.task);
  }

  // ----- The edit -----

  /** What the lists hold after the edit is the same among the readers and among the files. */
  lemma EditedSame(levels: LevelLists, readers: Tables, files: Tables, nextId: nat, done: Compacted)
    requires SameListed(levels, readers, files) && FilesBounded(readers, nextId) && FilesBounded(files, nextId)
    requires forall id :: id in done.newTables ==> nextId <= id
    requires FreshIds(done.added, readers) && forall id :: id in done.added ==> id in done.newTables
    requires forall id :: id in done.task.Inputs() ==> id in readers
    ensures var levels' := Edited(levels, Members(done.task.Inputs()), done.added, done.task.to);
      && SameListed(levels', TablesAfter(readers, done), files + done.newTables)
      && AllUnlisted(levels', Members(done.task.Inputs()))
  {
    var gone := Members(done.task.Inputs());
    var levels' := Edited(levels, gone, done.added, done.task.to);
    var a, b := TablesAfter(readers, done), files + done.newTables;
    hide Task.Inputs, Edited, SameListed, FilesBounded, FreshIds, AllUnlisted, Members;
    forall l, id | 0 <= l < |levels'| && id in levels'[l]
      ensures id in a && id in b && a[id] == b[id] && id !in gone
    {
      EditedLists(levels, gone, done.added, done.task.to, l, id);
      ComesFrom(levels, readers, files, nextId, done, l, id);
    }
    ListedSame(levels', a, b);
    NoneListed(levels', gone);
  }

  lemma NoneListed(levels: LevelLists, gone: set<nat>)
    requires forall l, id :: 0 <= l < |levels| && id in levels[l] ==> id !in gone
    ensures AllUnlisted(levels, gone)
  {
  }

  lemma ComesFrom(levels: LevelLists, readers: Tables, files: Tables, nextId: nat, done: Compacted, l: nat, id: nat)
    requires SameListed(levels, readers, files) && FilesBounded(readers, nextId) && FilesBounded(files, nextId)
    requires forall id :: id in done.newTables ==> nextId <= id
    requires FreshIds(done.added, readers) && forall id :: id in done.added ==> id in done.newTables
    requires forall id :: id in done.task.Inputs() ==> id in readers
    requires l < |levels| && ((id in levels[l] && id !in Members(done.task.Inputs())) || id in done.added)
    ensures var a, b := TablesAfter(readers, done), files + done.newTables;
      id in a && id in b && a[id] == b[id] && id !in Members(done.task.Inputs())
  {
    hide Task.Inputs;
    assert SameTables(levels[l], readers, files);
    if id in done.added {
      var i :| 0 <= i < |done.added| && done.added[i] == id;
    } else {
      var i :| 0 <= i < |levels[l]| && levels[l][i] == id;
    }
  }

  lemma CompactedFiles(s: Live, done: Compacted, newestFirst: bool, target: nat, ids: nat)
    requires DiskOk(s.disk) && ShotOk(s) && Current(s) && CanCompact(s, done, newestFirst, target, ids)
    ensures var t := Compacts(s, done, ids); var readers := TablesAfter(s.shot.readers, done);
      && SameListed(t.disk.levels, readers, t.disk.files)
      && AllUnlisted(t.disk.levels, Members(done.task.Inputs()))
  {
    CompactedIds(s.disk.levels, s.shot.readers, newestFirst, done, CompactedLevels(s, done), target);
    hide LevelsOk, LogsOk, CompactedBy, Edited, Task.Inputs, SameListed, FilesBounded, FreshIds, AllUnlisted;
    EditedSame(s.disk.levels, s.shot.readers, s.disk.files, s.disk.nextId, done);
  }

  lemma ListedSame(levels: LevelLists, a: Tables, b: Tables)
    requires forall l, id :: 0 <= l < |levels| && id in levels[l] ==> id in a && id in b && a[id] == b[id]
    ensures SameListed(levels, a, b)
  {
  }

  lemma CompactedTablesOk(s: Live, done: Compacted, ids: nat)
    requires TablesOk(s.disk.files) && TablesOk(TablesAfter(s.shot.readers, done))
    ensures TablesOk(Compacts(s, done, ids).disk.files)
  {
    hide Edited, Table.Ok;
    var now := TablesAfter(s.shot.readers, done);
    assert forall id :: id in done.newTables ==> now[id] == done.newTables[id];
  }

  lemma CompactedDisk(s: Live, done: Compacted, newestFirst: bool, target: nat, ids: nat)
    requires DiskOk(s.disk) && ShotOk(s) && Current(s) && CanCompact(s, done, newestFirst, target, ids)
    ensures var t := Compacts(s, done, ids); var readers := TablesAfter(s.shot.readers, done);
      && LevelsOk(t.disk.levels, readers) && LevelsOk(t.disk.levels, t.disk.files)
      && SameListed(t.disk.levels, readers, t.disk.files)
      && AllUnlisted(t.disk.levels, Members(done.task.Inputs()))
  {
    var t, readers := Compacts(s, done, ids), TablesAfter(s.shot.readers, done);
    CompactedOutcome(s.disk.levels, s.shot.readers, newestFirst, done, t.disk.levels, target);
    CompactedFiles(s, done, newestFirst, target, ids);
    CompactedTablesOk(s, done, ids);
    hide AllListed, DistinctIds, DisjointLevels, TablesOk, SameListed, AllUnlisted, CompactedBy, LogsOk, FilesBounded,
         Current;
    LevelsOkFrame(t.disk.levels, readers, t.disk.files);
  }

  lemma CompactedSameView(s: Live, done: Compacted, newestFirst: bool, target: nat, ids: nat, key: Key)
    requires DiskOk(s.disk) && ShotOk(s) && Current(s) && CanCompact(s, done, newestFirst, target, ids)
    requires var t := Compacts(s, done, ids); var readers := TablesAfter(s.shot.readers, done);
      && LevelsOk(t.disk.levels, readers) && LevelsOk(t.disk.levels, t.disk.files)
      && SameListed(t.disk.levels, readers, t.disk.files)
    ensures var t := Compacts(s, done, ids);
      && Visible(DiskFind(t.disk.levels, t.disk.files, key)) == Visible(DiskFind(s.disk.levels, s.disk.files, key))
      && DiskFind(s.disk.levels, s.disk.files, key) == ShotFind(s, key)
  {
    var t, readers := Compacts(s, done, ids), TablesAfter(s.shot.readers, done);
    CompactedOutcome(s.disk.levels, s.shot.readers, newestFirst, done, t.disk.levels, target);
    hide LevelsOk, SameListed, DiskFind, CompactedBy, LogsOk, FilesBounded;
    DiskFindFrame(t.disk.levels, readers, t.disk.files, key);
    DiskFindFrame(s.disk.levels, s.shot.readers, s.disk.files, key);
  }

  lemma LogsOkLater(logs: seq<Log>, a: nat, b: nat)
    requires LogsOk(logs, a) && a <= b
    ensures LogsOk(logs, b)
  {
    hide LogsAscend;
  }

  lemma CompactKeeps(s: Live, done: Compacted, newestFirst: bool, target: nat, ids: nat)
    requires LiveInv(s) && CanCompact(s, done, newestFirst, target, ids)
    ensures LiveInv(Compacts(s, done, ids))
  {
    hide Refines, MemsOk, LogsHold, JobOk, ShotOk, Current, CanCompact, DiskOk, Edited;
    CompactStarts(s, done, newestFirst, target, ids);
    CompactDisk(s, done, newestFirst, target, ids);
    SameReads(s, Compacts(s, done, ids));
    FlushStepKeeps(s, Compacts(s, done, ids));
  }

  lemma CompactStarts(s: Live, done: Compacted, newestFirst: bool, target: nat, ids: nat)
    requires DiskOk(s.disk) && LogsHold(s) && ShotOk(s) && JobOk(s) && CanCompact(s, done, newestFirst, target, ids)
    ensures Current(s) && SameMems(s, Compacts(s, done, ids))
  {
    hide DiskOk, LogsHold, ShotOk, LevelsOk, CompactedBy, Edited, SameListed;
  }

  lemma CompactDisk(s: Live, done: Compacted, newestFirst: bool, target: nat, ids: nat)
    requires DiskOk(s.disk) && ShotOk(s) && Current(s) && CanCompact(s, done, newestFirst, target, ids)
    ensures var t := Compacts(s, done, ids); DiskOk(t.disk) && ShotOk(t) && (LogsHold(t) ==> JobOk(t))
  {
    hide LogsHold, Current, CanCompact, Edited, DiskFind, LevelsOk, SameListed, AllUnlisted;
    CompactedDisk(s, done, newestFirst, target, ids);
    CompactBounds(s, done, newestFirst, target, ids);
    LogsOkLater(s.disk.logs, s.disk.nextId, s.disk.nextId + ids);
    hide LogsOk, FilesBounded, TablesAfter;
    CompactedMap(s, done, newestFirst, target, ids);
  }

  lemma CompactedMap(s: Live, done: Compacted, newestFirst: bool, target: nat, ids: nat)
    requires DiskOk(s.disk) && ShotOk(s) && Current(s) && CanCompact(s, done, newestFirst, target, ids)
    requires var t := Compacts(s, done, ids); var readers := TablesAfter(s.shot.readers, done);
      && LevelsOk(t.disk.levels, readers) && LevelsOk(t.disk.levels, t.disk.files)
      && SameListed(t.disk.levels, readers, t.disk.files)
    ensures var t := Compacts(s, done, ids);
      forall key: Key :: Visible(DiskFind(t.disk.levels, t.disk.files, key)) == Visible(ShotFind(s, key))
  {
    var t := Compacts(s, done, ids);
    hide AllListed, DistinctIds, DisjointLevels, TableFormat.TableRun, LogsOk, SameListed, FilesBounded, CompactedBy,
         DiskFind, Current, Edited, TablesAfter, CanCompact;
    forall key: Key
      ensures Visible(DiskFind(t.disk.levels, t.disk.files, key)) == Visible(ShotFind(s, key))
    {
      CompactedSameView(s, done, newestFirst, target, ids, key);
    }
  }

  lemma CompactBounds(s: Live, done: Compacted, newestFirst: bool, target: nat, ids: nat)
    requires DiskOk(s.disk) && ShotOk(s) && CanCompact(s, done, newestFirst, target, ids)
    ensures FilesBounded(Compacts(s, done, ids).disk.files, s.disk.nextId + ids)
    ensures FilesBounded(TablesAfter(s.shot.readers, done), s.disk.nextId + ids)
    ensures FilesBounded(s.shot.readers, s.disk.nextId + ids)
  {
    hide LevelsOk, LogsOk, CompactedBy, Edited;
  }

  // ----- Installing the outputs, unlinking the inputs -----

  lemma ShowCompactedKeeps(s: Live)
    requires LiveInv(s) && CanShowCompacted(s)
    ensures LiveInv(ShowsCompacted(s))
  {
    hide DiskOk, Refines, MemsOk, LogsHold, JobOk, ShotOk, TablesAfter;
    LiveParts(s);
    ShowCompactedJob(s);
    ShowCompactedView(s);
    FlushStepKeeps(s, ShowsCompacted(s));
  }

  lemma ShowCompactedJob(s: Live)
    requires DiskOk(s.disk) && LogsHold(s) && ShotOk(s) && JobOk(s) && CanShowCompacted(s)
    ensures ShotOk(ShowsCompacted(s)) && Current(ShowsCompacted(s))
    ensures LogsHold(ShowsCompacted(s)) ==> JobOk(ShowsCompacted(s))
  {
    hide DiskOk, LogsHold, LevelsOk, SameListed, AllUnlisted, FilesBounded, TablesAfter, DiskFind;
  }

  lemma ShowCompactedFind(s: Live, key: Key)
    requires DiskOk(s.disk) && LogsHold(s) && ShotOk(s) && JobOk(s) && CanShowCompacted(s)
    requires ShotOk(ShowsCompacted(s)) && Current(ShowsCompacted(s))
    ensures Visible(ShotFind(ShowsCompacted(s), key)) == Visible(ShotFind(s, key))
  {
    hide DiskOk, LogsHold, ShotOk, JobOk, Current, DiskFind, TablesAfter;
    CompactingView(s, key);
    CurrentFind(ShowsCompacted(s), key);
  }

  lemma ShowCompactedView(s: Live)
    requires DiskOk(s.disk) && LogsHold(s) && ShotOk(s) && JobOk(s) && CanShowCompacted(s) && Refines(s)
    requires ShotOk(ShowsCompacted(s)) && Current(ShowsCompacted(s))
    ensures Refines(ShowsCompacted(s))
  {
    hide DiskOk, LevelsOk, FilesBounded, LogsHold, JobOk, Current, DiskFind, Find, Refines, TablesAfter;
    forall key: Key
      ensures Visible(Lookup(ShowsCompacted(s), key)) == Visible(Lookup(s, key))
    {
      ShowCompactedFind(s, key);
    }
    SameRefines(s, ShowsCompacted(s));
  }

  lemma UnlinkKeeps(s: Live, id: nat)
    requires LiveInv(s) && CanUnlink(s, id)
    ensures LiveInv(Unlinks(s, id))
  {
    hide Refines, MemsOk, LogsHold, JobOk, ShotOk, Current, DiskOk;
    UnlinkingIs(s);
    UnlinkDisk(s, id);
    SameReads(s, Unlinks(s, id));
    FlushStepKeeps(s, Unlinks(s, id));
  }

  lemma UnlinkingIs(s: Live)
    requires DiskOk(s.disk) && LogsHold(s) && ShotOk(s) && JobOk(s) && s.job.Unlinking?
    ensures Current(s) && AllUnlisted(s.disk.levels, s.job.gone)
  {
    hide DiskOk, LogsHold, ShotOk, SameListed, AllUnlisted;
  }

  lemma UnlinkDisk(s: Live, id: nat)
    requires DiskOk(s.disk) && ShotOk(s) && Current(s) && CanUnlink(s, id)
    requires AllUnlisted(s.disk.levels, s.job.gone)
    ensures var t := Unlinks(s, id); DiskOk(t.disk) && ShotOk(t) && (LogsHold(t) ==> JobOk(t))
  {
    var t := Unlinks(s, id);
    UnlinkedSame(s.disk.levels, s.disk.files, id);
    SameTablesTwice(s.disk.levels, s.shot.readers, s.disk.files, t.disk.files);
    assert TablesOk(t.disk.files);
    assert AllUnlisted(s.disk.levels, s.job.gone - {id});
    hide AllListed, DistinctIds, DisjointLevels, TablesOk, LogsOk, SameListed, AllUnlisted, LogsHold;
    LevelsOkFrame(s.disk.levels, s.disk.files, t.disk.files);
  }

  lemma UnlinkedSame(levels: LevelLists, files: Tables, id: nat)
    requires AllListed(levels, files) && Unlisted(levels, id)
    ensures SameListed(levels, files, files - {id})
  {
    forall l | 0 <= l < |levels|
      ensures SameTables(levels[l], files, files - {id})
    {
      assert id !in levels[l];
    }
  }

  // ----- A whole compaction, undisturbed -----

  /** The engine once the input files of a compaction are gone. */
  function Unlinked(s: Live, gone: set<nat>): Live {
    s.(disk := s.disk.(files := s.disk.files - gone), job := Idle)
  }

  function CompactsFully(s: Live, done: Compacted, ids: nat): Live {
    Unlinked(ShowsCompacted(Compacts(s, done, ids)), Members(done.task.Inputs()))
  }

  lemma {:induction false} UnlinkAll(s: Live, gone: set<nat>)
    requires LiveInv(s) && s.job == LeftToUnlink(gone)
    ensures LiveInv(Unlinked(s, gone))
    decreases |gone|
  {
    hide LiveInv;
    if gone == {} {
      assert s.disk.files - {} == s.disk.files;
    } else {
      var id :| id in gone;
      UnlinkKeeps(s, id);
      assert s.disk.files - {id} - (gone - {id}) == s.disk.files - gone;
      UnlinkAll(Unlinks(s, id), gone - {id});
    }
  }

  lemma CompactsFullyKeeps(s: Live, done: Compacted, newestFirst: bool, target: nat, ids: nat)
    requires LiveInv(s) && CanCompact(s, done, newestFirst, target, ids)
    ensures var t := CompactsFully(s, done, ids); LiveInv(t) && t.hist == s.hist && t.job.Idle?
  {
    hide LiveInv, CanCompact, Compacts;
    CompactKeeps(s, done, newestFirst, target, ids);
    CompactsIs(s, done, ids);
    ShowCompactedKeeps(Compacts(s, done, ids));
    UnlinkAll(ShowsCompacted(Compacts(s, done, ids)), Members(done.task.Inputs()));
  }

  lemma CompactsIs(s: Live, done: Compacted, ids: nat)
    ensures Compacts(s, done, ids).job == Compacting(done) && Compacts(s, done, ids).hist == s.hist
  {
    hide Edited;
  }

  // ----- One after the other, harmless or not -----

  /** What a compaction starts from. */
  ghost predicate Compactable(s: Live) {
    && s.job.Idle? && s.shot.levels == s.disk.levels
    && LevelsOk(s.disk.levels, s.shot.readers) && FilesBounded(s.shot.readers, s.disk.nextId)
  }

  lemma IdleIsCompactable(s: Live)
    requires LiveInv(s) && s.job.Idle?
    ensures Compactable(s)
  {
    hide DiskOk, Refines, MemsOk, LogsHold, LevelsOk, SameListed;
  }

  /** A compaction of any kind leaves what the next one starts from. */
  lemma CompactsFullyReady(s: Live, done: Compacted, newestFirst: bool, target: nat, ids: nat)
    requires Compactable(s)
    requires CompactedBy(s.disk.levels, s.shot.readers, newestFirst, done, CompactedLevels(s, done), target)
    requires forall id :: id in done.newTables ==> s.disk.nextId <= id < s.disk.nextId + ids
    ensures Compactable(CompactsFully(s, done, ids))
  {
    CompactedStaysOk(s.disk.levels, s.shot.readers, newestFirst, done, CompactedLevels(s, done), target);
    hide LevelsOk, CompactedBy, Edited;
  }

  lemma CompactedStaysOk(levels: LevelLists, readers: Tables, newestFirst: bool, done: Compacted, levels': LevelLists,
                         target: nat)
    requires LevelsOk(levels, readers) && CompactedBy(levels, readers, newestFirst, done, levels', target)
    ensures LevelsOk(levels', TablesAfter(readers, done))
  {
    hide AllListed, DistinctIds, DisjointLevels, TableFormat.TableRun, Outcome, TaskFor, Cuts.Pieces, MergedRun,
         CompactionView.Harmless;
    CompactionView.CompactionKeepsViewExactly(
      levels, readers, done.task, done.added, Cuts.Pieces(MergedRun(done.task, readers), target), levels',
      TablesAfter(readers, done));
  }

  /** With a trigger of at least 1 a picked compaction takes entries off the weight. */
  lemma CompactedLowersWeight(levels: LevelLists, readers: Tables, newestFirst: bool, done: Compacted,
                              levels': LevelLists, target: nat, cfg: LevelConfig)
    requires LevelsOk(levels, readers) && CompactedBy(levels, readers, newestFirst, done, levels', target)
    requires cfg.l0Trigger >= 1 && (done.task.from == 0 ==> |levels[0]| >= cfg.l0Trigger)
    ensures |levels'| == ROWS
    ensures CompactionEnds.Weight(levels', 0, TablesAfter(readers, done)) < CompactionEnds.Weight(levels, 0, readers)
  {
    hide AllListed, DistinctIds, DisjointLevels, TablesOk, TaskFor, Cuts.Pieces, MergedRun, Overlapping, IsBottom,
         Replaced, FreshIds, CompactionEnds.Weight;
    var outs := Cuts.Pieces(MergedRun(done.task, readers), target);
    CompactionEnds.SensibleTakesTable(CompactionEnds.Round(levels, readers, done.task, done.added, outs), cfg);
    CompactionEnds.TaskLowersWeight(levels, readers, done.task, done.added, outs, levels', TablesAfter(readers, done));
  }
}
