/**
 Nothing gets stuck: which steps the goroutines of a running engine can always take, whatever the others are in
 the middle of, and that every flush and every compaction can be brought to its end (pkg/lsm/engine.go).
 */
module Progress {
  import opened Entries
  import opened Levels
  import opened Storage
  import opened TableFormat
  import opened Compaction
  import opened CompactionView
  import opened Compactor
  import opened Machine
  import opened MachineSteps
  import opened Safety

  /** Writers: a write may begin unless one is in flight, and end, at any stage of any job. */
  lemma WritersGoOn(s: Live, e: Entry)
    requires LiveInv(s)
    ensures Enabled(Up(s), BeginWrite(e)) <==> s.inflight.None? && e.key != []
    ensures Enabled(Up(s), EndWrite) <==> s.inflight.Some?
    ensures Enabled(Up(s), Rotate) <==> s.inflight.None? && s.imm.None?
  {
    hide DiskOk, ShotOk, Refines, MemsOk, JobOk, LogsAre;
  }

  /** The flush worker: it starts when a memtable waits, and only taking that off again needs the writers' lock. */
  lemma FlushGoesOn(s: Live, blockSize: nat)
    requires LiveInv(s)
    ensures Enabled(Up(s), TakeImm) <==> s.job.Idle? && s.imm.Some?
    ensures s.job.Taken? && s.job.mem.run == [] ==> Enabled(Up(s), SkipEmpty)
    ensures s.job.Taken? && s.job.mem.run != [] && AllStorable(s.job.mem.run) ==> Enabled(Up(s), BuildTable(blockSize))
    ensures s.job.Built? ==> Enabled(Up(s), ListTable)
    ensures s.job.Listed? ==> Enabled(Up(s), ShowTable)
    ensures Enabled(Up(s), DropImm) <==> s.job.Shown? && s.inflight.None?
    ensures s.job.Dropped? ==> Enabled(Up(s), RemoveLog)
  {
    hide ShotOk, Refines, MemsOk, LogsHold, JobOk, AllStorable, TakenOk;
    RowsThere(s);
    if s.job.Listed? {
      ListedThere(s);
    }
  }

  lemma ListedThere(s: Live)
    requires LiveInv(s) && s.job.Listed?
    ensures s.job.table in s.disk.files
  {
    hide DiskOk, ShotOk, Refines, MemsOk, LogsHold, TakenOk;
  }

  /** Between jobs, the outcome of a harmless task, under fresh identifiers. */
  ghost predicate Committable(s: Live, done: Compacted, newestFirst: bool, target: nat, ids: nat) {
    && s.job.Idle? && LevelsOk(s.disk.levels, s.shot.readers)
    && CompactedBy(s.disk.levels, s.shot.readers, newestFirst, done, CompactedLevels(s, done), target)
    && Harmless(s.disk.levels, s.shot.readers, done.task)
    && forall id :: id in done.newTables ==> s.disk.nextId <= id < s.disk.nextId + ids
  }

  /** The compaction worker: a harmless outcome may be committed between jobs, and what follows it at any time. */
  lemma CompactionGoesOn(s: Live, done: Compacted, newestFirst: bool, target: nat, ids: nat, id: nat)
    requires LiveInv(s)
    ensures Committable(s, done, newestFirst, target, ids) ==>
      Enabled(Up(s), Event.Compact(done, newestFirst, target, ids))
    ensures s.job.Compacting? ==> Enabled(Up(s), ShowCompacted)
    ensures s.job.Unlinking? && id in s.job.gone ==> Enabled(Up(s), Unlink(id))
    ensures Enabled(Up(s), BurnId)
  {
    hide LiveInv, CompactedBy, Harmless, LevelsOk;
  }

  // ----- To the end of a job -----

  /** The step by which the job at hand goes on. */
  ghost function NextOfJob(s: Live, blockSize: nat): Event
    requires !s.job.Idle? && (s.job.Unlinking? ==> s.job.gone != {})
  {
    match s.job
    case Taken(mem) => if mem.run == [] then SkipEmpty else BuildTable(blockSize)
    case Built(_, _) => ListTable
    case Listed(_, _) => ShowTable
    case Shown(_) => DropImm
    case Dropped(_) => RemoveLog
    case Compacting(_) => ShowCompacted
    case Unlinking(gone) => var id :| id in gone; Unlink(id)
  }

  function JobLeft(job: Job): nat {
    match job
    case Idle => 0
    case Taken(_) => 5
    case Built(_, _) => 4
    case Listed(_, _) => 3
    case Shown(_) => 2
    case Dropped(_) => 1
    case Compacting(done) => |Members(done.task.Inputs())| + 1
    case Unlinking(gone) => |gone|
  }

  lemma JobStep(s: Live, blockSize: nat)
    requires LiveInv(s) && s.inflight.None? && !s.job.Idle? && (s.job.Unlinking? ==> s.job.gone != {})
    requires s.job.Taken? ==> AllStorable(s.job.mem.run)
    ensures var ev := NextOfJob(s, blockSize);
      && Enabled(Up(s), ev) && Next(Up(s), ev).Up?
      && var t := Next(Up(s), ev).live;
         && JobLeft(t.job) < JobLeft(s.job) && t.inflight.None? && t.hist == s.hist
         && !t.job.Taken? && (t.job.Unlinking? ==> t.job.gone != {})
  {
    hide LiveInv, AllStorable;
    FlushGoesOn(s, blockSize);
  }

  /** With no write in flight any job can be finished, whatever stage it is in, and no lookup notices. */
  lemma {:induction false} JobFinishes(s: Live, blockSize: nat) returns (evs: seq<Event>)
    requires LiveInv(s) && s.inflight.None? && (s.job.Unlinking? ==> s.job.gone != {})
    requires s.job.Taken? ==> AllStorable(s.job.mem.run)
    ensures AllEnabled(Up(s), evs) && Execute(Up(s), evs).Up?
    ensures var t := Execute(Up(s), evs).live; LiveInv(t) && t.job.Idle? && t.hist == s.hist
    decreases JobLeft(s.job)
  {
    hide LiveInv, Enabled, Next, AllStorable, NextOfJob;
    if s.job.Idle? {
      evs := [];
    } else {
      JobStep(s, blockSize);
      var ev := NextOfJob(s, blockSize);
      StepKeeps(Up(s), ev);
      UpKeeps(Next(Up(s), ev).live);
      var rest := JobFinishes(Next(Up(s), ev).live, blockSize);
      evs := [ev] + rest;
      assert evs[1..] == rest;
    }
  }
}
