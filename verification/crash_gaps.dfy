/**
 What a crash can cost that the crash theorems leave out: when a log is an orphan, when the names of the logs
 are out of order, when a log is leaky (pkg/lsm/engine.go, `recoverWAL`; pkg/wal/wal.go, `ListWALFiles`).
 */
module CrashGaps {
  import opened Bytes
  import opened Entries
  import opened Runs
  import opened Upsert
  import opened Wal
  import opened Levels
  import opened Storage
  import opened DiskSteps
  import opened Machine
  import opened MachineSteps
  import opened MachineRecovery
  import opened Safety
  import opened Trust
  import opened Linearizability
  import opened FlushGuard
  import Hashing
  import LogNames

  // ----- An older log replayed last -----

  /** Nothing in the immutable memtable has been overwritten by something that shows another value. */
  ghost predicate StillShown(s: Live)
    requires ShotOk(s)
  {
    forall e :: e in ImmRun(s.imm) ==> Visible(Some(e)) == Visible(Lookup(s, e.key))
  }

  /** On this disk the entries of the immutable memtable lie over everything else. */
  ghost predicate ImmOnTop(s: Live, disk: Disk)
    requires ShotOk(s) && LevelsOk(disk.levels, disk.files)
  {
    forall key: Key :: DurableFind(disk, key) ==
      Or(Find(ImmRun(s.imm), key), Or(Find(s.active.run, key), ShotFind(s, key)))
  }

  lemma ImmOnTopExactly(s: Live, disk: Disk)
    requires LiveInv(s) && ShotOk(s) && LevelsOk(disk.levels, disk.files) && ImmOnTop(s, disk)
    ensures Represents(disk, s.hist) <==> StillShown(s)
  {
    hide DiskOk, LogsHold, JobOk, LevelsOk, FilesBounded, ShotFind, DurableFind, LastOf;
    LiveParts(s);
    if Represents(disk, s.hist) {
      forall e | e in ImmRun(s.imm)
        ensures Visible(Some(e)) == Visible(Lookup(s, e.key))
      {
        FindMember(ImmRun(s.imm), e);
        assert Visible(DurableFind(disk, e.key)) == Visible(LastOf(s.hist, e.key)) == Visible(Lookup(s, e.key));
      }
    }
    if StillShown(s) {
      forall key: Key
        ensures Visible(DurableFind(disk, key)) == Visible(LastOf(s.hist, key))
      {
        assert Visible(Lookup(s, key)) == Visible(LastOf(s.hist, key));
        var found := Find(ImmRun(s.imm), key);
        assert found.Some? ==> found.value in ImmRun(s.imm) && found.value.key == key;
      }
    }
  }

  /** Between jobs the disk's tables are what lookups read, and the logs hold the memtables. */
  lemma RestingParts(s: Live)
    requires Resting(s) && Trusted(s) && s.imm.Some?
    ensures DiskOk(s.disk) && ShotOk(s) && LogsHold(s) && |s.disk.levels| == ROWS && |s.disk.logs| == 2
    ensures s.disk.logs[0].id == s.imm.value.id && s.disk.logs[1].id == s.active.id
    ensures HandedOut(s.leaky, s.disk.nextId) && HandedOut(s.orphans, s.disk.nextId)
    ensures forall key: Key :: LastOf(Replay(s.disk.logs[0].content), key) == Find(s.imm.value.run, key)
    ensures forall key: Key :: LastOf(Replay(s.disk.logs[1].content), key) == Find(s.active.run, key)
  {
    hide DiskOk, LevelsOk, FilesBounded, LogsHold, JobOk, Refines, MemsOk, ShotFind, DiskFind, Find, LastOf, Replay,
         Good;
    RowsThere(s);
    TrustedOwned(s);
    LogsCount(s);
    TrustedLogs(s);
    forall key: Key
      ensures LastOf(Replay(s.disk.logs[0].content), key) == Find(s.imm.value.run, key)
      ensures LastOf(Replay(s.disk.logs[1].content), key) == Find(s.active.run, key)
    {
      GoodRun(s.disk.logs[0].content, key);
      GoodRun(s.disk.logs[1].content, key);
    }
  }

  lemma WrittenTwo(a: Log, b: Log, key: Key)
    ensures LastOf(Written([a, b]), key) == Or(LastOf(Replay(b.content), key), LastOf(Replay(a.content), key))
  {
    hide Replay, LastOf, Written;
    LastWritten([a, b], key);
    assert [a, b][..1] == [a];
    WrittenOne(a);
  }

  // ----- Orphans -----

  /**
   After a rotation over an immutable memtable with nothing to lose, and the flush of the one it put in its
   place, nobody has deleted the log of the former; the next recovery would replay it over the table of the
   latter. The disk still holds the map of last writes exactly when nothing in it had been overwritten.
   */
  lemma OrphanExactly(s: Live, blockSize: nat)
    requires Resting(s) && Trusted(s) && Saveable(s) && s.imm.Some? && ShotOk(s) && SafeToRotate(s)
    ensures |s.disk.levels| == ROWS
    ensures var t := FlushesImm(RotatesAnyway(s), false, blockSize);
      && Resting(t) && t.hist == s.hist && LevelsOk(t.disk.levels, t.disk.files)
      && (Represents(t.disk, t.hist) <==> StillShown(s))
  {
    hide LiveInv, ShotOk, LogsHold, SafeToRotate, FlushesImm, StillShown, LevelsOk, LogsOk, FilesBounded,
         RotatesAnyway, Trusted, DiskFind, LastOf;
    RestingParts(s);
    SafeRotationKeeps(s);
    RotatedIs(s);
    var r := RotatesAnyway(s);
    FlushesImmKeeps(r, false, blockSize);
    var t := FlushesImm(r, false, blockSize);
    RowsThere(t);
    OrphanDisk(s, blockSize);
    ImmOnTopExactly(s, t.disk);
  }

  lemma RotatedIs(s: Live)
    ensures var r := RotatesAnyway(s);
      && r.imm == Some(s.active) && r.active.run == [] && r.job == s.job && r.inflight == s.inflight && r.shot == s.shot
      && r.hist == s.hist && r.disk == LogOpened(s.disk)
  {
    hide LogOpened;
  }

  lemma OrphanDisk(s: Live, blockSize: nat)
    requires Resting(s) && Trusted(s) && Saveable(s) && s.imm.Some? && ShotOk(s) && LiveInv(RotatesAnyway(s))
    requires |s.disk.levels| == ROWS
    requires var t := FlushesImm(RotatesAnyway(s), false, blockSize);
      Resting(t) && LevelsOk(t.disk.levels, t.disk.files)
    ensures ImmOnTop(s, FlushesImm(RotatesAnyway(s), false, blockSize).disk)
  {
    hide LiveInv, LevelsOk, FilesBounded, LogsHold, FlushesImm, DiskOk, RotatesAnyway, Trusted, DiskFind, LastOf, Find,
         Replay, Written;
    RestingParts(s);
    RotatedIs(s);
    var r := RotatesAnyway(s);
    var t := FlushesImm(r, false, blockSize);
    OrphanLogs(s, blockSize);
    RowsThere(r);
    RowsThere(t);
    EmptyLog();
    forall key: Key
      ensures DurableFind(t.disk, key) == Or(Find(ImmRun(s.imm), key), Or(Find(s.active.run, key), ShotFind(s, key)))
    {
      FlushedFind(r, false, blockSize, key);
      SameShot(s, r, key);
      RestingFind(t, key);
      WrittenTwo(s.disk.logs[0], Log(s.disk.nextId, []), key);
      NoLast(key);
    }
  }

  lemma NoLast(key: Key)
    ensures LastOf([], key).None?
  {
  }

  lemma RestingFind(t: Live, key: Key)
    requires Resting(t) && ShotOk(t) && LevelsOk(t.disk.levels, t.disk.files)
    ensures DiskFind(t.disk.levels, t.disk.files, key) == ShotFind(t, key)
  {
    hide DiskOk, ShotOk, LogsHold, JobOk, Refines, MemsOk, Current, ShotFind, DiskFind, LevelsOk;
    LiveParts(t);
    JobIsCurrent(t);
    CurrentFind(t, key);
  }

  lemma OrphanLogs(s: Live, blockSize: nat)
    requires DiskOk(s.disk) && |s.disk.logs| == 2 && s.disk.logs[1].id == s.active.id && |s.disk.levels| == ROWS
    requires s.job.Idle? && s.inflight.None?
    ensures var t := FlushesImm(RotatesAnyway(s), false, blockSize);
      t.disk.logs == [s.disk.logs[0], Log(s.disk.nextId, [])]
  {
    hide LevelsOk, FilesBounded, Besides, Pushed;
    var logs := LogOpened(s.disk).logs;
    LogOpenedOk(s.disk);
    WithoutPlace(logs, 1);
    assert logs[..1] + logs[2..] == [s.disk.logs[0], Log(s.disk.nextId, [])];
  }

  // ----- Names out of order -----

  /**
   If the immutable memtable's log is listed behind the active one's, recovery replays it last. The map is
   given back exactly when nothing in it had been overwritten.
   */
  lemma SwappedExactly(s: Live, order: seq<Log>)
    requires Resting(s) && Trusted(s) && s.imm.Some?
    requires |s.disk.logs| == 2 ==> order == [s.disk.logs[1], s.disk.logs[0]]
    ensures ShotOk(s) && LevelsOk(s.disk.levels, s.disk.files) && |s.disk.logs| == 2
    ensures Represents(s.disk.(logs := order), s.hist) <==> StillShown(s)
  {
    hide LiveInv, LevelsOk, FilesBounded, LogsHold, StillShown, Trusted, DiskFind, LastOf, Find, Replay, Written;
    RestingParts(s);
    var disk := s.disk.(logs := order);
    forall key: Key
      ensures DurableFind(disk, key) == Or(Find(ImmRun(s.imm), key), Or(Find(s.active.run, key), ShotFind(s, key)))
    {
      RestingFind(s, key);
      WrittenTwo(order[0], order[1], key);
    }
    ImmOnTopExactly(s, disk);
  }

  // ----- States in which it happens -----

  /** Steps of careful runs without crashes. */
  predicate Mild(ev: Event) {
    !ev.Crash? && !ev.RotateAnyway? && (ev.BeginWrite? ==> Loggable(ev.e))
  }

  ghost predicate AllMild(evs: seq<Event>) {
    forall i :: 0 <= i < |evs| ==> Mild(evs[i])
  }

  lemma {:induction false} MildAlong(ss: seq<Live>, evs: seq<Event>, n: nat)
    requires Trace(ss, evs) && AllMild(evs) && n <= |evs| && Reachable(Up(ss[0])) && Plain(Up(ss[0]))
    ensures Reachable(Up(ss[n])) && Plain(Up(ss[n])) && LiveInv(ss[n])
  {
    hide LiveInv, LiveEnabled, LiveNext, Reachable, Plain, Inv;
    if n == 0 {
      ReachableInv(Up(ss[0]));
      UpKeeps(ss[0]);
    } else {
      MildAlong(ss, evs, n - 1);
      assert LiveEnabled(ss[n - 1], evs[n - 1]) && LiveNext(ss[n - 1], evs[n - 1]) == Up(ss[n]) && Mild(evs[n - 1]);
      MildStep(ss[n - 1], evs[n - 1], ss[n]);
    }
  }

  lemma MildStep(s: Live, ev: Event, t: Live)
    requires Reachable(Up(s)) && Plain(Up(s)) && LiveInv(s) && LiveEnabled(s, ev) && LiveNext(s, ev) == Up(t)
    requires Mild(ev)
    ensures Reachable(Up(t)) && Plain(Up(t)) && LiveInv(t)
  {
    hide LiveInv, LiveEnabled, LiveNext, Reachable, AllClean, Loggable;
    ReachableNext(Up(s), ev);
    LiveStepKeeps(s, ev);
    LiveStepPlain(s, ev);
    UpKeeps(t);
  }

  lemma EmptyPlain()
    ensures Plain(Up(Empty())) && Reachable(Up(Empty()))
  {
    hide Reachable, Clean, Loaded;
    EmptyReached();
    EmptyLog();
  }

  const NEWER := Entry([2], [21], 1, OP_PUT)

  /** A memtable with the second write, rotated out, and one with a newer value of its key. */
  ghost predicate Overwritten(s: Live) {
    s.imm.Some? && s.imm.value.run == [SECOND] && s.active.run == [NEWER] && s.job.Idle? && s.inflight.None?
  }

  lemma OverwrittenIs(s: Live)
    requires Overwritten(s) && LiveInv(s) && ShotOk(s)
    ensures Resting(s) && Saveable(s) && SafeToRotate(s) && !StillShown(s)
  {
    hide LiveInv, LevelsOk, FilesBounded, ShotFind, Repeats;
    assert SECOND in [SECOND] && Find([NEWER], SECOND.key) == Some(NEWER);
    assert SECOND.Storable() && NEWER.Storable();
  }

  lemma FreshPuts()
    ensures Put([], FIRST) == [FIRST] && Put([], SECOND) == [SECOND] && Put([], NEWER) == [NEWER]
    ensures Loggable(FIRST) && Loggable(SECOND) && Loggable(NEWER)
  {
  }

  /** A put that fills an empty memtable, its rotation, and a put of a newer value. */
  lemma OverwriteTrace(ss: seq<Live>, evs: seq<Event>) returns (ss': seq<Live>, evs': seq<Event>)
    requires Trace(ss, evs) && ss[|evs|].inflight.None? && ss[|evs|].job.Idle? && ss[|evs|].imm.None?
    requires ss[|evs|].disk.logs != [] && ss[|evs|].active.run == []
    ensures evs' == evs + [BeginWrite(SECOND), EndWrite, Rotate, BeginWrite(NEWER), EndWrite] && Trace(ss', evs')
    ensures |ss'| == |evs'| + 1 && ss'[0] == ss[0] && Overwritten(ss'[|evs'|])
    ensures ss'[|evs'|].imm.value.id == ss[|evs|].active.id && ss'[|evs'|].active.id == ss[|evs|].disk.nextId
  {
    hide Trace, EndsWrite, Put;
    TraceLength(ss, evs);
    FreshPuts();
    var s := ss[|evs|];
    AfterPut(s, SECOND);
    ss', evs' := PutTrace(ss, evs, SECOND);
    var t := Rotates(EndsWrite(BeginsWrite(s, SECOND)));
    AfterPut(t, NEWER);
    ss', evs' := WriteTrace(ss', evs', NEWER);
  }

  lemma {:induction false} ReachedAlong(ss: seq<Live>, evs: seq<Event>, n: nat)
    requires Trace(ss, evs) && n <= |evs| && Reachable(Up(ss[0]))
    ensures Reachable(Up(ss[n]))
  {
    hide LiveEnabled, LiveNext, Reachable;
    if n > 0 {
      ReachedAlong(ss, evs, n - 1);
      assert LiveEnabled(ss[n - 1], evs[n - 1]) && LiveNext(ss[n - 1], evs[n - 1]) == Up(ss[n]);
      NextReached(ss[n - 1], evs[n - 1], ss[n]);
    }
  }

  lemma NextReached(s: Live, ev: Event, t: Live)
    requires Reachable(Up(s)) && LiveEnabled(s, ev) && LiveNext(s, ev) == Up(t)
    ensures Reachable(Up(t))
  {
    hide LiveEnabled, LiveNext, Reachable;
    ReachableNext(Up(s), ev);
  }

  /**
   Such memtables at the end of careful steps from an empty directory: a rotation is safe, and recovery would
   give back every log, but the older value is no longer the one shown.
   */
  lemma Overwrote(ss: seq<Live>, evs: seq<Event>)
    requires Trace(ss, evs) && AllMild(evs) && ss[0] == Empty() && Overwritten(ss[|evs|])
    ensures var s := ss[|evs|];
      && Reachable(Up(s)) && Resting(s) && Trusted(s) && Saveable(s) && ShotOk(s) && SafeToRotate(s) && !StillShown(s)
      && |s.disk.levels| == ROWS
  {
    hide LiveInv, LiveEnabled, LiveNext, Reachable, Plain, SafeToRotate, StillShown, Saveable, Trusted, Trace, Empty;
    EmptyPlain();
    MildAlong(ss, evs, |evs|);
    TraceLength(ss, evs);
    var s := ss[|evs|];
    RowsThere(s);
    PlainGivesBack(Up(s));
    OverwrittenIs(s);
  }

  /** A rotation over it, as Flush may do, and the flush of what it rotated out. */
  lemma RotateAnywayTrace(ss: seq<Live>, evs: seq<Event>) returns (ss': seq<Live>, evs': seq<Event>)
    requires Trace(ss, evs) && Overwritten(ss[|evs|]) && Resting(ss[|evs|]) && Saveable(ss[|evs|])
    requires ShotOk(ss[|evs|]) && SafeToRotate(ss[|evs|])
    ensures evs' == evs + [RotateAnyway, TakeImm, BuildTable(0), ListTable, ShowTable, DropImm, RemoveLog]
    ensures Trace(ss', evs')
    ensures |ss'| == |evs'| + 1 && ss'[0] == ss[0]
    ensures |RotatesAnyway(ss[|evs|]).disk.levels| == ROWS
    ensures ss'[|evs'|] == FlushesImm(RotatesAnyway(ss[|evs|]), false, 0)
  {
    hide LiveInv, LiveEnabled, LiveNext, SafeToRotate, Trace, FlushesImm, RotatesAnyway;
    TraceLength(ss, evs);
    var s := ss[|evs|];
    var r := RotatesAnyway(s);
    SafeRotationKeeps(s);
    RotatedIs(s);
    RowsThere(r);
    RotateAnywayEnabled(s);
    ss', evs' := Extended(ss, evs, RotateAnyway, r);
    ss', evs' := FlushTrace(ss', evs', 0);
  }

  lemma RotateAnywayEnabled(s: Live)
    requires s.inflight.None? && s.imm.Some? && ShotOk(s) && SafeToRotate(s)
    ensures LiveEnabled(s, RotateAnyway) && LiveNext(s, RotateAnyway) == Up(RotatesAnyway(s))
  {
    hide ShotOk, SafeToRotate;
  }

  /**
   A first write is flushed; two puts of the same key, the first filling its memtable, come into the gap of that
   Flush, which rotates over the first and flushes the second. Lookups are right, yet after a crash recovery
   would bring the first value back.
   */
  lemma OrphanBringsBackOldValue() returns (ss: seq<Live>, evs: seq<Event>)
    ensures Trace(ss, evs) && Reachable(Up(ss[0]))
    ensures evs == [BeginWrite(FIRST), EndWrite, Rotate]
      + [TakeImm, BuildTable(0), ListTable, ShowTable, DropImm, RemoveLog]
      + [BeginWrite(SECOND), EndWrite, Rotate, BeginWrite(NEWER), EndWrite]
      + [RotateAnyway, TakeImm, BuildTable(0), ListTable, ShowTable, DropImm, RemoveLog]
    ensures var t := ss[|evs|];
      Reachable(Up(t)) && Resting(t) && LevelsOk(t.disk.levels, t.disk.files) && !Represents(t.disk, t.hist)
  {
    hide LiveInv, LiveEnabled, LiveNext, SafeToRotate, StillShown, Trusted, Saveable, Trace, FlushesImm, RotatesAnyway,
         Empty, Reachable, Represents, LevelsOk, Overwritten, Plain;
    EmptyPlain();
    ss, evs := FirstFlushed();
    ss, evs := OverwriteTrace(ss, evs);
    Overwrote(ss, evs);
    OverwrittenImm(ss[|evs|]);
    OrphanExactly(ss[|evs|], 0);
    ss, evs := RotateAnywayTrace(ss, evs);
    ReachedAlong(ss, evs, |evs|);
  }

  lemma FirstFlushed() returns (ss: seq<Live>, evs: seq<Event>)
    ensures evs == [BeginWrite(FIRST), EndWrite, Rotate]
      + [TakeImm, BuildTable(0), ListTable, ShowTable, DropImm, RemoveLog]
    ensures Trace(ss, evs) && |ss| == |evs| + 1 && ss[0] == Empty()
    ensures var s := ss[|evs|];
      s.inflight.None? && s.job.Idle? && s.imm.None? && s.disk.logs != [] && s.active.run == []
  {
    hide LiveInv, LiveEnabled, LiveNext, FlushesImm, Empty, EndsWrite, Reachable, Plain, Put;
    EmptyIs();
    EmptyPlain();
    FirstAlone();
    FreshPuts();
    TraceStart(Empty());
    MildAlong([Empty()], [], 0);
    LiveLogs(Empty());
    AfterPut(Empty(), FIRST);
    ss, evs := PutTrace([Empty()], [], FIRST);
    MildAlong(ss, evs, |evs|);
    var t := ss[|evs|];
    RowsThere(t);
    FlushesImmKeeps(t, false, 0);
    ss, evs := FlushTrace(ss, evs, 0);
    LiveLogs(ss[|evs|]);
  }

  // ----- The millionth log -----

  function Burnt(s: Live, n: nat): Live {
    s.(disk := s.disk.(nextId := s.disk.nextId + n))
  }

  /** Any number of identifiers may be handed out. */
  lemma {:induction false} BurnTrace(ss: seq<Live>, evs: seq<Event>, n: nat) returns (ss': seq<Live>, evs': seq<Event>)
    requires Trace(ss, evs) && AllMild(evs)
    ensures Trace(ss', evs') && |ss'| == |evs'| + 1 && AllMild(evs') && ss'[0] == ss[0]
    ensures ss'[|evs'|] == Burnt(ss[|evs|], n)
  {
    hide Trace;
    TraceLength(ss, evs);
    if n == 0 {
      ss', evs' := ss, evs;
    } else {
      ss', evs' := BurnTrace(ss, evs, n - 1);
      ss', evs' := Extended(ss', evs', BurnId, Burnt(ss[|evs|], n));
    }
  }

  /** Rotating an empty memtable out and flushing nothing leaves a fresh one. */
  lemma FreshTrace(ss: seq<Live>, evs: seq<Event>) returns (ss': seq<Live>, evs': seq<Event>)
    requires Trace(ss, evs) && ss[|evs|].inflight.None? && ss[|evs|].job.Idle? && ss[|evs|].imm.None?
    requires ss[|evs|].active.run == []
    ensures evs' == evs + [Rotate, TakeImm, SkipEmpty, DropImm, RemoveLog] && Trace(ss', evs')
    ensures |ss'| == |evs'| + 1 && ss'[0] == ss[0]
    ensures var t := ss'[|evs'|];
      && t.inflight.None? && t.job.Idle? && t.imm.None? && t.active == Mem(ss[|evs|].disk.nextId, [])
      && t.disk.nextId == ss[|evs|].disk.nextId + 1
  {
    hide Trace, Besides;
    TraceLength(ss, evs);
    var t := Rotates(ss[|evs|]);
    ss', evs' := Extended(ss, evs, Rotate, t);
    ss', evs' := Extended(ss', evs', TakeImm, Takes(t));
    ss', evs' := Extended(ss', evs', SkipEmpty, Skips(Takes(t)));
    ss', evs' := Extended(ss', evs', DropImm, Drops(Skips(Takes(t))));
    ss', evs' := Extended(ss', evs', RemoveLog, RemovesLog(Drops(Skips(Takes(t)))));
  }

  lemma MillionTrace() returns (ss: seq<Live>, evs: seq<Event>)
    ensures Trace(ss, evs) && |ss| == |evs| + 1 && AllMild(evs) && ss[0] == Empty() && Overwritten(ss[|evs|])
    ensures ss[|evs|].imm.value.id == 999_999 && ss[|evs|].active.id == 1_000_000
  {
    hide LiveInv, LiveEnabled, LiveNext, Trace, Empty, Reachable, Plain, Overwritten;
    EmptyIs();
    EmptyPlain();
    FreshPuts();
    TraceStart(Empty());
    ss, evs := BurnTrace([Empty()], [], 999_997);
    ss, evs := FreshTrace(ss, evs);
    MildAlong(ss, evs, |evs|);
    LiveLogs(ss[|evs|]);
    ss, evs := OverwriteTrace(ss, evs);
  }

  /** With logs 999999 and 1000000, which Open lists the other way round, the older value is replayed last. */
  lemma MillionthLogBringsBackOldValue() returns (s: Live, order: seq<Log>)
    ensures Reachable(Up(s)) && Resting(s) && Trusted(s) && CanStart(s.disk, order)
    ensures LevelsOk(s.disk.levels, s.disk.files) && !Represents(s.disk.(logs := order), s.hist)
  {
    hide LiveInv, SafeToRotate, StillShown, Trusted, Saveable, Trace, Empty, Reachable, Represents, LevelsOk,
         Overwritten, LogNames.LogName, Less;
    var ss, evs := MillionTrace();
    Overwrote(ss, evs);
    s := ss[|evs|];
    OverwrittenImm(s);
    RestingParts(s);
    order := [s.disk.logs[1], s.disk.logs[0]];
    SwappedExactly(s, order);
    LogNames.MillionthLogComesFirst();
    assert s.disk.logs == [s.disk.logs[0], s.disk.logs[1]];
  }

  lemma OverwrittenImm(s: Live)
    requires Overwritten(s)
    ensures s.imm.Some?
  {
  }

  // ----- A torn frame that recovery keeps -----

  /**
   The only log is one that recovery left with a torn frame at its end. A write behind it that does not happen to
   complete that frame is on disk only if it changes nothing.
   */
  lemma KeptTornExactly(s: Live, es: seq<Entry>, torn: seq<byte>, lost: Entry, e: Entry)
    requires LiveInv(s) && CanBeginWrite(s, e) && LevelsOk(s.disk.levels, s.disk.files) && Represents(s.disk, s.hist)
    requires |s.disk.logs| == 1 && s.disk.logs[0].content == Recovered(Frames(es) + torn)
    requires Good(es) && Torn(torn, lost) && KeptTorn(es, torn, lost) && lost.EncodedSize() < TWO32
    requires !TakenForWhole(lost, torn + Frame(e))
    ensures var t := EndsWrite(BeginsWrite(s, e));
      && t.disk.levels == s.disk.levels && t.disk.files == s.disk.files
      && (Represents(t.disk, t.hist) <==> Visible(Some(e)) == Visible(LastOf(s.hist, e.key)))
  {
    var t, log := EndsWrite(BeginsWrite(s, e)), s.disk.logs[0];
    hide LiveInv, Frame, Frames, Replay, Recovered, KeptTorn, TakenForWhole, Put, GivesBack, DiskFind, LevelsOk,
         Written, LastOf, Represents;
    GoodIsLoggable(es);
    FramesOne(e);
    AppendAfterKeptTorn(es, torn, lost, [e]);
    TornTailRecovery(es, torn, lost);
    RecoveryIsIdempotent(Frames(es) + torn);
    WholeFrame(s.disk, e);
    SameReplayed(s.disk, t.disk);
    OneMoreWrite(s.disk, t.disk, s.hist, e);
  }

  lemma SameReplayed(disk: Disk, now: Disk)
    requires |disk.logs| == |now.logs| == 1 && Replay(now.logs[0].content) == Replay(disk.logs[0].content)
    ensures Written(now.logs) == Written(disk.logs)
  {
    hide Replay;
    assert disk.logs == [disk.logs[0]] && now.logs == [now.logs[0]];
    WrittenOne(disk.logs[0]);
    WrittenOne(now.logs[0]);
  }

  /** The history has one more write, and the disk gives back what it gave back. */
  lemma OneMoreWrite(disk: Disk, now: Disk, hist: seq<Entry>, e: Entry)
    requires LevelsOk(disk.levels, disk.files) && Represents(disk, hist)
    requires now.levels == disk.levels && now.files == disk.files && Written(now.logs) == Written(disk.logs)
    ensures Represents(now, hist + [e]) <==> Visible(Some(e)) == Visible(LastOf(hist, e.key))
  {
    hide LevelsOk, Written, DiskFind;
    assert (hist + [e])[..|hist|] == hist;
    hide LastOf;
    assert forall key: Key :: DurableFind(now, key) == DurableFind(disk, key);
    forall key: Key
      ensures LastOf(hist + [e], key) == if e.key == key then Some(e) else LastOf(hist, key)
    {
      LastOfOneMore(hist, e, key);
    }
    assert Visible(DurableFind(disk, e.key)) == Visible(LastOf(hist, e.key));
    if Visible(Some(e)) == Visible(LastOf(hist, e.key)) {
      forall key: Key
        ensures Visible(DurableFind(now, key)) == Visible(LastOf(hist + [e], key))
      {
        assert Visible(DurableFind(disk, key)) == Visible(LastOf(hist, key));
      }
    }
  }

  lemma LastOfOneMore(hist: seq<Entry>, e: Entry, key: Key)
    ensures LastOf(hist + [e], key) == if e.key == key then Some(e) else LastOf(hist, key)
  {
    assert (hist + [e])[..|hist|] == hist;
  }

  function Zeros(n: nat): (r: seq<byte>)
    ensures |r| == n
  {
    if n == 0 then [] else [0] + Zeros(n - 1)
  }

  /** A value so long that no later write of the example reaches the end its torn frame declares. */
  const LONG := Entry([1], Zeros(100), 0, OP_PUT)

  function TornLong(): seq<byte> {
    Frame(LONG)[..9]
  }

  /** The engine after a crash in the middle of the long write, and recovery. */
  ghost function Reopened(): Live {
    OpensLast(Starts(EMPTY_DISK.(nextId := 2, logs := [Log(1, TornLong())]), [], [Log(1, TornLong())]))
  }

  lemma LongIsKept()
    ensures Torn(TornLong(), LONG) && KeptTorn([], TornLong(), LONG) && !TakenForWhole(LONG, TornLong() + Frame(SECOND))
    ensures Recovered(TornLong()) == TornLong() && Replay(TornLong()) == []
  {
    hide Frame, Zeros, Hashing.Crc32, DecodeEntry, Replay, Recovered, ReportOf, ValidLength;
    assert Frames([]) + TornLong() == TornLong();
    TornTailRecovery([], TornLong(), LONG);
  }

  lemma CrashInLong()
    ensures var s := BeginsWrite(Empty(), LONG);
      && CanCrash(s, 9) && HistoryLeft(s, 9) == []
      && DiskLeft(s, 9) == EMPTY_DISK.(nextId := 2, logs := [Log(1, TornLong())])
  {
    hide Frame, Zeros, Clean, Loaded, Loggable;
    EmptyLog();
    assert [] + TornLong() == TornLong();
  }

  lemma OneToOrder(disk: Disk)
    requires |disk.logs| == 1
    ensures CanStart(disk, disk.logs)
  {
  }

  lemma ReopenedReached()
    ensures Reachable(Up(Reopened()))
  {
    hide Loaded, Reachable, Frame, CanCrash, DiskLeft, HistoryLeft, Recovered, Replay, PutAll, CanStart, TornLong;
    var disk := EMPTY_DISK.(nextId := 2, logs := [Log(1, TornLong())]);
    EmptyReached();
    CrashInLong();
    OneToOrder(disk);
    ReachableNext(Up(Empty()), BeginWrite(LONG));
    ReachableNext(Up(BeginsWrite(Empty(), LONG)), Crash(9));
    ReachableNext(Down(disk, []), Start(disk.logs));
    ReachableNext(Opening(Starts(disk, [], disk.logs)), OpenLast);
  }

  /** After the crash, recovery and one more write: lookups show the write, and the disk does not. */
  lemma KeptTornLosesAWrite() returns (s: Live)
    ensures Reachable(Up(s)) && s.inflight.None? && s.job.Idle? && s.hist == [SECOND]
    ensures LevelsOk(s.disk.levels, s.disk.files) && !Represents(s.disk, s.hist)
  {
    hide LiveInv, Loaded, Reachable, Frame, Recovered, Replay, PutAll, TornLong, EndsWrite, Represents, DiskOk,
         KeptTorn, TakenForWhole, Reopened, Inv;
    var r := Reopened();
    ReopenedReached();
    ReopenedIs();
    ReachableInv(Up(r));
    UpKeeps(r);
    LiveRepresents(r);
    KeptTornExactly(r, [], TornLong(), LONG, SECOND);
    s := EndsWrite(BeginsWrite(r, SECOND));
    WriteReached(r, SECOND);
    AfterPut(r, SECOND);
    NoLast(SECOND.key);
  }

  lemma ReopenedIs()
    ensures var r := Reopened();
      && r.hist == [] && r.inflight.None? && r.job.Idle? && Trusted(r) && |r.disk.logs| == 1
      && r.disk.logs[0].content == Recovered(Frames([]) + TornLong()) && Good([])
    ensures Torn(TornLong(), LONG) && KeptTorn([], TornLong(), LONG) && LONG.EncodedSize() < TWO32
    ensures !TakenForWhole(LONG, TornLong() + Frame(SECOND))
  {
    hide Loaded, Frame, Recovered, Replay, PutAll, TornLong, KeptTorn, TakenForWhole;
    LongIsKept();
    assert Frames([]) + TornLong() == TornLong();
  }
}
