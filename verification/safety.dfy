/**
 What holds in every reachable state of the engine: lookups give the last writes, only a write
 changes them, and a crash at any point loses nothing that was acknowledged.
 */
module Safety {
  import opened Bytes
  import opened Entries
  import opened Runs
  import opened Upsert
  import opened Wal
  import opened Levels
  import opened Storage
  import opened DiskSteps
  import opened Machine
  import opened MachineSteps
  import opened MachineCompaction
  import opened MachineRecovery

  // ----- The invariant, over whole runs -----

  lemma LiveStepKeeps(s: Live, ev: Event)
    requires LiveInv(s) && LiveEnabled(s, ev)
    ensures Inv(LiveNext(s, ev))
  {
    hide LiveInv, DownInv, CanCompact, EndsWrite, SafeToRotate, ShotOk, Trusted;
    match ev
    case BeginWrite(e) => BeginWriteKeeps(s, e);
    case EndWrite => EndWriteKeeps(s);
    case Rotate => RotateKeeps(s);
    case RotateAnyway => SafeRotationKeeps(s);
    case TakeImm => TakeImmKeeps(s);
    case BuildTable(blockSize) => BuildTableKeeps(s, blockSize);
    case SkipEmpty => SkipEmptyKeeps(s);
    case ListTable => ListTableKeeps(s);
    case ShowTable => ShowTableKeeps(s);
    case DropImm => DropImmKeeps(s);
    case RemoveLog => RemoveLogKeeps(s);
    case Compact(done, newestFirst, target, ids) => CompactKeeps(s, done, newestFirst, target, ids);
    case ShowCompacted => ShowCompactedKeeps(s);
    case Unlink(id) => UnlinkKeeps(s, id);
    case BurnId => BurnIdKeeps(s);
    case Crash(written) => CrashKeeps(s, written);
  }

  lemma RecoveryStepKeeps(s: Recovery, ev: Event)
    requires RecoveryInv(s) && RecoveryEnabled(s, ev)
    ensures Inv(RecoveryNext(s, ev))
  {
    RecoveryDisk(s);
    hide RecoveryInv, LiveInv, DownInv;
    match ev
    case ReplayOldest => ReplayKeeps(s);
    case SaveOldest(blockSize) => SaveKeeps(s, blockSize);
    case ListOldest => ListSavedKeeps(s);
    case RemoveOldest => RemoveOldestKeeps(s);
    case OpenLast => OpenLastKeeps(s);
    case OpenFresh => OpenFreshKeeps(s);
    case Crash(_) =>
  }

  lemma RecoveryDisk(s: Recovery)
    requires RecoveryInv(s)
    ensures DownInv(s.disk, s.hist)
  {
    hide DownInv, Replay, PutAll;
  }

  /** Every step keeps the invariant. */
  lemma StepKeeps(s: State, ev: Event)
    requires Inv(s) && Enabled(s, ev)
    ensures Inv(Next(s, ev))
  {
    hide RecoveryInv, LiveInv, DownInv, LiveEnabled, RecoveryEnabled, LiveNext, RecoveryNext, CanStart;
    match s
    case Up(live) => LiveStepKeeps(live, ev);
    case Opening(rec) => RecoveryStepKeeps(rec, ev);
    case Down(disk, hist) => StartKeeps(disk, hist, ev.order);
  }

  /** An empty directory satisfies it. */
  lemma InitialInv()
    ensures Inv(INITIAL)
  {
    var levels := EMPTY_DISK.levels;
    assert AllEmpty(levels);
    forall key: Key
      ensures DurableFind(EMPTY_DISK, key).None?
    {
      NothingDeeper(levels, map[], 1, key);
    }
  }

  ghost predicate AllEmpty(levels: LevelLists) {
    |levels| == ROWS && forall m :: 0 <= m < ROWS ==> levels[m] == []
  }

  lemma {:induction false} NothingDeeper(levels: LevelLists, tables: Tables, l: nat, key: Key)
    requires AllEmpty(levels) && forall id :: id in tables ==> tables[id].run != []
    ensures FindFromLevel(levels, l, tables, key).None?
    decreases MAX_LEVELS - l
  {
    if l < MAX_LEVELS {
      NothingDeeper(levels, tables, l + 1, key);
    }
  }

  /** The invariant holds in every reachable state. */
  lemma {:induction false} RunKeeps(s: State, evs: seq<Event>)
    requires Inv(s) && AllEnabled(s, evs)
    ensures Inv(Execute(s, evs))
    decreases |evs|
  {
    hide Inv, Enabled, Next;
    if evs != [] {
      StepKeeps(s, evs[0]);
      RunKeeps(Next(s, evs[0]), evs[1..]);
    }
  }

  // ----- Lookups -----

  lemma LookupIsLastWrite(s: Live, key: Key)
    requires LiveInv(s)
    ensures Visible(Lookup(s, key)) == Visible(LastOf(s.hist, key))
  {
    LiveParts(s);
    hide LiveInv, Lookup, LastOf;
  }

  lemma MemsAscend(s: Live)
    requires LiveInv(s)
    ensures Ascending(s.active.run) && Ascending(ImmRun(s.imm)) && ShotOk(s)
  {
    hide DiskOk, Refines, JobOk, ShotOk, LogsHold;
  }

  /** Recovering a log whose table was already committed: after its replay the tables show what they showed. */
  lemma CommittedLogAddsNothing(disk: Disk, id: nat, key: Key)
    requires DiskOk(disk) && disk.logs != [] && Good(Replay(disk.logs[0].content))
    requires Absorbed(disk, disk.logs[0].content)
    requires id in disk.files && Unlisted(disk.levels, id) && disk.files[id].run == PutAll(Replay(disk.logs[0].content))
    ensures var now := TableListed(disk, id);
      DiskOk(now) && DiskFind(now.levels, now.files, key) == DiskFind(disk.levels, disk.files, key)
  {
    hide AllListed, DistinctIds, DisjointLevels, LogsOk, DiskFind, Pushed, Unlisted, Replay, PutAll, LastOf, Find, Good;
    TableListedFind(disk, id);
    GoodRun(disk.logs[0].content, key);
  }

  // ----- What a step changes -----

  function History(s: State): seq<Entry> {
    match s
    case Up(live) => live.hist
    case Opening(rec) => rec.hist
    case Down(_, hist) => hist
  }

  /** Only the write in flight is ever added, when it ends, or when a crash comes after its last byte. */
  lemma OnlyWritesCount(s: State, ev: Event)
    requires Enabled(s, ev)
    ensures History(Next(s, ev)) == History(s)
      || (s.Up? && s.live.inflight.Some? && (ev.EndWrite? || ev.Crash?)
          && History(Next(s, ev)) == History(s) + [s.live.inflight.value])
    ensures s.Up? && ev.EndWrite? ==> History(Next(s, ev)) == History(s) + [s.live.inflight.value]
  {
    hide CanCompact, CanRotateAnyway, CanStart, DiskLeft, TornDisk;
  }

  /** Rotation, flushing and compaction change no lookup. */
  lemma StepKeepsLookups(s: State, ev: Event, key: Key)
    requires Inv(s) && Enabled(s, ev) && s.Up? && Next(s, ev).Up? && !ev.EndWrite?
    ensures Inv(Next(s, ev))
    ensures Visible(Lookup(Next(s, ev).live, key)) == Visible(Lookup(s.live, key))
  {
    hide Inv, LiveInv, Enabled, Next, Lookup, LastOf;
    StepKeeps(s, ev);
    HistoryStays(s, ev);
    UpKeeps(s.live);
    UpKeeps(Next(s, ev).live);
    LookupIsLastWrite(s.live, key);
    LookupIsLastWrite(Next(s, ev).live, key);
  }

  lemma HistoryStays(s: State, ev: Event)
    requires Enabled(s, ev) && s.Up? && Next(s, ev).Up? && !ev.EndWrite?
    ensures Next(s, ev).live.hist == s.live.hist
  {
    hide Enabled, Next;
    OnlyWritesCount(s, ev);
    if ev.Crash? {
      CrashGoesDown(s, ev);
      assert false;
    }
  }

  lemma CrashGoesDown(s: State, ev: Event)
    requires Enabled(s, ev) && s.Up? && ev.Crash?
    ensures Next(s, ev).Down?
  {
    hide CanCrash, DiskLeft, HistoryLeft;
  }

  lemma UpKeeps(s: Live)
    requires Inv(Up(s))
    ensures LiveInv(s)
  {
    hide LiveInv;
  }

  // ----- Crash and recovery -----

  /** No state before the last one is up. */
  ghost predicate StaysDown(s: State, evs: seq<Event>)
    requires AllEnabled(s, evs)
    decreases |evs|
  {
    evs == [] || (!s.Up? && StaysDown(Next(s, evs[0]), evs[1..]))
  }

  lemma {:induction false} RecoveryKeepsHistory(s: State, evs: seq<Event>)
    requires AllEnabled(s, evs) && StaysDown(s, evs)
    ensures History(Execute(s, evs)) == History(s)
    decreases |evs|
  {
    hide Enabled, Next;
    if evs != [] {
      OnlyWritesCount(s, evs[0]);
      RecoveryKeepsHistory(Next(s, evs[0]), evs[1..]);
    }
  }

  /**
   Crash safety: a crash at any point, then recovery, with any number of further crashes in the course of
   it, gives back the acknowledged map, or that map and the one write in flight.
   */
  lemma {:induction false} CrashLosesNothing(s: Live, written: nat, evs: seq<Event>)
    requires LiveInv(s) && CanCrash(s, written)
    requires var down := Down(DiskLeft(s, written), HistoryLeft(s, written));
      AllEnabled(down, evs) && StaysDown(down, evs) && Execute(down, evs).Up?
    ensures var down := Down(DiskLeft(s, written), HistoryLeft(s, written)); var t := Execute(down, evs).live;
      && LiveInv(t)
      && (forall key: Key :: Visible(Lookup(t, key)) == Visible(LastOf(HistoryLeft(s, written), key)))
      && (HistoryLeft(s, written) == s.hist
        || (s.inflight.Some? && HistoryLeft(s, written) == s.hist + [s.inflight.value]))
  {
    var down := Down(DiskLeft(s, written), HistoryLeft(s, written));
    CrashKeeps(s, written);
    assert Inv(down);
    RunKeeps(down, evs);
    RecoveryKeepsHistory(down, evs);
    hide LiveInv, Execute, AllEnabled, StaysDown, DiskLeft, Lookup;
    var t := Execute(down, evs).live;
    forall key: Key
      ensures Visible(Lookup(t, key)) == Visible(LastOf(HistoryLeft(s, written), key))
    {
      LookupIsLastWrite(t, key);
    }
  }

  // ----- Reachable states -----

  function DiskIn(s: State): Disk {
    match s
    case Up(live) => live.disk
    case Opening(rec) => rec.disk
    case Down(disk, _) => disk
  }

  /** Recovery would give back every log in full, and none is an orphan; not running, it always does. */
  ghost predicate GivesBackAll(s: State) {
    s.Up? ==> Trusted(s.live)
  }

  lemma DiskInIsOk(s: State)
    requires Inv(s)
    ensures DiskOk(DiskIn(s)) && (GivesBackAll(s) ==> Represents(DiskIn(s), History(s)))
  {
    hide LiveInv, RecoveryInv, DiskOk, Represents, AllGood, ByName, Trusted;
    match s
    case Up(live) =>
      RowsThere(live);
      if Trusted(live) {
        LiveRepresents(live);
      }
    case Opening(rec) => RecoveryDisk(rec);
    case Down(_, _) =>
  }

  /** The states of all runs from an empty directory, whatever steps, crashes and recoveries they have. */
  ghost predicate Reachable(s: State) {
    exists evs :: AllEnabled(INITIAL, evs) && Execute(INITIAL, evs) == s
  }

  lemma ReachableInv(s: State)
    requires Reachable(s)
    ensures Inv(s)
  {
    hide Inv, Execute, AllEnabled;
    var evs :| AllEnabled(INITIAL, evs) && Execute(INITIAL, evs) == s;
    InitialInv();
    RunKeeps(INITIAL, evs);
  }

  /** In every reachable state of a running engine, lookups give the last writes of the history. */
  lemma {:induction false} ReachableRefinesMap(s: Live, key: Key)
    requires Reachable(Up(s))
    ensures LevelsOk(s.shot.levels, s.shot.readers)
    ensures Visible(Lookup(s, key)) == Visible(LastOf(s.hist, key))
  {
    hide LiveInv, Reachable, LevelsOk, Lookup, LastOf;
    ReachableInv(Up(s));
    LookupsAre(s);
  }

  /**
   In every reachable state levels 1 and up are disjoint. In the midst of recovery and after a crash the disk
   holds the map that the history describes; while the engine runs, it does so when recovery would give back
   every log in full and none is an orphan.
   */
  lemma {:induction false} ReachableDisk(s: State)
    requires Reachable(s)
    ensures DiskOk(DiskIn(s)) && (GivesBackAll(s) ==> Represents(DiskIn(s), History(s)))
    ensures DisjointLevels(DiskIn(s).levels, DiskIn(s).files)
  {
    hide Inv, Reachable, Represents, GivesBackAll, LogsOk, FilesBounded, AllListed, DistinctIds, DisjointLevels;
    ReachableInv(s);
    DiskInIsOk(s);
  }

  lemma LookupsAre(s: Live)
    requires LiveInv(s)
    ensures LevelsOk(s.shot.levels, s.shot.readers)
    ensures forall key: Key :: Visible(Lookup(s, key)) == Visible(LastOf(s.hist, key))
  {
    hide DiskOk, Refines, MemsOk, LogsHold, JobOk, LevelsOk, Lookup, LastOf;
    forall key: Key
      ensures Visible(Lookup(s, key)) == Visible(LastOf(s.hist, key))
    {
      LookupIsLastWrite(s, key);
    }
  }

  // ----- Recovery comes to an end -----

  /** Steps that open the engine from here. */
  ghost predicate Opens(s: State, evs: seq<Event>) {
    AllEnabled(s, evs) && StaysDown(s, evs) && Execute(s, evs).Up?
  }

  lemma OpensAfter(s: State, ev: Event, evs: seq<Event>)
    requires !s.Up? && Enabled(s, ev) && Opens(Next(s, ev), evs)
    ensures Opens(s, [ev] + evs)
  {
    hide Enabled, Next;
    assert ([ev] + evs)[1..] == evs;
  }

  lemma OpensAtOnce(s: State, ev: Event)
    requires !s.Up? && Enabled(s, ev) && Next(s, ev).Up?
    ensures Opens(s, [ev])
  {
    hide Enabled, Next;
    assert Opens(Next(s, ev), []);
    OpensAfter(s, ev, []);
    assert [ev] + [] == [ev];
  }

  /** The next step of a recovery that is not disturbed. */
  function NextRecovery(s: Recovery): Event {
    match s.stage
    case Ready => if s.disk.logs == [] then OpenFresh else if |s.disk.logs| == 1 then OpenLast else ReplayOldest
    case Replayed(run) => if run == [] then RemoveOldest else SaveOldest(4096)
    case Saved(_) => ListOldest
    case Flushed => RemoveOldest
  }

  function StepsLeft(s: Recovery): nat {
    4 * |s.disk.logs| + match s.stage case Ready => 3 case Replayed(_) => 2 case Saved(_) => 1 case Flushed => 0
  }

  /** Undisturbed, recovery opens the engine. */
  lemma {:induction false} RecoveryCompletes(s: Recovery) returns (evs: seq<Event>)
    requires RecoveryInv(s)
    ensures Opens(Opening(s), evs)
    decreases StepsLeft(s)
  {
    hide RecoveryInv, RecoveryEnabled, RecoveryNext, LiveInv, Opens, NextRecovery, StepsLeft;
    var ev := NextRecovery(s);
    NextRecoveryEnabled(s);
    OnlyCrashGoesDown(s);
    var t := RecoveryNext(s, ev);
    if t.Up? {
      OpensAtOnce(Opening(s), ev);
      evs := [ev];
    } else {
      RecoveryStepKeeps(s, ev);
      StepsGoDown(s);
      var rest := RecoveryCompletes(t.rec);
      OpensAfter(Opening(s), ev, rest);
      evs := [ev] + rest;
    }
  }

  lemma NextRecoveryEnabled(s: Recovery)
    requires RecoveryInv(s)
    ensures RecoveryEnabled(s, NextRecovery(s))
  {
    hide RecoveryInv, DiskOk, Represents, AllGood, ByName;
    RecoveryDisk(s);
    RowsOnDisk(s.disk);
    StageLogs(s);
  }

  lemma StageLogs(s: Recovery)
    requires RecoveryInv(s)
    ensures !s.stage.Ready? ==> s.disk.logs != []
  {
    hide DownInv, DiskOk, Absorbed, Unlisted, Replay, PutAll;
  }

  lemma OnlyCrashGoesDown(s: Recovery)
    requires RecoveryEnabled(s, NextRecovery(s))
    ensures !RecoveryNext(s, NextRecovery(s)).Down?
  {
  }

  lemma RowsOnDisk(disk: Disk)
    requires DiskOk(disk)
    ensures |disk.levels| == ROWS
  {
    hide TablesOk, AllListed, DistinctIds, DisjointLevels, LogsOk, FilesBounded;
  }

  lemma StepsGoDown(s: Recovery)
    requires RecoveryInv(s) && RecoveryEnabled(s, NextRecovery(s)) && RecoveryNext(s, NextRecovery(s)).Opening?
    ensures StepsLeft(RecoveryNext(s, NextRecovery(s)).rec) < StepsLeft(s)
    ensures RecoveryNext(s, NextRecovery(s)).rec.disk.logs != []
  {
    hide DownInv, DiskOk, Replay, PutAll, Recovered, Absorbed, Unlisted;
  }
}
