/** Crashes and recovery keep the invariant. */
module MachineRecovery {
  import opened Bytes
  import opened Entries
  import opened Runs
  import opened Upsert
  import opened Wal
  import opened Levels
  import opened Storage
  import opened DiskSteps
  import opened Compaction
  import opened Machine
  import opened MachineSteps
  import LogNames

  // ----- What a running engine has on disk -----

  lemma TrustedOwned(s: Live)
    requires Trusted(s)
    ensures OwnedLogs(s) == s.disk.logs
  {
    BesidesNone(s.disk.logs, s.orphans);
  }

  lemma TrustedLogs(s: Live)
    requires LogsHold(s) && Trusted(s)
    ensures AllGood(s.disk.logs)
    ensures |s.disk.logs| == Count(DroppedLog(s).Some?) + Count(s.imm.Some?) + 1
    ensures s.active.run == PutAll(Replay(s.disk.logs[|s.disk.logs| - 1].content))
    ensures s.imm.Some? ==> s.imm.value.run == PutAll(Replay(s.disk.logs[|s.disk.logs| - 2].content))
  {
    hide Good, Replay, PutAll, Besides;
    TrustedOwned(s);
  }

  function DroppedFind(s: Live, key: Key): Option<Entry> {
    if DroppedLog(s).Some? && s.disk.logs != [] then LastOf(Replay(s.disk.logs[0].content), key) else None
  }

  /** The logs hold what the memtables hold, and the dropped one's. */
  lemma WrittenFind(s: Live, key: Key)
    requires LogsHold(s) && Trusted(s)
    ensures LastOf(Written(s.disk.logs), key) ==
      Or(Find(s.active.run, key), Or(Find(ImmRun(s.imm), key), DroppedFind(s, key)))
  {
    var logs := s.disk.logs;
    TrustedLogs(s);
    hide LogsHold, Replay, PutAll, Good, Written, LastOf, Find;
    GoodRun(logs[|logs| - 1].content, key);
    LastWritten(logs, key);
    var before := logs[..|logs| - 1];
    if s.imm.Some? {
      GoodRun(logs[|logs| - 2].content, key);
      LastWritten(before, key);
      assert DroppedLog(s).Some? ==> before[..|before| - 1] == [logs[0]];
    } else {
      assert DroppedLog(s).Some? ==> before == [logs[0]];
    }
    WrittenOne(logs[0]);
  }

  lemma GoodRun(content: seq<byte>, key: Key)
    requires Good(Replay(content))
    ensures Find(PutAll(Replay(content)), key) == LastOf(Replay(content), key)
  {
    ReplayedRun(content);
  }

  /** Behind the memtables the disk shows what lookups show, the dropped log included. */
  ghost predicate ShotShowsDisk(s: Live, key: Key)
    requires DiskOk(s.disk) && ShotOk(s)
  {
    Visible(Lookup(s, key))
    == Visible(Or(MemFind(s, key), Or(DroppedFind(s, key), DiskFind(s.disk.levels, s.disk.files, key))))
  }

  lemma ShotIsDisk(s: Live, key: Key)
    requires DiskOk(s.disk) && LogsHold(s) && ShotOk(s) && JobOk(s) && Trusted(s)
    ensures ShotShowsDisk(s, key)
  {
    hide AllListed, DistinctIds, DisjointLevels, TablesOk, LogsOk, FilesBounded, LogsHold, JobOk, Current, DiskFind,
         Replay, LastOf, Find, TakenOk, MemFind, Trusted;
    if s.job.Listed? {
      ListedFind(s, key);
      JobTaken(s);
      ShownSame(s, key);
    } else if s.job.Compacting? {
      CompactingView(s, key);
    } else {
      JobIsCurrent(s);
      CurrentFind(s, key);
      if DroppedLog(s).Some? {
        DroppedIsAbsorbed(s);
      }
    }
  }

  lemma DroppedIsAbsorbed(s: Live)
    requires DiskOk(s.disk) && LogsHold(s) && ShotOk(s) && JobOk(s) && Trusted(s) && DroppedLog(s).Some?
    ensures s.disk.logs != [] && Absorbed(s.disk, s.disk.logs[0].content)
  {
    hide DiskOk, ShotOk, LogsAre, JobOk, Absorbed, Besides;
    LogsCount(s);
    TrustedOwned(s);
    DroppedIsFirst(s);
    JobDropped(s);
  }

  lemma DroppedIsFirst(s: Live)
    requires LogsHold(s) && DroppedLog(s).Some?
    ensures OwnedLogs(s) != [] && OwnedLogs(s)[0].id == s.job.log
  {
    hide Good, Besides;
  }

  lemma JobDropped(s: Live)
    requires DiskOk(s.disk) && LogsHold(s) && ShotOk(s) && JobOk(s) && DroppedLog(s).Some? && OwnedLogs(s) != []
    ensures s.job.log !in s.leaky ==> Absorbed(s.disk, OwnedLogs(s)[0].content)
  {
    hide DiskOk, ShotOk, LogsHold, Current, Absorbed, Besides;
  }

  /** The disk of a running engine holds the map of the history. */
  lemma LiveRepresents(s: Live)
    requires LiveInv(s) && Trusted(s)
    ensures LevelsOk(s.disk.levels, s.disk.files) && Represents(s.disk, s.hist)
  {
    LiveParts(s);
    hide AllListed, DistinctIds, DisjointLevels, TablesOk, LogsOk, FilesBounded, LogsHold, JobOk, DiskFind, Replay,
         LastOf, Find, MemsOk, LiveInv, Trusted, Written;
    forall key: Key
      ensures Visible(DurableFind(s.disk, key)) == Visible(LastOf(s.hist, key))
    {
      assert Visible(Lookup(s, key)) == Visible(LastOf(s.hist, key));
      WrittenFind(s, key);
      ShotIsDisk(s, key);
    }
  }

  // ----- Crashes -----

  /**
   Whatever part of a frame reached the log: recovery gives back the acknowledged writes, or those and the one
   in flight.
   */
  lemma CrashKeeps(s: Live, written: nat)
    requires LiveInv(s) && CanCrash(s, written)
    ensures DownInv(DiskLeft(s, written), HistoryLeft(s, written))
  {
    LiveRepresents(s);
    TrustedLogs(s);
    assert s.inflight.Some? ==> s.inflight.value.key != [];
    hide DiskOk, Represents, ShotOk, JobOk, Refines, MemsOk, LogsHold, Frame, TornDisk, AllGood, ByName, Loggable,
         Trusted;
    if s.inflight.Some? {
      CrashInWrite(s.disk, s.inflight.value, written, s.hist);
    }
  }

  /** The part of a frame behind the last log, and the history that follows. */
  lemma CrashInWrite(disk: Disk, e: Entry, written: nat, hist: seq<Entry>)
    requires DownInv(disk, hist) && disk.logs != [] && e.key != [] && written <= |Frame(e)|
    requires written > 0 ==> Clean(LastContent(disk)) && e.EncodedSize() < TWO32
    requires written == |Frame(e)| ==> |e.key| < TWO16
    ensures DownInv(TornDisk(disk, e, written), if written == |Frame(e)| && Loggable(e) then hist + [e] else hist)
  {
    hide DownInv, Frame, Replay, Good, Loggable, WithContent, Clean;
    var content, more := LastContent(disk), if written == |Frame(e)| && Loggable(e) then [e] else [];
    PartReplays(content, e, written);
    LogGrown(disk, content + Frame(e)[..written], more, hist);
    assert hist + [] == hist;
  }

  lemma LogGrown(disk: Disk, content: seq<byte>, more: seq<Entry>, hist: seq<Entry>)
    requires DownInv(disk, hist) && disk.logs != [] && Good(more) && Replay(content) == Replay(LastContent(disk)) + more
    ensures DownInv(disk.(logs := WithContent(disk.logs, |disk.logs| - 1, content)), hist + more)
  {
    hide DiskOk, Represents, Replay, Good, WithContent, AllGood, ByName;
    LogRewritten(disk, |disk.logs| - 1, content, more, hist);
    RewrittenGood(disk.logs, content, more);
    RewrittenByName(disk.logs, |disk.logs| - 1, content);
  }

  lemma PartReplays(content: seq<byte>, e: Entry, written: nat)
    requires e.key != [] && written <= |Frame(e)| && (written > 0 ==> Clean(content) && e.EncodedSize() < TWO32)
    requires written == |Frame(e)| ==> |e.key| < TWO16
    ensures var more := if written == |Frame(e)| && Loggable(e) then [e] else [];
      Replay(content + Frame(e)[..written]) == Replay(content) + more && Good(more)
  {
    hide Frame, Replay, Clean;
    assert Replay(content) + [] == Replay(content);
    if written == 0 {
      assert content + Frame(e)[..0] == content;
    } else if written < |Frame(e)| {
      TornAppend(content, e, written);
    } else {
      assert Frame(e)[..written] == Frame(e);
      if Loggable(e) {
        AppendFrame(content, e);
      } else {
        AppendTooLarge(content, e);
      }
    }
  }

  lemma RewrittenGood(logs: seq<Log>, content: seq<byte>, more: seq<Entry>)
    requires AllGood(logs) && logs != [] && Good(more)
    requires Replay(content) == Replay(logs[|logs| - 1].content) + more
    ensures AllGood(WithContent(logs, |logs| - 1, content))
  {
    hide Replay, Loggable;
  }

  lemma RewrittenByName(logs: seq<Log>, i: nat, content: seq<byte>)
    requires ByName(logs) && i < |logs|
    ensures ByName(WithContent(logs, i, content))
  {
    hide LogNames.LogName, Less;
  }

  // ----- The order of the logs -----

  /** The listing in the order of names is the list of the logs, theirs being the same order. */
  lemma {:induction false} ListingIsById(logs: seq<Log>, order: seq<Log>)
    requires ByName(logs) && ByName(order) && multiset(order) == multiset(logs)
    ensures order == logs
  {
    hide Less, LogNames.LogName;
    if logs == [] {
      assert |multiset(order)| == 0;
    } else {
      SameHead(order, logs);
      TailsSame(order, logs);
      TailByName(logs);
      TailByName(order);
      hide ByName;
      ListingIsById(logs[1..], order[1..]);
      assert order == [order[0]] + order[1..] && logs == [logs[0]] + logs[1..];
    }
  }

  lemma SameHead(a: seq<Log>, b: seq<Log>)
    requires ByName(a) && ByName(b) && multiset(a) == multiset(b) && b != []
    ensures a != [] && a[0] == b[0]
  {
    hide LogNames.LogName;
    assert |a| == |multiset(a)| == |b|;
    assert a[0] in multiset(b) && b[0] in multiset(a);
    var j :| 0 <= j < |b| && b[j] == a[0];
    var i :| 0 <= i < |a| && a[i] == b[0];
    if i > 0 && j > 0 {
      LessAsymmetric(LogNames.LogName(a[0].id), LogNames.LogName(b[0].id));
    }
  }

  lemma TailsSame(a: seq<Log>, b: seq<Log>)
    requires multiset(a) == multiset(b) && a != [] && b != [] && a[0] == b[0]
    ensures multiset(a[1..]) == multiset(b[1..])
  {
    assert a == [a[0]] + a[1..] && b == [b[0]] + b[1..];
    assert multiset(a[1..]) == multiset(a) - multiset{a[0]};
    assert multiset(b[1..]) == multiset(b) - multiset{b[0]};
  }

  lemma TailByName(a: seq<Log>)
    requires ByName(a) && a != []
    ensures ByName(a[1..])
  {
    hide LogNames.LogName, Less;
  }

  /** Below 10^6 the logs' names are in the order of their identifiers. */
  lemma NamesInOrder(logs: seq<Log>, nextId: nat)
    requires LogsOk(logs, nextId) && nextId <= 1_000_000
    ensures ByName(logs)
  {
    hide LogNames.LogName, Less;
    forall i, j | 0 <= i < j < |logs|
      ensures Less(LogNames.LogName(logs[i].id), LogNames.LogName(logs[j].id))
    {
      LogNames.NamesFollowIds(logs[i].id, logs[j].id);
    }
  }

  lemma StartKeeps(disk: Disk, hist: seq<Entry>, order: seq<Log>)
    requires DownInv(disk, hist) && CanStart(disk, order)
    ensures RecoveryInv(Starts(disk, hist, order))
  {
    hide DiskOk, Represents, AllGood, ByName;
    ListingIsById(disk.logs, order);
  }

  // ----- The older logs, one at a time -----

  lemma ReplayKeeps(s: Recovery)
    requires RecoveryInv(s) && CanReplay(s)
    ensures RecoveryInv(Replays(s))
  {
    hide DownInv, Replay, PutAll, Recovered;
    RecoverLog(s.disk, 0, s.hist);
    RecoveryIsIdempotent(s.disk.logs[0].content);
  }

  /** Recovering a log on disk loses nothing. */
  lemma RecoverLog(disk: Disk, i: nat, hist: seq<Entry>)
    requires DownInv(disk, hist) && i < |disk.logs|
    ensures DownInv(disk.(logs := WithContent(disk.logs, i, Recovered(disk.logs[i].content))), hist)
  {
    hide DiskOk, Represents, Good, Replay, Recovered, ByName;
    var content := Recovered(disk.logs[i].content);
    RecoveryIsIdempotent(disk.logs[i].content);
    assert Replay(disk.logs[i].content) + [] == Replay(disk.logs[i].content);
    LogRewritten(disk, i, content, [], hist);
    assert hist + [] == hist;
    RewrittenByName(disk.logs, i, content);
  }

  lemma SaveKeeps(s: Recovery, blockSize: nat)
    requires RecoveryInv(s) && CanSave(s)
    ensures RecoveryInv(Saves(s, blockSize))
  {
    ReplayedRun(s.disk.logs[0].content);
    assert Table(s.stage.run, blockSize).Ok();
    hide DiskOk, Represents, AllGood, ByName, Replay, PutAll, Find, LastOf, Table.Ok, Unlisted, SameListed;
    TableWrittenSame(s.disk, Table(s.stage.run, blockSize), s.hist);
  }

  lemma ListSavedKeeps(s: Recovery)
    requires RecoveryInv(s) && CanListSaved(s)
    ensures RecoveryInv(ListsSaved(s))
  {
    assert Good(Replay(s.disk.logs[0].content));
    hide DiskOk, Represents, AllGood, Good, ByName, Replay, PutAll, Find, LastOf, Unlisted, Pushed, Absorbed, DiskFind;
    TableListedSame(s.disk, s.stage.table, 0, s.hist);
  }

  lemma RemoveOldestKeeps(s: Recovery)
    requires RecoveryInv(s) && CanRemoveOldest(s)
    ensures RecoveryInv(RemovesOldest(s))
  {
    if s.stage.Replayed? {
      NothingToAbsorb(s.disk);
    }
    FewerLogs(s.disk.logs);
    hide DiskOk, Represents, AllGood, ByName, Replay, PutAll, Absorbed;
    LogRemovedSame(s.disk, s.hist);
  }

  lemma FewerLogs(logs: seq<Log>)
    requires AllGood(logs) && ByName(logs) && logs != []
    ensures AllGood(logs[1..]) && ByName(logs[1..])
  {
    hide Good, Replay;
    TailByName(logs);
  }

  lemma NothingToAbsorb(disk: Disk)
    requires DiskOk(disk) && AllGood(disk.logs) && disk.logs != [] && PutAll(Replay(disk.logs[0].content)) == []
    ensures Absorbed(disk, disk.logs[0].content)
  {
    ReplayedRun(disk.logs[0].content);
    hide AllListed, DistinctIds, DisjointLevels, DiskFind, Replay, PutAll;
    assert forall key: Key :: Find([], key).None?;
  }

  // ----- The last log, or a new one -----

  lemma LoadedSame(disk: Disk)
    requires DiskOk(disk)
    ensures LevelsOk(disk.levels, Loaded(disk)) && SameListed(disk.levels, Loaded(disk), disk.files)
    ensures FilesBounded(Loaded(disk), disk.nextId)
  {
    hide LogsOk;
    var a := Loaded(disk);
    assert TablesOk(a);
    forall l | 0 <= l < |disk.levels|
      ensures SameTables(disk.levels[l], a, disk.files)
    {
      forall i | 0 <= i < |disk.levels[l]|
        ensures disk.levels[l][i] in a
      {
        assert disk.levels[l][i] in ListedIds(disk.levels);
      }
    }
    SameListedBack(disk.levels, a, disk.files);
    LevelsOkFrame(disk.levels, disk.files, a);
  }

  /** A freshly opened engine over a good disk. */
  lemma OpenedKeeps(s: Live)
    requires DownInv(s.disk, s.hist) && |s.disk.logs| == 1
    requires s.disk.logs[0].id == s.active.id && s.active.run == PutAll(Replay(s.disk.logs[0].content))
    requires s.imm.None? && s.inflight.None? && s.job.Idle? && s.shot == Snapshot(s.disk.levels, Loaded(s.disk))
    requires s.leaky == {} && s.orphans == {}
    ensures LiveInv(s)
  {
    LoadedSame(s.disk);
    ReplayedRun(s.disk.logs[0].content);
    OpenedView(s);
    BesidesNone(s.disk.logs, {});
    hide DiskOk, Represents, Refines, LevelsOk, Besides, SameListed, FilesBounded, Good, Replay, PutAll, Loaded,
         TableFormat.TableRun;
  }

  lemma OpenedView(s: Live)
    requires DownInv(s.disk, s.hist) && |s.disk.logs| == 1 && s.imm.None? && ShotOk(s) && Current(s)
    requires s.active.run == PutAll(Replay(s.disk.logs[0].content))
    ensures Refines(s)
  {
    assert s.disk.logs == [s.disk.logs[0]];
    WrittenOne(s.disk.logs[0]);
    hide AllListed, DistinctIds, DisjointLevels, TablesOk, FilesBounded, LogsOk, Current, DiskFind, Replay, PutAll,
         Written, LastOf, Find, ByName, Good;
    forall key: Key
      ensures Visible(Lookup(s, key)) == Visible(LastOf(s.hist, key))
    {
      assert Visible(DurableFind(s.disk, key)) == Visible(LastOf(s.hist, key));
      GoodRun(s.disk.logs[0].content, key);
      CurrentFind(s, key);
    }
  }

  lemma OpenLastKeeps(s: Recovery)
    requires RecoveryInv(s) && CanOpenLast(s)
    ensures LiveInv(OpensLast(s))
  {
    hide DownInv, Replay, PutAll, Recovered, Loaded, LiveInv;
    RecoverLog(s.disk, 0, s.hist);
    RecoveryIsIdempotent(s.disk.logs[0].content);
    OpenedKeeps(OpensLast(s));
  }

  lemma OpenFreshKeeps(s: Recovery)
    requires RecoveryInv(s) && CanOpenFresh(s)
    ensures LiveInv(OpensFresh(s))
  {
    EmptyLog();
    assert PutAll([]) == [];
    hide DiskOk, Represents, Replay, PutAll, Loaded, LiveInv;
    LogOpenedSame(s.disk, s.hist);
    OpenedKeeps(OpensFresh(s));
  }
}
