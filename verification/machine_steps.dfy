/** Every step of writing, rotating and flushing keeps the invariant. */
module MachineSteps {
  import opened Bytes
  import opened Entries
  import opened Runs
  import opened Upsert
  import opened Wal
  import opened Levels
  import opened TableFormat
  import opened Storage
  import opened DiskSteps
  import opened Compaction
  import opened Machine

  // ----- Parts of the invariant -----

  lemma LiveParts(s: Live)
    requires LiveInv(s)
    ensures DiskOk(s.disk) && ShotOk(s) && Refines(s) && MemsOk(s) && LogsHold(s) && JobOk(s)
  {
    hide DiskOk, LogsHold, ShotOk, JobOk, Refines, MemsOk;
  }

  // ----- The logs that are no orphans -----

  lemma {:induction false} BesidesConcat(a: seq<Log>, b: seq<Log>, ids: set<nat>)
    ensures Besides(a + b, ids) == Besides(a, ids) + Besides(b, ids)
  {
    if a == [] {
      assert a + b == b;
    } else {
      assert (a + b)[1..] == a[1..] + b;
      BesidesConcat(a[1..], b, ids);
    }
  }

  /** The last log stays the last. */
  lemma BesidesLast(logs: seq<Log>, ids: set<nat>)
    requires logs != [] && logs[|logs| - 1].id !in ids
    ensures Besides(logs, ids) == Besides(logs[..|logs| - 1], ids) + [logs[|logs| - 1]]
  {
    var n := |logs| - 1;
    assert logs == logs[..n] + [logs[n]] && [logs[n]][1..] == [];
    BesidesConcat(logs[..n], [logs[n]], ids);
  }

  lemma {:induction false} BesidesTwice(logs: seq<Log>, a: set<nat>, b: set<nat>)
    ensures Besides(logs, a + b) == Besides(Besides(logs, a), b)
  {
    if logs != [] {
      BesidesTwice(logs[1..], a, b);
      var head := if logs[0].id in a then [] else [logs[0]];
      BesidesConcat(head, Besides(logs[1..], a), b);
      assert head != [] ==> head[1..] == [];
    }
  }

  lemma {:induction false} BesidesMembers(logs: seq<Log>, ids: set<nat>)
    ensures forall log :: log in Besides(logs, ids) <==> log in logs && log.id !in ids
  {
    if logs != [] {
      BesidesMembers(logs[1..], ids);
      assert logs == [logs[0]] + logs[1..];
    }
  }

  lemma {:induction false} BesidesAscend(logs: seq<Log>, ids: set<nat>)
    requires LogsAscend(logs)
    ensures LogsAscend(Besides(logs, ids))
  {
    if logs != [] {
      BesidesAscend(logs[1..], ids);
      BesidesMembers(logs[1..], ids);
      var rest := Besides(logs[1..], ids);
      forall j | 0 <= j < |rest|
        ensures logs[0].id < rest[j].id
      {
        assert rest[j] in logs[1..];
      }
    }
  }

  lemma BesidesOk(logs: seq<Log>, ids: set<nat>, nextId: nat)
    requires LogsOk(logs, nextId)
    ensures LogsOk(Besides(logs, ids), nextId)
    ensures forall log :: log in Besides(logs, ids) ==> log.id !in ids
  {
    hide LogsAscend;
    BesidesAscend(logs, ids);
    BesidesMembers(logs, ids);
    forall i | 0 <= i < |Besides(logs, ids)|
      ensures Besides(logs, ids)[i].id < nextId
    {
      assert Besides(logs, ids)[i] in logs;
    }
  }

  lemma {:induction false} BesidesNone(logs: seq<Log>, ids: set<nat>)
    requires forall i :: 0 <= i < |logs| ==> logs[i].id !in ids
    ensures Besides(logs, ids) == logs
  {
    if logs != [] {
      BesidesNone(logs[1..], ids);
    }
  }

  lemma LogsCount(s: Live)
    requires LogsHold(s)
    ensures |OwnedLogs(s)| == Count(DroppedLog(s).Some?) + Count(s.imm.Some?) + 1
    ensures OwnedLogs(s)[|OwnedLogs(s)| - 1].id == s.active.id
    ensures s.imm.Some? ==> OwnedLogs(s)[|OwnedLogs(s)| - 2].id == s.imm.value.id
    ensures s.disk.logs != [] && s.disk.logs[|s.disk.logs| - 1].id == s.active.id
  {
    hide Good, Besides;
    BesidesLast(s.disk.logs, s.orphans);
  }

  /** The identifiers of the memtables were handed out, and are their own. */
  lemma OwnIds(s: Live)
    requires DiskOk(s.disk) && LogsHold(s)
    ensures s.active.id < s.disk.nextId && s.active.id !in s.orphans
    ensures s.imm.Some? ==>
      s.imm.value.id < s.disk.nextId && s.imm.value.id < s.active.id && s.imm.value.id !in s.orphans
  {
    hide LevelsOk, FilesBounded, Good, Besides;
    BesidesOk(s.disk.logs, s.orphans, s.disk.nextId);
  }

  lemma RowsThere(s: Live)
    requires LiveInv(s)
    ensures |s.disk.levels| == ROWS && DiskOk(s.disk) && ShotOk(s)
  {
    hide Refines, MemsOk, LogsHold, JobOk, AllListed, DistinctIds, DisjointLevels, TablesOk, LogsOk, FilesBounded;
  }

  /** What a flush in progress relies on. */
  lemma JobTaken(s: Live)
    requires DiskOk(s.disk) && LogsHold(s) && ShotOk(s) && JobOk(s)
    ensures Flushing(s.job) ==> TakenOk(s)
  {
    hide DiskOk, LogsHold, ShotOk, TakenOk;
  }

  // ----- What lookups read, against the disk -----

  lemma CurrentFind(s: Live, key: Key)
    requires DiskOk(s.disk) && ShotOk(s) && Current(s)
    ensures ShotFind(s, key) == DiskFind(s.disk.levels, s.disk.files, key)
  {
    hide AllListed, DistinctIds, DisjointLevels, TablesOk, LogsOk, FilesBounded, SameListed, DiskFind;
    DiskFindFrame(s.disk.levels, s.shot.readers, s.disk.files, key);
  }

  /** The jobs during which lookups read what the manifest lists. */
  lemma JobIsCurrent(s: Live)
    requires DiskOk(s.disk) && LogsHold(s) && ShotOk(s) && JobOk(s) && !s.job.Listed? && !s.job.Compacting?
    ensures Current(s)
  {
    hide DiskOk, LogsHold, ShotOk, Current, Absorbed, AllSaved, Unlisted, AllUnlisted, TakenOk;
  }

  lemma ListedIs(s: Live)
    requires DiskOk(s.disk) && LogsHold(s) && ShotOk(s) && JobOk(s) && s.job.Listed?
    ensures HoldsTaken(s, s.job.table) && Unlisted(s.shot.levels, s.job.table)
    ensures |s.shot.levels| == ROWS && s.disk.levels == Pushed(s.shot.levels, s.job.table)
    ensures SameListed(s.shot.levels, s.shot.readers, s.disk.files)
  {
    hide TakenOk, DiskOk, LogsHold, Unlisted, Pushed, SameListed, TablesOk, AllListed, DistinctIds, DisjointLevels;
  }

  lemma ListedFind(s: Live, key: Key)
    requires DiskOk(s.disk) && LogsHold(s) && ShotOk(s) && JobOk(s) && s.job.Listed?
    ensures DiskFind(s.disk.levels, s.disk.files, key) == NextFind(s, key)
  {
    ListedIs(s);
    hide AllListed, DistinctIds, DisjointLevels, LogsHold, JobOk, LogsOk, FilesBounded, SameListed, DiskFind, Pushed,
         Unlisted, TableFormat.TableRun;
    LevelsOkFrame(s.shot.levels, s.shot.readers, s.disk.files);
    DiskFindFrame(s.shot.levels, s.shot.readers, s.disk.files, key);
    PushedFind(s.shot.levels, s.disk.files, s.job.table, key);
  }

  lemma CompactingIs(s: Live)
    requires DiskOk(s.disk) && LogsHold(s) && ShotOk(s) && JobOk(s) && s.job.Compacting?
    ensures CompactingOk(s, s.job.done)
  {
    hide DiskOk, LogsHold, ShotOk, CompactingOk;
  }

  lemma CompactingView(s: Live, key: Key)
    requires DiskOk(s.disk) && LogsHold(s) && ShotOk(s) && JobOk(s) && s.job.Compacting?
    ensures Visible(DiskFind(s.disk.levels, s.disk.files, key)) == Visible(ShotFind(s, key))
  {
    CompactingIs(s);
    hide LogsHold, JobOk, AllListed, DistinctIds, DisjointLevels, TableFormat.TableRun, LogsOk, FilesBounded,
         SameListed, AllUnlisted, DiskFind;
  }

  // ----- What a step leaves alone -----

  /** Same job, tables and snapshot; what the job says of the first log still holds. */
  ghost predicate SameJob(s: Live, t: Live) {
    && t.job == s.job && t.shot == s.shot
    && t.disk.levels == s.disk.levels && t.disk.files == s.disk.files && t.disk.nextId >= s.disk.nextId
    && s.leaky <= t.leaky && DroppedLog(t) == DroppedLog(s)
    && (DroppedLog(s).Some? ==>
          OwnedLogs(s) != [] && OwnedLogs(t) != [] && OwnedLogs(t)[0].content == OwnedLogs(s)[0].content)
  }

  lemma ShotKept(s: Live, t: Live)
    requires ShotOk(s) && t.shot == s.shot && t.disk.nextId >= s.disk.nextId
    ensures ShotOk(t)
  {
    hide LevelsOk;
  }

  lemma JobKept(s: Live, t: Live)
    requires DiskOk(s.disk) && LogsHold(s) && ShotOk(s) && JobOk(s)
    requires SameJob(s, t) && DiskOk(t.disk) && LogsHold(t) && ShotOk(t)
    requires Flushing(t.job) ==> TakenOk(t)
    ensures JobOk(t)
  {
    hide AllListed, DistinctIds, DisjointLevels, TablesOk, LogsOk, LogsHold, SameListed, Unlisted, AllUnlisted,
         DiskFind, Replay, OwnedLogs, TakenOk, LastOf, Find;
  }

  /** What a flush relies on stays, as long as the memtables and the snapshot do. */
  lemma TakenKept(s: Live, t: Live)
    requires ShotOk(s) && Flushing(s.job) && TakenOk(s) && ShotOk(t) && Flushing(t.job)
    requires t.job.mem == s.job.mem && t.active == s.active && t.imm == s.imm && t.shot == s.shot
    requires s.orphans <= t.orphans
    ensures TakenOk(t)
  {
    hide LevelsOk, FilesBounded, DiskFind, Find;
    forall key: Key
      ensures MemFind(t, key) == MemFind(s, key) && Lookup(t, key) == Lookup(s, key)
      ensures NextFind(t, key) == NextFind(s, key)
    {
    }
  }

  lemma ShownSame(s: Live, key: Key)
    requires ShotOk(s) && Flushing(s.job) && TakenOk(s)
    ensures Visible(Or(MemFind(s, key), NextFind(s, key))) == Visible(Lookup(s, key))
  {
    hide ShotOk, MemFind, NextFind, Lookup, Find;
  }

  lemma SameRefines(s: Live, t: Live)
    requires ShotOk(s) && ShotOk(t) && Refines(s) && t.hist == s.hist
    requires forall key: Key :: Visible(Lookup(t, key)) == Visible(Lookup(s, key))
    ensures Refines(t)
  {
    hide LevelsOk, FilesBounded, Lookup, LastOf;
    forall key: Key
      ensures Visible(Lookup(t, key)) == Visible(LastOf(t.hist, key))
    {
      assert Visible(Lookup(s, key)) == Visible(LastOf(s.hist, key));
    }
  }

  lemma SameReads(s: Live, t: Live)
    requires ShotOk(s) && ShotOk(t) && Refines(s) && t.hist == s.hist
    requires t.active == s.active && t.imm == s.imm && t.shot == s.shot
    ensures Refines(t)
  {
    hide LevelsOk, FilesBounded, DiskFind, LastOf, Find;
    SameRefines(s, t);
  }

  // ----- Writing -----

  lemma BeginWriteKeeps(s: Live, e: Entry)
    requires LiveInv(s) && CanBeginWrite(s, e)
    ensures LiveInv(BeginsWrite(s, e))
  {
    var t := BeginsWrite(s, e);
    hide DiskOk, JobOk, ShotOk, Refines, LogsAre, Besides, TakenOk, Ascending;
    LogsCount(s);
    assert LogsHold(t);
    hide LogsHold;
    Unmoved(s, t);
  }

  /** Nothing has changed that lookups read or the job speaks of. */
  lemma Unmoved(s: Live, t: Live)
    requires LiveInv(s) && SameJob(s, t) && DiskOk(t.disk) && LogsHold(t) && t.hist == s.hist
    requires t.active == s.active && t.imm == s.imm && s.orphans <= t.orphans
    ensures ShotOk(t) && JobOk(t) && Refines(t)
  {
    hide DiskOk, JobOk, ShotOk, Refines, LogsHold, TakenOk, SameJob, Ascending;
    LiveParts(s);
    SameJobIs(s, t);
    ShotKept(s, t);
    SameReads(s, t);
    JobTaken(s);
    if Flushing(s.job) {
      TakenKept(s, t);
    }
    JobKept(s, t);
  }

  lemma SameJobIs(s: Live, t: Live)
    requires SameJob(s, t)
    ensures t.job == s.job && t.shot == s.shot && t.disk.nextId >= s.disk.nextId
  {
    hide Besides;
  }

  /** The log has one more frame, the memtable and the history one more entry. */
  lemma EndWriteKeeps(s: Live)
    requires LiveInv(s) && CanEndWrite(s)
    ensures LiveInv(EndsWrite(s))
  {
    var t := EndsWrite(s);
    hide DiskOk, Refines, JobOk, ShotOk, LogsHold, MemsOk, SameJob, EndsWrite, TakenOk, HandedOut;
    LiveParts(s);
    OwnIds(s);
    EndWriteDisk(s);
    EndWriteLogs(s);
    EndWriteSame(s);
    SameJobIs(s, t);
    ShotKept(s, t);
    JobTaken(s);
    EndWriteView(s);
    JobKept(s, t);
    EndWriteIds(s);
  }

  lemma WholeFrame(disk: Disk, e: Entry)
    requires disk.logs != []
    ensures TornDisk(disk, e, |Frame(e)|) ==
      disk.(logs := WithContent(disk.logs, |disk.logs| - 1, LastContent(disk) + Frame(e)))
  {
    hide Frame, WithContent;
    assert Frame(e)[..|Frame(e)|] == Frame(e);
  }

  lemma EndWriteIds(s: Live)
    requires CanEndWrite(s) && s.active.id < s.disk.nextId
    requires HandedOut(s.leaky, s.disk.nextId) && HandedOut(s.orphans, s.disk.nextId)
    ensures var t := EndsWrite(s);
      t.inflight.None? && HandedOut(t.leaky, t.disk.nextId) && HandedOut(t.orphans, t.disk.nextId)
  {
    hide GivesBack, Frame, WithContent, Put;
  }

  lemma EndWriteDisk(s: Live)
    requires DiskOk(s.disk) && CanEndWrite(s)
    ensures DiskOk(EndsWrite(s).disk)
  {
    hide LevelsOk, Frame, WithContent, GivesBack, Put, LogsOk;
    var f := Frame(s.inflight.value);
    RewrittenOk(s.disk.logs, s.disk.nextId, |s.disk.logs| - 1, LastContent(s.disk) + f[..|f|]);
  }

  lemma EndWriteSame(s: Live)
    requires LogsHold(s) && CanEndWrite(s)
    ensures SameJob(s, EndsWrite(s))
  {
    LogsCount(s);
    EndWriteOwned(s);
    hide LogsHold, Frame, GivesBack, Put, Besides;
  }

  /** Of the logs that are no orphans it is the last that gets the frame. */
  lemma EndWriteOwned(s: Live)
    requires LogsHold(s) && CanEndWrite(s)
    ensures OwnedLogs(EndsWrite(s)) ==
      WithContent(OwnedLogs(s), |OwnedLogs(s)| - 1, LastContent(s.disk) + Frame(s.inflight.value))
    ensures OwnedLogs(s)[|OwnedLogs(s)| - 1].content == LastContent(s.disk)
    ensures EndsWrite(s).disk.logs != []
    ensures EndsWrite(s).disk.logs[|EndsWrite(s).disk.logs| - 1].id !in EndsWrite(s).orphans
  {
    hide Frame, GivesBack, Put, LogsAre, Besides;
    var t, logs := EndsWrite(s), s.disk.logs;
    EndedIs(s);
    BesidesLast(logs, s.orphans);
    BesidesLast(t.disk.logs, s.orphans);
    assert t.disk.logs[..|logs| - 1] == logs[..|logs| - 1];
  }

  lemma EndWriteLogs(s: Live)
    requires LogsHold(s) && CanEndWrite(s) && s.inflight.value.key != []
    ensures LogsHold(EndsWrite(s))
  {
    hide Frame, Replay, Put, PutAll, Good, EndsWrite, GivesBack, LogsAre, Besides;
    var content, e, t := LastContent(s.disk), s.inflight.value, EndsWrite(s);
    EndedIs(s);
    EndWriteOwned(s);
    if s.active.id !in t.leaky {
      GivenBack(content, e);
    }
    LogsWritten(OwnedLogs(s), s.active, s.imm, DroppedLog(s), s.leaky, content + Frame(e), e, t.leaky);
  }

  lemma EndedIs(s: Live)
    requires CanEndWrite(s)
    ensures var t, e := EndsWrite(s), s.inflight.value;
      && t.disk.logs == WithContent(s.disk.logs, |s.disk.logs| - 1, LastContent(s.disk) + Frame(e))
      && t.active == s.active.(run := Put(s.active.run, e)) && t.imm == s.imm && t.job == s.job && s.leaky <= t.leaky
      && t.orphans == s.orphans && (s.active.id !in t.leaky ==> GivesBack(LastContent(s.disk), e))
  {
    hide Frame, GivesBack, Put, WithContent, LastContent;
    WholeFrame(s.disk, s.inflight.value);
  }

  lemma GivenBack(content: seq<byte>, e: Entry)
    requires GivesBack(content, e) && e.key != []
    ensures Good(Replay(content + Frame(e))) && PutAll(Replay(content + Frame(e))) == Put(PutAll(Replay(content)), e)
  {
    hide Frame, Replay, Put, PutAll, Good, Loggable;
    AppendFrame(content, e);
    PutAllOneMore(Replay(content), e);
  }

  lemma PutAllOneMore(log: seq<Entry>, e: Entry)
    ensures PutAll(log + [e]) == Put(PutAll(log), e)
  {
    assert (log + [e])[..|log|] == log;
  }

  lemma LogsWritten(logs: seq<Log>, active: Mem, imm: Option<Mem>, dropped: Option<nat>, leaky: set<nat>,
                    content: seq<byte>, e: Entry, leaky': set<nat>)
    requires LogsAre(logs, active, imm, dropped, leaky) && leaky <= leaky'
    requires active.id !in leaky' ==>
      Good(Replay(content)) && PutAll(Replay(content)) == Put(PutAll(Replay(logs[|logs| - 1].content)), e)
    ensures LogsAre(WithContent(logs, |logs| - 1, content), active.(run := Put(active.run, e)), imm, dropped, leaky')
  {
    hide Good, Replay, Put, PutAll;
  }

  /** The memtable's map is updated as the history's is; the entry hides what a flush may change below. */
  lemma EndWriteView(s: Live)
    requires CanEndWrite(s) && ShotOk(s) && ShotOk(EndsWrite(s)) && Refines(s) && MemsOk(s)
    requires Flushing(s.job) ==> TakenOk(s)
    ensures MemsOk(EndsWrite(s)) && Refines(EndsWrite(s))
    ensures Flushing(s.job) ==> TakenOk(EndsWrite(s))
  {
    var t, e := EndsWrite(s), s.inflight.value;
    hide LevelsOk, FilesBounded, Frame, WithContent, GivesBack, DiskFind, Find, Put, Ascending;
    PutIsMapUpdate(s.active.run, e);
    assert (s.hist + [e])[..|s.hist|] == s.hist;
    forall key: Key
      ensures Visible(Lookup(t, key)) == Visible(LastOf(t.hist, key))
    {
      assert Visible(Lookup(s, key)) == Visible(LastOf(s.hist, key));
    }
    if Flushing(s.job) {
      forall key: Key
        ensures Visible(Or(MemFind(t, key), NextFind(t, key))) == Visible(Lookup(t, key))
        ensures Visible(Or(Find(t.active.run, key), NextFind(t, key))) == Visible(Lookup(t, key))
      {
        assert Visible(Or(MemFind(s, key), NextFind(s, key))) == Visible(Lookup(s, key));
      }
    }
  }

  // ----- Rotation -----

  /** The active memtable becomes the immutable one; there is none. */
  lemma RotateKeeps(s: Live)
    requires LiveInv(s) && CanRotate(s)
    ensures LiveInv(Rotates(s)) && RotatesAnyway(s) == Rotates(s)
  {
    hide LiveInv, ShotOk, NothingToLose, Repeats;
    LiveParts(s);
    assert s.orphans + {} == s.orphans;
    SafeRotationKeeps(s);
  }

  /** Rotating keeps the invariant when nothing is lost by it, now or once a flush in progress is through. */
  lemma SafeRotationKeeps(s: Live)
    requires LiveInv(s) && s.inflight.None? && ShotOk(s) && SafeToRotate(s)
    ensures LiveInv(RotatesAnyway(s))
  {
    var t := RotatesAnyway(s);
    hide DiskOk, Refines, JobOk, ShotOk, LogsHold, SameJob, Less, TakenOk, SafeToRotate, Besides;
    LiveParts(s);
    LogOpenedOk(s.disk);
    OwnIds(s);
    JobTaken(s);
    RotateLogs(s);
    ShotKept(s, t);
    RotateView(s);
    JobKept(s, t);
  }

  /** Whatever it drops, a rotation leaves the logs as the memtables need them. */
  lemma RotateLogs(s: Live)
    requires DiskOk(s.disk) && LogsHold(s) && HandedOut(s.leaky, s.disk.nextId) && HandedOut(s.orphans, s.disk.nextId)
    ensures LogsHold(RotatesAnyway(s)) && SameJob(s, RotatesAnyway(s))
  {
    hide Good, Replay, Besides, LevelsOk, FilesBounded;
    var t, logs, now := RotatesAnyway(s), OwnedLogs(s), Log(s.disk.nextId, []);
    OwnIds(s);
    BesidesOk(s.disk.logs, s.orphans, s.disk.nextId);
    BesidesLast(t.disk.logs, t.orphans);
    assert t.disk.logs[..|s.disk.logs|] == s.disk.logs;
    BesidesTwice(s.disk.logs, s.orphans, ImmId(s.imm));
    WithoutImm(logs, s.imm);
    EmptyLog();
  }

  /** The log of the immutable memtable is the last but one. */
  lemma WithoutImm(logs: seq<Log>, imm: Option<Mem>)
    requires LogsAscend(logs) && (imm.Some? ==> |logs| >= 2 && logs[|logs| - 2].id == imm.value.id)
    ensures Besides(logs, ImmId(imm)) == if imm.None? then logs else logs[..|logs| - 2] + [logs[|logs| - 1]]
  {
    hide Besides;
    if imm.None? {
      BesidesNone(logs, {});
    } else {
      var n := |logs| - 2;
      WithoutPlace(logs, n);
      assert logs[n + 1..] == [logs[n + 1]];
    }
  }

  lemma {:induction false} WithoutPlace(logs: seq<Log>, n: nat)
    requires LogsAscend(logs) && n < |logs|
    ensures Besides(logs, {logs[n].id}) == logs[..n] + logs[n + 1..]
  {
    var rest := logs[1..];
    if n == 0 {
      BesidesNone(rest, {logs[0].id});
    } else {
      WithoutPlace(rest, n - 1);
      assert rest[n - 1] == logs[n] && logs[0].id != logs[n].id;
      assert logs[..n] == [logs[0]] + rest[..n - 1] && rest[n..] == logs[n + 1..];
    }
  }

  /** The dropped memtable has nothing to lose: the others and the tables answer alike. */
  lemma RotationView(s: Live, key: Key)
    requires ShotOk(s) && ShotOk(RotatesAnyway(s)) && NothingToLose(ImmRun(s.imm), s.active.run, s)
    ensures Visible(Lookup(RotatesAnyway(s), key)) == Visible(Lookup(s, key))
  {
    hide LevelsOk, FilesBounded, DiskFind;
    var found := Find(ImmRun(s.imm), key);
    assert found.Some? ==> found.value in ImmRun(s.imm) && found.value.key == key;
  }

  lemma NothingInNone(s: Live)
    requires ShotOk(s) && SafeToRotate(s)
    ensures NothingToLose(ImmRun(s.imm), s.active.run, s)
  {
    hide LevelsOk, FilesBounded, ShotFind, Find, Repeats;
  }

  lemma RotateView(s: Live)
    requires ShotOk(s) && ShotOk(RotatesAnyway(s)) && Refines(s) && SafeToRotate(s)
    requires Flushing(s.job) ==> TakenOk(s)
    requires s.active.id !in s.orphans && (s.imm.Some? ==> s.imm.value.id < s.active.id)
    ensures Refines(RotatesAnyway(s))
    ensures Flushing(s.job) ==> TakenOk(RotatesAnyway(s))
  {
    var t := RotatesAnyway(s);
    hide LevelsOk, FilesBounded, DiskFind, LastOf, Lookup, Refines, TakenOk, NothingToLose, Repeats;
    NothingInNone(s);
    forall key: Key
      ensures Visible(Lookup(t, key)) == Visible(Lookup(s, key))
    {
      RotationView(s, key);
    }
    SameRefines(s, t);
    if Flushing(s.job) {
      RotateTaken(s);
    }
  }

  lemma RotateTaken(s: Live)
    requires ShotOk(s) && ShotOk(RotatesAnyway(s)) && Flushing(s.job) && TakenOk(s) && SafeToRotate(s)
    requires s.active.id !in s.orphans && (s.imm.Some? ==> s.imm.value.id < s.active.id)
    requires forall key: Key :: Visible(Lookup(RotatesAnyway(s), key)) == Visible(Lookup(s, key))
    ensures TakenOk(RotatesAnyway(s))
  {
    var t := RotatesAnyway(s);
    hide LevelsOk, FilesBounded, DiskFind, LastOf, NothingToLose;
    forall key: Key
      ensures Visible(Or(MemFind(t, key), NextFind(t, key))) == Visible(Lookup(t, key))
      ensures Visible(Or(Find(t.active.run, key), NextFind(t, key))) == Visible(Lookup(t, key))
    {
      assert Visible(Lookup(t, key)) == Visible(Lookup(s, key));
      var found := Find(s.active.run, key);
      assert found.Some? ==> found.value in s.active.run && found.value.key == key;
    }
  }

  lemma BurnIdKeeps(s: Live)
    requires LiveInv(s)
    ensures LiveInv(BurnsId(s))
  {
    var t := BurnsId(s);
    hide AllListed, DistinctIds, DisjointLevels, TablesOk, LogsAscend, JobOk, Refines, LogsAre, Besides, TakenOk,
         Ascending;
    LogsCount(s);
    assert DiskOk(t.disk) && LogsHold(t);
    hide LevelsOk, LogsOk, FilesBounded, LogsHold;
    Unmoved(s, t);
  }

  // ----- Flushing -----

  /** Memtables and logs stay, and no dropped memtable comes or goes. */
  ghost predicate SameMems(s: Live, t: Live) {
    && t.disk.logs == s.disk.logs && t.active == s.active && t.imm == s.imm && t.leaky == s.leaky
    && t.orphans == s.orphans && t.inflight == s.inflight && t.hist == s.hist && !s.job.Dropped? && !t.job.Dropped?
    && t.disk.nextId >= s.disk.nextId
    && (Flushing(t.job) ==> if Flushing(s.job) then t.job.mem == s.job.mem else t.job.mem.run == ImmRun(s.imm))
  }

  lemma LogsKept(s: Live, t: Live)
    requires SameMems(s, t) && LogsHold(s)
    ensures LogsHold(t)
  {
    hide LogsAre, Besides;
  }

  /** Nothing but the tables, the snapshot and the job has changed. */
  lemma FlushStepKeeps(s: Live, t: Live)
    requires LiveInv(s) && SameMems(s, t) && DiskOk(t.disk) && ShotOk(t) && Refines(t)
    requires LogsHold(t) ==> JobOk(t)
    ensures LiveInv(t)
  {
    hide DiskOk, Refines, JobOk, ShotOk, LogsHold, Ascending;
    LogsKept(s, t);
  }

  /** A flush begins; nothing moves, so what it takes and what stands there are the same. */
  lemma TakeImmKeeps(s: Live)
    requires LiveInv(s) && CanTake(s)
    ensures LiveInv(Takes(s))
  {
    var t := Takes(s);
    hide DiskOk, Refines, LogsHold, ShotOk, JobOk, Current, MemsOk, TakenOk;
    LiveParts(s);
    JobIsCurrent(s);
    ShotKept(s, t);
    TakenAtFirst(s);
    JobTakenIs(s, t);
    SameReads(s, t);
    FlushStepKeeps(s, t);
  }

  lemma JobTakenIs(s: Live, t: Live)
    requires t == s.(job := t.job) && t.job.Taken? && DiskOk(t.disk) && ShotOk(t) && ShotOk(s) && Current(s)
    requires TakenOk(t)
    ensures LogsHold(t) ==> JobOk(t)
  {
    hide DiskOk, ShotOk, SameListed, TakenOk, LogsHold;
  }

  lemma TakenAtFirst(s: Live)
    requires CanTake(s) && ShotOk(Takes(s))
    ensures TakenOk(Takes(s))
  {
    var t := Takes(s);
    hide LevelsOk, FilesBounded, DiskFind, Find;
    forall key: Key
      ensures Or(MemFind(t, key), NextFind(t, key)) == Lookup(t, key)
      ensures Or(Find(t.active.run, key), NextFind(t, key)) == Lookup(t, key)
    {
    }
  }

  lemma BuildTableKeeps(s: Live, blockSize: nat)
    requires LiveInv(s) && CanBuild(s) && AllStorable(s.job.mem.run)
    ensures LiveInv(Builds(s, blockSize))
  {
    var t := Builds(s, blockSize);
    JobIsCurrent(s);
    assert Table(s.job.mem.run, blockSize).Ok();
    hide DiskOk, Refines, LogsHold, ShotOk, JobOk, Current, MemsOk, TakenOk;
    JobTaken(s);
    BuildTableDisk(s, blockSize);
    SameReads(s, t);
    FlushStepKeeps(s, t);
  }

  lemma BuildTableDisk(s: Live, blockSize: nat)
    requires DiskOk(s.disk) && CanBuild(s) && ShotOk(s) && Current(s) && TakenOk(s)
    requires Table(s.job.mem.run, blockSize).Ok()
    ensures var t := Builds(s, blockSize); DiskOk(t.disk) && ShotOk(t) && (LogsHold(t) ==> JobOk(t))
  {
    var t := Builds(s, blockSize);
    hide DiskOk, LevelsOk, LogsHold, Table.Ok, TakenOk;
    TableWrittenOk(s.disk, Table(s.job.mem.run, blockSize));
    TakenKept(s, t);
    hide Unlisted, SameListed;
    SameTablesTwice(s.disk.levels, s.shot.readers, s.disk.files, t.disk.files);
  }

  lemma SameTablesTwice(levels: LevelLists, a: Tables, b: Tables, c: Tables)
    requires SameListed(levels, a, b) && SameListed(levels, b, c)
    ensures SameListed(levels, a, c)
  {
  }

  lemma SkipEmptyKeeps(s: Live)
    requires LiveInv(s) && CanSkip(s)
    ensures LiveInv(Skips(s))
  {
    var t := Skips(s);
    JobIsCurrent(s);
    hide DiskOk, LevelsOk, Refines, LogsHold, ShotOk, SameListed, DiskFind, MemsOk, TakenOk, Lookup, NextFind;
    JobTaken(s);
    ShotKept(s, t);
    TakenKept(s, t);
    assert AllSaved(s.disk, []);
    SameReads(s, t);
    FlushStepKeeps(s, t);
  }

  lemma ListTableKeeps(s: Live)
    requires LiveInv(s) && CanList(s)
    ensures LiveInv(Lists(s))
  {
    var t := Lists(s);
    hide DiskOk, Refines, LogsHold, ShotOk, MemsOk, Current, Unlisted, TakenOk;
    LiveParts(s);
    ListTableDisk(s);
    hide JobOk;
    SameReads(s, t);
    FlushStepKeeps(s, t);
  }

  lemma ListTableDisk(s: Live)
    requires DiskOk(s.disk) && CanList(s) && ShotOk(s) && TakenOk(s)
    requires Current(s) && HoldsTaken(s, s.job.table) && Unlisted(s.disk.levels, s.job.table)
    ensures DiskOk(Lists(s).disk) && ShotOk(Lists(s))
    ensures LogsHold(Lists(s)) ==> JobOk(Lists(s))
  {
    hide DiskOk, LevelsOk, LogsHold, DiskFind, Find, Pushed, Unlisted, SameListed, TakenOk;
    TableListedFind(s.disk, s.job.table);
    TakenKept(s, Lists(s));
  }

  /** A table comes into view: lookups answer as they did. */
  lemma ShowTableKeeps(s: Live)
    requires LiveInv(s) && CanShow(s)
    ensures LiveInv(Shows(s))
  {
    var t := Shows(s);
    hide DiskOk, Refines, LogsHold, ShotOk, MemsOk, JobOk, Current, TakenOk;
    LiveParts(s);
    JobTaken(s);
    ShownTables(s);
    ShownView(s);
    ShownJob(s);
    FlushStepKeeps(s, t);
  }

  lemma ShownTables(s: Live)
    requires DiskOk(s.disk) && LogsHold(s) && ShotOk(s) && JobOk(s) && CanShow(s)
    ensures ShotOk(Shows(s)) && Current(Shows(s))
  {
    var readers := s.shot.readers[s.job.table := s.disk.files[s.job.table]];
    ListedIs(s);
    assert TablesOk(readers);
    hide LogsHold, JobOk, AllListed, DistinctIds, DisjointLevels, SameListed, Pushed, Unlisted, LogsOk,
         TableFormat.TableRun;
    PushedListed(s.shot.levels, s.shot.readers, s.disk.files, s.job.table);
    SameListedBack(s.disk.levels, readers, s.disk.files);
    LevelsOkFrame(s.disk.levels, s.disk.files, readers);
  }

  lemma PushedListed(levels: LevelLists, readers: Tables, files: Tables, id: nat)
    requires |levels| == ROWS && Unlisted(levels, id) && SameListed(levels, readers, files) && id in files
    ensures SameListed(Pushed(levels, id), readers[id := files[id]], files)
  {
    var now, open := Pushed(levels, id), readers[id := files[id]];
    forall l | 0 <= l < |now|
      ensures SameTables(now[l], open, files)
    {
      assert SameTables(levels[l], readers, files) && id !in levels[l];
    }
  }

  lemma SameListedBack(levels: LevelLists, a: Tables, b: Tables)
    requires SameListed(levels, a, b)
    ensures SameListed(levels, b, a)
  {
  }

  /** The run of the shown table is the one that was taken. */
  lemma ShownFind(s: Live, key: Key)
    requires DiskOk(s.disk) && LogsHold(s) && ShotOk(s) && JobOk(s) && CanShow(s)
    requires ShotOk(Shows(s)) && Current(Shows(s))
    ensures ShotFind(Shows(s), key) == NextFind(s, key)
    ensures DiskFind(s.disk.levels, s.disk.files, key) == ShotFind(Shows(s), key)
  {
    hide DiskOk, LogsHold, ShotOk, JobOk, Current, DiskFind;
    ListedFind(s, key);
    CurrentFind(Shows(s), key);
  }

  lemma ShownJob(s: Live)
    requires DiskOk(s.disk) && LogsHold(s) && ShotOk(s) && JobOk(s) && CanShow(s)
    requires ShotOk(Shows(s)) && Current(Shows(s)) && TakenOk(Shows(s))
    ensures LogsHold(Shows(s)) ==> JobOk(Shows(s))
  {
    hide AllListed, DistinctIds, DisjointLevels, TableFormat.TableRun, LogsOk, FilesBounded, LogsHold, JobOk, Current,
         DiskFind, Find, TakenOk;
    forall key: Key | Find(s.job.mem.run, key).Some?
      ensures DiskFind(s.disk.levels, s.disk.files, key) == Find(s.job.mem.run, key)
    {
      ShownFind(s, key);
    }
    JobShown(Shows(s));
  }

  lemma JobShown(t: Live)
    requires DiskOk(t.disk) && ShotOk(t) && t.job.Shown? && Current(t) && TakenOk(t) && AllSaved(t.disk, t.job.mem.run)
    ensures LogsHold(t) ==> JobOk(t)
  {
    hide DiskOk, ShotOk, Current, AllSaved, LogsHold, TakenOk;
  }

  lemma ShownView(s: Live)
    requires DiskOk(s.disk) && LogsHold(s) && ShotOk(s) && JobOk(s) && CanShow(s) && Refines(s) && TakenOk(s)
    requires ShotOk(Shows(s)) && Current(Shows(s))
    ensures Refines(Shows(s)) && TakenOk(Shows(s))
  {
    var t := Shows(s);
    hide DiskOk, LevelsOk, FilesBounded, LogsHold, JobOk, Current, DiskFind, Find, Refines;
    forall key: Key
      ensures Visible(Lookup(t, key)) == Visible(Lookup(s, key))
      ensures Visible(Or(MemFind(t, key), NextFind(t, key))) == Visible(Lookup(t, key))
      ensures Visible(Or(Find(t.active.run, key), NextFind(t, key))) == Visible(Lookup(t, key))
    {
      ShownFind(s, key);
      assert Visible(Or(MemFind(s, key), NextFind(s, key))) == Visible(Lookup(s, key));
    }
    SameRefines(s, t);
  }

  /** The immutable memtable goes, whichever it is: what was taken is in the tables, and the rest repeats it. */
  lemma DropImmKeeps(s: Live)
    requires LiveInv(s) && CanDrop(s)
    ensures LiveInv(Drops(s))
  {
    var t := Drops(s);
    hide DiskOk, ShotOk, Refines, LogsHold, JobOk, Ascending, TakenOk, OwnedLogs;
    LiveParts(s);
    JobTaken(s);
    OwnIds(s);
    DropImmSaved(s);
    TakenIds(s);
    DropImmLogs(s);
    ShotKept(s, t);
    DropImmJob(s);
    DropImmView(s);
  }

  lemma TakenIds(s: Live)
    requires ShotOk(s) && Flushing(s.job) && TakenOk(s)
    ensures s.imm.Some? && (s.imm.value == s.job.mem || (s.job.mem.id in s.orphans && s.job.mem.id != s.imm.value.id))
  {
    hide ShotOk, Lookup, MemFind, NextFind, Find;
  }

  lemma DropImmSaved(s: Live)
    requires DiskOk(s.disk) && LogsHold(s) && ShotOk(s) && JobOk(s) && CanDrop(s)
    ensures Current(s) && AllSaved(s.disk, s.job.mem.run)
  {
    hide DiskOk, LogsHold, ShotOk, Current, AllSaved, TakenOk;
  }

  lemma DropImmLogs(s: Live)
    requires DiskOk(s.disk) && LogsHold(s) && CanDrop(s) && s.imm.Some? && s.imm.value.id !in s.orphans
    requires s.imm.value.id < s.active.id
    requires s.imm.value == s.job.mem || (s.job.mem.id in s.orphans && s.job.mem.id != s.imm.value.id)
    ensures LogsHold(Drops(s)) && OwnedLogs(Drops(s)) != []
    ensures DroppedLog(Drops(s)).Some? ==> s.imm.value == s.job.mem
    ensures s.imm.value == s.job.mem && s.job.mem.id !in s.leaky ==>
      Good(Replay(OwnedLogs(Drops(s))[0].content)) && s.job.mem.run == PutAll(Replay(OwnedLogs(Drops(s))[0].content))
  {
    hide Good, Replay, PutAll, LevelsOk, FilesBounded, Besides;
    var t, logs := Drops(s), OwnedLogs(s);
    LogsCount(s);
    BesidesOk(s.disk.logs, s.orphans, s.disk.nextId);
    if s.imm.value == s.job.mem {
      assert t.orphans == s.orphans;
    } else {
      assert ImmId(s.imm) - {s.job.mem.id} == ImmId(s.imm);
      BesidesTwice(s.disk.logs, s.orphans, ImmId(s.imm));
      WithoutImm(logs, s.imm);
      assert logs[..0] == [];
    }
  }

  lemma DropImmJob(s: Live)
    requires DiskOk(s.disk) && CanDrop(s) && ShotOk(Drops(s)) && Current(s) && AllSaved(s.disk, s.job.mem.run)
    requires LogsHold(Drops(s)) && OwnedLogs(Drops(s)) != []
    requires DroppedLog(Drops(s)).Some? && s.job.mem.id !in s.leaky ==>
      Good(Replay(OwnedLogs(Drops(s))[0].content)) && s.job.mem.run == PutAll(Replay(OwnedLogs(Drops(s))[0].content))
    ensures JobOk(Drops(s))
  {
    hide DiskOk, LogsHold, SameListed, AllSaved, Absorbed, Replay, PutAll, Good, Besides, LevelsOk, FilesBounded;
    var t := Drops(s);
    DiskOkLevels(t.disk);
    if DroppedLog(t).Some? && s.job.mem.id !in s.leaky {
      SavedIsAbsorbed(s.disk, s.job.mem.run, OwnedLogs(t)[0].content);
    }
  }

  lemma DiskOkLevels(disk: Disk)
    requires DiskOk(disk)
    ensures LevelsOk(disk.levels, disk.files)
  {
    hide LevelsOk, LogsOk;
  }

  /** Saving what a log replays to absorbs the log. */
  lemma SavedIsAbsorbed(disk: Disk, run: seq<Entry>, content: seq<byte>)
    requires DiskOk(disk) && AllSaved(disk, run) && Good(Replay(content)) && run == PutAll(Replay(content))
    ensures LevelsOk(disk.levels, disk.files) && Absorbed(disk, content)
  {
    hide AllListed, DistinctIds, DisjointLevels, TablesOk, FilesBounded, LogsOk, DiskFind, Replay, PutAll, LastOf, Find,
         Good;
    ReplayedRun(content);
  }

  lemma DropImmView(s: Live)
    requires DiskOk(s.disk) && ShotOk(s) && CanDrop(s) && Current(s) && AllSaved(s.disk, s.job.mem.run) && TakenOk(s)
    requires ShotOk(Drops(s)) && Refines(s)
    ensures Refines(Drops(s))
  {
    hide AllListed, DistinctIds, DisjointLevels, TablesOk, FilesBounded, LogsOk, Current, DiskFind, Find, Refines;
    forall key: Key
      ensures Visible(Lookup(Drops(s), key)) == Visible(Lookup(s, key))
    {
      CurrentFind(s, key);
      assert Visible(Or(Find(s.active.run, key), NextFind(s, key))) == Visible(Lookup(s, key));
    }
    SameRefines(s, Drops(s));
  }

  lemma RemoveLogKeeps(s: Live)
    requires LiveInv(s) && CanRemoveLog(s)
    ensures LiveInv(RemovesLog(s))
  {
    var t := RemovesLog(s);
    hide DiskOk, ShotOk, Refines, LogsHold, JobOk, Besides, Ascending;
    LiveParts(s);
    RemoveLogLogs(s);
    RemoveLogDisk(s);
    JobIsCurrent(s);
    RemoveLogJob(s);
    SameReads(s, t);
  }

  lemma RemoveLogLogs(s: Live)
    requires DiskOk(s.disk) && LogsHold(s) && CanRemoveLog(s)
    ensures LogsHold(RemovesLog(s))
  {
    hide LevelsOk, FilesBounded, LogsAre, Besides;
    BesidesOk(s.disk.logs, s.orphans, s.disk.nextId);
    NotTheActive(s, OwnedLogs(s));
    LastStays(s);
    if DroppedLog(s).Some? {
      FirstGone(OwnedLogs(s), s.active, s.imm, s.job.log, s.leaky);
    } else {
      BesidesNone(OwnedLogs(s), {s.job.log});
    }
  }

  /** The log that goes is no memtable's. */
  lemma NotTheActive(s: Live, logs: seq<Log>)
    requires LogsAre(logs, s.active, s.imm, DroppedLog(s), s.leaky) && LogsAscend(logs) && CanRemoveLog(s)
    requires forall log :: log in logs ==> log.id !in s.orphans
    ensures s.active.id != s.job.log
    ensures DroppedLog(s).None? ==> forall i :: 0 <= i < |logs| ==> logs[i].id != s.job.log
  {
    hide Good, Replay, PutAll, Besides;
    assert logs[|logs| - 1] in logs;
  }

  lemma LastStays(s: Live)
    requires LogsHold(s) && CanRemoveLog(s) && s.active.id != s.job.log
    ensures OwnedLogs(RemovesLog(s)) == Besides(OwnedLogs(s), {s.job.log})
    ensures var logs := RemovesLog(s).disk.logs; logs != [] && logs[|logs| - 1].id !in s.orphans
  {
    hide LogsAre, Besides;
    var gone := {s.job.log};
    LogsCount(s);
    BesidesLast(s.disk.logs, gone);
    BesidesTwice(s.disk.logs, s.orphans, gone);
    BesidesTwice(s.disk.logs, gone, s.orphans);
    assert gone + s.orphans == s.orphans + gone;
  }

  lemma FirstGone(logs: seq<Log>, active: Mem, imm: Option<Mem>, dropped: nat, leaky: set<nat>)
    requires LogsAre(logs, active, imm, Some(dropped), leaky) && LogsAscend(logs)
    ensures LogsAre(Besides(logs, {dropped}), active, imm, None, leaky)
  {
    hide Good, Replay, PutAll, Besides;
    FirstRemoved(logs);
  }

  lemma FirstRemoved(logs: seq<Log>)
    requires LogsAscend(logs) && logs != []
    ensures Besides(logs, {logs[0].id}) == logs[1..]
  {
    BesidesNone(logs[1..], {logs[0].id});
  }

  lemma RemoveLogDisk(s: Live)
    requires DiskOk(s.disk) && CanRemoveLog(s)
    ensures DiskOk(RemovesLog(s).disk)
  {
    hide LevelsOk, Besides, LogsOk;
    BesidesOk(s.disk.logs, {s.job.log}, s.disk.nextId);
  }

  lemma RemoveLogJob(s: Live)
    requires ShotOk(s) && Current(s) && CanRemoveLog(s) && DiskOk(RemovesLog(s).disk) && LogsHold(RemovesLog(s))
    ensures ShotOk(RemovesLog(s)) && JobOk(RemovesLog(s))
  {
    hide DiskOk, LogsHold, LevelsOk, SameListed, Besides;
  }
}
