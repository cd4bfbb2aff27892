/**
 What survives a crash: the manifest's levels, the table files, the identifier counter and the
 write-ahead logs (pkg/lsm/engine.go, `Open` and `recoverWAL`).
 */
module Storage {
  import opened Bytes
  import opened Entries
  import opened Runs
  import opened Upsert
  import opened Wal
  import opened Levels
  import Compaction
  import TableFormat

  datatype Log = Log(id: nat, content: seq<byte>)

  /** The logs are listed in the order in which they were opened. */
  datatype Disk = Disk(levels: LevelLists, files: Tables, nextId: nat, logs: seq<Log>)

  /** The entries that replaying the logs one after the other would apply. */
  function Written(logs: seq<Log>): seq<Entry> {
    if logs == [] then [] else Replay(logs[0].content) + Written(logs[1..])
  }

  /** What the store would find for a key after recovering from this disk. */
  function DurableFind(disk: Disk, key: Key): Option<Entry>
    requires LevelsOk(disk.levels, disk.files)
  {
    Or(LastOf(Written(disk.logs), key), DiskFind(disk.levels, disk.files, key))
  }

  /** The disk holds the map that the history of writes describes. */
  ghost predicate Represents(disk: Disk, hist: seq<Entry>)
    requires LevelsOk(disk.levels, disk.files)
  {
    forall key: Key :: Visible(DurableFind(disk, key)) == Visible(LastOf(hist, key))
  }

  /** Entries the store logs and gets back: with a key, and small enough for recovery. */
  predicate Good(es: seq<Entry>) {
    forall e :: e in es ==> Loggable(e) && e.key != []
  }

  /** A log made of whole frames. */
  ghost predicate Clean(content: seq<byte>) {
    Good(Replay(content)) && content == Frames(Replay(content))
  }

  ghost predicate AllGood(logs: seq<Log>) {
    forall i :: 0 <= i < |logs| ==> Good(Replay(logs[i].content))
  }

  ghost predicate LogsAscend(logs: seq<Log>) {
    forall i, j :: 0 <= i < j < |logs| ==> logs[i].id < logs[j].id
  }

  ghost predicate LogsOk(logs: seq<Log>, nextId: nat) {
    LogsAscend(logs) && forall i :: 0 <= i < |logs| ==> logs[i].id < nextId
  }

  ghost predicate FilesBounded(files: Tables, nextId: nat) {
    forall id :: id in files ==> id < nextId
  }

  ghost predicate DiskOk(disk: Disk) {
    LevelsOk(disk.levels, disk.files) && FilesBounded(disk.files, disk.nextId) && LogsOk(disk.logs, disk.nextId)
  }

  /** Whatever the log would replay, the tables show already. */
  ghost predicate Absorbed(disk: Disk, content: seq<byte>)
    requires LevelsOk(disk.levels, disk.files)
  {
    forall key: Key :: LastOf(Replay(content), key).Some? ==>
      DiskFind(disk.levels, disk.files, key) == LastOf(Replay(content), key)
  }

  // ----- Histories -----

  lemma {:induction false} LastOfConcat(a: seq<Entry>, b: seq<Entry>, key: Key)
    ensures LastOf(a + b, key) == Or(LastOf(b, key), LastOf(a, key))
  {
    if b == [] {
      assert a + b == a;
    } else {
      assert (a + b)[..|a + b| - 1] == a + b[..|b| - 1];
      LastOfConcat(a, b[..|b| - 1], key);
    }
  }

  lemma {:induction false} WrittenConcat(a: seq<Log>, b: seq<Log>)
    ensures Written(a + b) == Written(a) + Written(b)
  {
    if a == [] {
      assert a + b == b;
    } else {
      assert (a + b)[1..] == a[1..] + b;
      WrittenConcat(a[1..], b);
    }
  }

  lemma WrittenOne(log: Log)
    ensures Written([log]) == Replay(log.content)
  {
    assert Written([log][1..]) == [];
    assert Replay(log.content) + [] == Replay(log.content);
  }

  /** Only the last write of a key counts, so the latest log that has it decides. */
  lemma LastWritten(logs: seq<Log>, key: Key)
    requires logs != []
    ensures LastOf(Written(logs), key) ==
      Or(LastOf(Replay(logs[|logs| - 1].content), key), LastOf(Written(logs[..|logs| - 1]), key))
    ensures LastOf(Written(logs), key) ==
      Or(LastOf(Written(logs[1..]), key), LastOf(Replay(logs[0].content), key))
  {
    var n := |logs| - 1;
    assert logs == logs[..n] + [logs[n]];
    WrittenConcat(logs[..n], [logs[n]]);
    WrittenOne(logs[n]);
    LastOfConcat(Written(logs[..n]), Replay(logs[n].content), key);
    LastOfConcat(Replay(logs[0].content), Written(logs[1..]), key);
  }

  /** The run that replaying a log builds. */
  lemma ReplayedRun(content: seq<byte>)
    requires Good(Replay(content))
    ensures TableFormat.TableRun(PutAll(Replay(content)))
    ensures forall key: Key :: Find(PutAll(Replay(content)), key) == LastOf(Replay(content), key)
  {
    hide Replay, PutAll;
    PutAllIsLastWrite(Replay(content));
    PutAllFrom(Replay(content));
    GoodIsStorable(Replay(content));
  }

  lemma GoodIsStorable(es: seq<Entry>)
    requires Good(es)
    ensures forall e :: e in es ==> e.Storable()
  {
  }

  lemma {:induction false} PutFrom(s: seq<Entry>, e: Entry)
    ensures forall x :: x in Put(s, e) ==> x in s || x == e
  {
    if s != [] {
      assert s == [s[0]] + s[1..];
      PutFrom(s[1..], e);
    }
  }

  lemma {:induction false} PutAllFrom(log: seq<Entry>)
    ensures forall x :: x in PutAll(log) ==> x in log
  {
    if log != [] {
      var n := |log| - 1;
      PutAllFrom(log[..n]);
      PutFrom(PutAll(log[..n]), log[n]);
    }
  }

  // ----- Whole frames -----

  lemma GoodIsLoggable(es: seq<Entry>)
    requires Good(es)
    ensures AllLoggable(es)
  {
  }

  lemma FramesAreClean(es: seq<Entry>)
    requires Good(es)
    ensures Replay(Frames(es)) == es && Clean(Frames(es))
  {
    hide Frame, Acceptable, Replay;
    GoodIsLoggable(es);
    ReplayFrames(es, []);
    ReplayNothing();
    assert Frames(es) + [] == Frames(es) && es + [] == es;
  }

  /** Appending one frame to a log of whole frames. */
  lemma AppendFrame(content: seq<byte>, e: Entry)
    requires Clean(content) && Loggable(e) && e.key != []
    ensures Replay(content + Frame(e)) == Replay(content) + [e] && Clean(content + Frame(e))
  {
    hide Frame, Frames, Replay;
    var es := Replay(content);
    FramesOne(e);
    FramesConcat(es, [e]);
    assert Good(es + [e]);
    FramesAreClean(es + [e]);
  }

  lemma FramesOne(e: Entry)
    ensures Frames([e]) == Frame(e)
  {
    assert Frames([e][1..]) == [];
    assert Frame(e) + [] == Frame(e);
  }

  /**
   The first n bytes of a frame, torn off by a crash, behind a log of whole frames: of any kind, the kept one
   included.
   */
  lemma TornAppend(content: seq<byte>, e: Entry, n: nat)
    requires Clean(content) && e.EncodedSize() < TWO32 && n < |Frame(e)|
    ensures Replay(content + Frame(e)[..n]) == Replay(content)
  {
    var es, torn := Replay(content), Frame(e)[..n];
    GoodIsLoggable(es);
    assert Torn(torn, e);
    hide Frame, Frames, Acceptable, Replay, Recovered, KeptTorn;
    TornTailRecovery(es, torn, e);
  }

  /** A frame that recovery refuses. */
  lemma AppendTooLarge(content: seq<byte>, e: Entry)
    requires Clean(content) && TooLarge(e) && e.EncodedSize() < TWO32
    ensures Replay(content + Frame(e)) == Replay(content)
  {
    var es := Replay(content);
    GoodIsLoggable(es);
    hide Frame, Frames, Acceptable, ValidLength, TooLarge, Loggable;
    ReplayFrames(es, Frame(e));
    assert Frame(e) + [] == Frame(e);
    OversizedNotAcceptable(e, []);
    assert es + [] == es;
  }

  // ----- Lookups in the tables -----

  /** The listed tables are there and are the same in both. */
  ghost predicate SameListed(levels: LevelLists, a: Tables, b: Tables) {
    forall l :: 0 <= l < |levels| ==> Compaction.SameTables(levels[l], a, b)
  }

  lemma ReversedSame(ids: seq<nat>, a: Tables, b: Tables)
    requires Compaction.SameTables(ids, a, b)
    ensures Compaction.SameTables(Reversed(ids), a, b)
  {
  }

  lemma {:induction false} DeepFindFrame(levels: LevelLists, l: nat, a: Tables, b: Tables, key: Key)
    requires |levels| == ROWS && SameListed(levels, a, b)
    ensures DeepFind(levels, l, a, key) == DeepFind(levels, l, b, key)
    decreases MAX_LEVELS - l
  {
    hide LevelFind;
    if l < MAX_LEVELS {
      Compaction.LevelFindFrame(levels[l], a, b, key);
      DeepFindFrame(levels, l + 1, a, b, key);
    }
  }

  /** Lookups depend on the listed tables only. */
  lemma DiskFindFrame(levels: LevelLists, a: Tables, b: Tables, key: Key)
    requires LevelsOk(levels, a) && LevelsOk(levels, b) && SameListed(levels, a, b)
    ensures DiskFind(levels, a, key) == DiskFind(levels, b, key)
  {
    hide LevelFind, DiskFind, TablesOk, AllListed, DistinctIds, DisjointLevels;
    DiskFindIsDeepFind(levels, a, key);
    DiskFindIsDeepFind(levels, b, key);
    ReversedSame(levels[0], a, b);
    Compaction.LevelFindFrame(Reversed(levels[0]), a, b, key);
    DeepFindFrame(levels, 1, a, b, key);
  }

  /** So does their being well-formed, all tables being so. */
  lemma LevelsOkFrame(levels: LevelLists, a: Tables, b: Tables)
    requires LevelsOk(levels, a) && TablesOk(b) && SameListed(levels, a, b)
    ensures LevelsOk(levels, b)
  {
    hide DistinctIds, Apart;
    assert forall l, i :: 0 <= l < |levels| && 0 <= i < |levels[l]| ==>
      levels[l][i] in b && a[levels[l][i]] == b[levels[l][i]];
    forall l | 1 <= l < |levels|
      ensures Disjoint(levels[l], b)
    {
      assert Disjoint(levels[l], a);
      forall i, j | 0 <= i < j < |levels[l]|
        ensures Apart(b[levels[l][i]], b[levels[l][j]])
      {
        assert Apart(a[levels[l][i]], a[levels[l][j]]);
      }
    }
  }

  function Pushed(levels: LevelLists, id: nat): (r: LevelLists)
    requires |levels| == ROWS
    ensures |r| == ROWS
  {
    levels[0 := levels[0] + [id]]
  }

  ghost predicate Unlisted(levels: LevelLists, id: nat) {
    forall l :: 0 <= l < |levels| ==> id !in levels[l]
  }

  lemma PushedOk(levels: LevelLists, tables: Tables, id: nat)
    requires LevelsOk(levels, tables) && id in tables && Unlisted(levels, id)
    ensures LevelsOk(Pushed(levels, id), tables)
  {
    hide Table.Ok, Apart;
    var now := Pushed(levels, id);
    assert forall l :: 1 <= l < |now| ==> now[l] == levels[l];
    PushedDistinct(levels, id);
  }

  lemma PushedDistinct(levels: LevelLists, id: nat)
    requires |levels| == ROWS && DistinctIds(levels) && Unlisted(levels, id)
    ensures DistinctIds(Pushed(levels, id))
  {
    var now := Pushed(levels, id);
    assert forall l :: 1 <= l < |now| ==> now[l] == levels[l];
    assert now[0] == levels[0] + [id];
    forall l, i, m, j | 0 <= l < |now| && 0 <= i < |now[l]| && 0 <= m < |now| && 0 <= j < |now[m]|
      && now[l][i] == now[m][j]
      ensures l == m && i == j
    {
      if !(l == 0 && i == |levels[0]|) { OldPlace(levels, id, l, i); }
      if !(m == 0 && j == |levels[0]|) { OldPlace(levels, id, m, j); }
    }
  }

  lemma OldPlace(levels: LevelLists, id: nat, l: nat, i: nat)
    requires |levels| == ROWS && Unlisted(levels, id) && l < ROWS && i < |Pushed(levels, id)[l]|
    requires !(l == 0 && i == |levels[0]|)
    ensures i < |levels[l]| && Pushed(levels, id)[l][i] == levels[l][i] && levels[l][i] != id
  {
  }

  /** A table at the end of level 0 hides everything else on disk. */
  lemma PushedFind(levels: LevelLists, tables: Tables, id: nat, key: Key)
    requires LevelsOk(levels, tables) && id in tables && Unlisted(levels, id)
    ensures LevelsOk(Pushed(levels, id), tables)
    ensures DiskFind(Pushed(levels, id), tables, key) == Or(Find(tables[id].run, key), DiskFind(levels, tables, key))
  {
    PushedOk(levels, tables, id);
    var now := Pushed(levels, id);
    assert now[0][..|now[0]| - 1] == levels[0];
    hide LevelsOk;
    DeeperRows(levels, now, 1, tables, key);
  }

  lemma {:induction false} DeeperRows(a: LevelLists, b: LevelLists, l: nat, tables: Tables, key: Key)
    requires |a| == |b| == ROWS && (forall m :: l <= m < ROWS ==> a[m] == b[m])
    requires forall id :: id in tables ==> tables[id].run != []
    ensures FindFromLevel(a, l, tables, key) == FindFromLevel(b, l, tables, key)
    decreases MAX_LEVELS - l
  {
    if l < MAX_LEVELS {
      DeeperRows(a, b, l + 1, tables, key);
    }
  }
}
