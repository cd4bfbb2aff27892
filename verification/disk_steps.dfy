/** The durable changes the engine makes, each with its effect on the map the disk holds. */
module DiskSteps {
  import opened Bytes
  import opened Entries
  import opened Runs
  import opened Upsert
  import opened Wal
  import opened Levels
  import opened Storage
  import TableFormat

  // ----- Logs -----

  function WithContent(logs: seq<Log>, i: nat, content: seq<byte>): (r: seq<Log>)
    requires i < |logs|
    ensures |r| == |logs| && forall j :: 0 <= j < |logs| ==> r[j].id == logs[j].id
    ensures forall j :: 0 <= j < |logs| ==> r[j].content == if j == i then content else logs[j].content
  {
    logs[i := Log(logs[i].id, content)]
  }

  lemma {:induction false} WrittenSame(a: seq<Log>, b: seq<Log>)
    requires |a| == |b| && forall j :: 0 <= j < |a| ==> Replay(a[j].content) == Replay(b[j].content)
    ensures Written(a) == Written(b)
  {
    if a != [] {
      WrittenSame(a[1..], b[1..]);
    }
  }

  lemma RewrittenOk(logs: seq<Log>, nextId: nat, i: nat, content: seq<byte>)
    requires LogsOk(logs, nextId) && i < |logs|
    ensures LogsOk(WithContent(logs, i, content), nextId)
  {
  }

  lemma RewrittenEntries(logs: seq<Log>, i: nat, content: seq<byte>, more: seq<Entry>)
    requires i < |logs| && Replay(content) == Replay(logs[i].content) + more
    requires more == [] || i == |logs| - 1
    ensures Written(WithContent(logs, i, content)) == Written(logs) + more
  {
    hide Replay, Written;
    if more == [] {
      assert Replay(logs[i].content) + [] == Replay(logs[i].content);
      WrittenSame(logs, WithContent(logs, i, content));
      assert Written(logs) + more == Written(logs);
    } else {
      LastRewritten(logs, content, more);
    }
  }

  /** A log rewritten, with the same entries or, at the end of the last log, one more. */
  lemma LogRewritten(disk: Disk, i: nat, content: seq<byte>, more: seq<Entry>, hist: seq<Entry>)
    requires DiskOk(disk) && i < |disk.logs| && Represents(disk, hist)
    requires Replay(content) == Replay(disk.logs[i].content) + more
    requires more == [] || i == |disk.logs| - 1
    ensures var now := disk.(logs := WithContent(disk.logs, i, content));
      && DiskOk(now) && Represents(now, hist + more)
  {
    hide LevelsOk, Represents, Replay, Written, LogsOk;
    RewrittenOk(disk.logs, disk.nextId, i, content);
    RewrittenEntries(disk.logs, i, content, more);
    HistoryGrows(disk, disk.(logs := WithContent(disk.logs, i, content)), more, hist);
  }

  lemma LastRewritten(logs: seq<Log>, content: seq<byte>, more: seq<Entry>)
    requires logs != [] && Replay(content) == Replay(logs[|logs| - 1].content) + more
    ensures Written(WithContent(logs, |logs| - 1, content)) == Written(logs) + more
  {
    hide Replay;
    var n := |logs| - 1;
    var now := WithContent(logs, n, content);
    assert logs == logs[..n] + [logs[n]] && now == logs[..n] + [now[n]];
    WrittenConcat(logs[..n], [logs[n]]);
    WrittenConcat(logs[..n], [now[n]]);
    WrittenOne(logs[n]);
    WrittenOne(now[n]);
  }

  /** More written entries, same tables: the history is as much longer. */
  lemma HistoryGrows(disk: Disk, now: Disk, more: seq<Entry>, hist: seq<Entry>)
    requires LevelsOk(disk.levels, disk.files) && Represents(disk, hist)
    requires now.levels == disk.levels && now.files == disk.files && Written(now.logs) == Written(disk.logs) + more
    ensures Represents(now, hist + more)
  {
    hide LevelsOk, DiskFind, Written, LastOf;
    forall key: Key
      ensures Visible(DurableFind(now, key)) == Visible(LastOf(hist + more, key))
    {
      LastOfConcat(Written(disk.logs), more, key);
      LastOfConcat(hist, more, key);
      assert Visible(DurableFind(disk, key)) == Visible(LastOf(hist, key));
    }
  }

  /** A new, empty log under a fresh identifier. */
  function LogOpened(disk: Disk): Disk {
    disk.(logs := disk.logs + [Log(disk.nextId, [])], nextId := disk.nextId + 1)
  }

  lemma EmptyLog()
    ensures Replay([]) == [] && Clean([])
  {
    assert Frames([]) == [] && Good([]);
    FramesAreClean([]);
  }

  lemma OpenedOk(logs: seq<Log>, nextId: nat)
    requires LogsOk(logs, nextId)
    ensures LogsOk(logs + [Log(nextId, [])], nextId + 1)
  {
  }

  lemma OpenedWritten(logs: seq<Log>, id: nat)
    ensures Written(logs + [Log(id, [])]) == Written(logs)
  {
    EmptyLog();
    hide Replay;
    WrittenConcat(logs, [Log(id, [])]);
    WrittenOne(Log(id, []));
    assert Written(logs) + [] == Written(logs);
  }

  lemma LogOpenedOk(disk: Disk)
    requires DiskOk(disk)
    ensures DiskOk(LogOpened(disk))
  {
    hide LevelsOk, LogsOk;
    OpenedOk(disk.logs, disk.nextId);
  }

  lemma LogOpenedSame(disk: Disk, hist: seq<Entry>)
    requires DiskOk(disk) && Represents(disk, hist)
    ensures DiskOk(LogOpened(disk)) && Represents(LogOpened(disk), hist)
  {
    LogOpenedOk(disk);
    OpenedWritten(disk.logs, disk.nextId);
    hide LevelsOk, LogsOk, FilesBounded, Represents, Written;
    assert Written(disk.logs) + [] == Written(disk.logs);
    HistoryGrows(disk, LogOpened(disk), [], hist);
    assert hist + [] == hist;
  }

  /** The first log goes once the tables show all it holds. */
  lemma LogRemovedSame(disk: Disk, hist: seq<Entry>)
    requires DiskOk(disk) && Represents(disk, hist) && disk.logs != [] && Absorbed(disk, disk.logs[0].content)
    ensures var now := disk.(logs := disk.logs[1..]); DiskOk(now) && Represents(now, hist)
  {
    var now := disk.(logs := disk.logs[1..]);
    RestOk(disk.logs, disk.nextId);
    hide LevelsOk, DiskFind, Written, LastOf, Replay, LogsOk;
    forall key: Key
      ensures Visible(DurableFind(now, key)) == Visible(LastOf(hist, key))
    {
      LastWritten(disk.logs, key);
      assert Visible(DurableFind(disk, key)) == Visible(LastOf(hist, key));
    }
  }

  lemma RestOk(logs: seq<Log>, nextId: nat)
    requires LogsOk(logs, nextId) && logs != []
    ensures LogsOk(logs[1..], nextId)
  {
  }

  // ----- Tables -----

  /** A table file written under a fresh identifier, not yet in the manifest. */
  function TableWritten(disk: Disk, t: Table): Disk {
    disk.(files := disk.files[disk.nextId := t], nextId := disk.nextId + 1)
  }

  lemma TableWrittenOk(disk: Disk, t: Table)
    requires DiskOk(disk) && t.Ok()
    ensures var now := TableWritten(disk, t);
      && DiskOk(now) && Unlisted(disk.levels, disk.nextId)
      && SameListed(disk.levels, disk.files, now.files)
  {
    var now := TableWritten(disk, t);
    hide LogsAscend, DistinctIds, DisjointLevels, TableFormat.TableRun;
    assert AllListed(disk.levels, disk.files);
    LevelsOkFrame(disk.levels, disk.files, now.files);
  }

  lemma TableWrittenSame(disk: Disk, t: Table, hist: seq<Entry>)
    requires DiskOk(disk) && Represents(disk, hist) && t.Ok()
    ensures var now := TableWritten(disk, t);
      && DiskOk(now) && Represents(now, hist) && Unlisted(disk.levels, disk.nextId)
  {
    hide LogsOk, FilesBounded, Represents, AllListed, DistinctIds, DisjointLevels, SameListed, Unlisted, Table.Ok;
    TableWrittenOk(disk, t);
    FilesSame(disk, TableWritten(disk, t), hist);
  }

  /** Other files, the same listed tables. */
  lemma FilesSame(disk: Disk, now: Disk, hist: seq<Entry>)
    requires LevelsOk(disk.levels, disk.files) && Represents(disk, hist) && LevelsOk(now.levels, now.files)
    requires now.levels == disk.levels && now.logs == disk.logs && SameListed(disk.levels, disk.files, now.files)
    ensures Represents(now, hist)
  {
    hide LevelsOk, DiskFind, Written, LastOf, SameListed;
    forall key: Key
      ensures Visible(DurableFind(now, key)) == Visible(LastOf(hist, key))
    {
      DiskFindFrame(disk.levels, disk.files, now.files, key);
      assert Visible(DurableFind(disk, key)) == Visible(LastOf(hist, key));
    }
  }

  /** The manifest lists a table at the end of level 0. */
  function TableListed(disk: Disk, id: nat): Disk
    requires |disk.levels| == ROWS
  {
    disk.(levels := Pushed(disk.levels, id))
  }

  /** The listed table hides the rest of the disk, and nothing else changes. */
  lemma TableListedFind(disk: Disk, id: nat)
    requires DiskOk(disk) && id in disk.files && Unlisted(disk.levels, id)
    ensures var now := TableListed(disk, id);
      && DiskOk(now)
      && forall key: Key ::
           DiskFind(now.levels, now.files, key) ==
             Or(Find(disk.files[id].run, key), DiskFind(disk.levels, disk.files, key))
  {
    var now := TableListed(disk, id);
    PushedOk(disk.levels, disk.files, id);
    hide AllListed, DistinctIds, DisjointLevels, TableFormat.TableRun, DiskFind, Find, Pushed, Unlisted, LogsOk,
         FilesBounded;
    forall key: Key
      ensures DiskFind(now.levels, now.files, key) ==
        Or(Find(disk.files[id].run, key), DiskFind(disk.levels, disk.files, key))
    {
      PushedFind(disk.levels, disk.files, id, key);
    }
  }

  /** Listing a table whose run comes out of a log that is still there changes nothing. */
  lemma TableListedSame(disk: Disk, id: nat, i: nat, hist: seq<Entry>)
    requires DiskOk(disk) && Represents(disk, hist) && id in disk.files && Unlisted(disk.levels, id)
    requires i < |disk.logs| && Good(Replay(disk.logs[i].content))
    requires disk.files[id].run == PutAll(Replay(disk.logs[i].content))
    ensures var now := TableListed(disk, id);
      DiskOk(now) && Represents(now, hist) && Absorbed(now, disk.logs[i].content)
  {
    var now := TableListed(disk, id);
    ReplayedRun(disk.logs[i].content);
    hide AllListed, DistinctIds, DisjointLevels, TableFormat.TableRun, DiskFind, Written, LastOf, Replay, PutAll, Find,
         Pushed, Unlisted, LogsOk, FilesBounded, Good;
    TableListedFind(disk, id);
    forall key: Key
      ensures Visible(DurableFind(now, key)) == Visible(LastOf(hist, key))
    {
      WrittenHolds(disk.logs, i, key);
      assert Visible(DurableFind(disk, key)) == Visible(LastOf(hist, key));
    }
  }

  lemma {:induction false} WrittenHolds(logs: seq<Log>, i: nat, key: Key)
    requires i < |logs|
    ensures LastOf(Replay(logs[i].content), key).Some? ==> LastOf(Written(logs), key).Some?
  {
    hide Replay;
    LastWritten(logs, key);
    if i > 0 {
      WrittenHolds(logs[1..], i - 1, key);
    }
  }
}
