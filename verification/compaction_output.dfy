/** What a compaction writes, entry by entry and table by table (pkg/compactor/compactor.go, `Compact`). */
module CompactionOutput {
  import opened Entries
  import opened Runs
  import opened Cuts
  import opened Levels
  import opened Picker
  import opened Compaction
  import opened Compactor

  /** The entry is in one of the tables written. */
  ghost predicate WrittenOut(c: Compacted, e: Entry) {
    exists id :: id in c.added && id in c.newTables && e in c.newTables[id].run
  }

  lemma {:induction false} FlattenMembers(pieces: seq<seq<Entry>>, e: Entry)
    ensures e in Flatten(pieces) <==> exists i :: 0 <= i < |pieces| && e in pieces[i]
  {
    if pieces != [] {
      FlattenMembers(pieces[1..], e);
      if i :| 0 <= i < |pieces| && e in pieces[i] {
        assert i > 0 ==> pieces[1..][i - 1] == pieces[i];
      }
    }
  }

  lemma InMergedRun(levels: LevelLists, tables: Tables, task: Task, e: Entry)
    requires Sensible(levels, tables, task)
    ensures e in MergedRun(task, tables) <==>
      && FindFirst(RunsOf(task.Inputs(), tables), e.key) == Some(e)
      && !(e.op == OP_DELETE && forall l :: task.to < l < MAX_LEVELS ==> levels[l] == [])
  {
    hide FindFirst, Merge, RunsOf, Live;
    var runs := RunsOf(task.Inputs(), tables);
    RunsOfAscending(task.Inputs(), tables);
    MergeAscending(runs);
    FindMerge(runs, e.key);
    if e in Merge(runs) {
      FindMember(Merge(runs), e);
    }
  }

  lemma OutputTables(levels: LevelLists, tables: Tables, newestFirst: bool, c: Compacted, levels': LevelLists,
                     target: nat)
    requires LevelsOk(levels, tables) && CompactedBy(levels, tables, newestFirst, c, levels', target)
    ensures Sensible(levels, tables, c.task)
    ensures var outs := Pieces(MergedRun(c.task, tables), target);
      && |outs| == |c.added| && Flatten(outs) == MergedRun(c.task, tables)
      && forall i :: 0 <= i < |outs| ==> c.added[i] in c.newTables && c.newTables[c.added[i]] == Table(outs[i], 4096)
  {
    hide LevelsOk, Sensible, TaskFor, MergedRun, Pieces, Flatten;
    forall i | 0 <= i < |c.added|
      ensures c.added[i] in c.newTables && c.newTables[c.added[i]] == TablesAfter(tables, c)[c.added[i]]
    {
      assert c.added[i] in TablesAfter(tables, c);
    }
  }

  /**
   An entry is written out exactly when it is its key's version in the first input that has the key, the inputs
   taken in the task's order, and no tombstone with nothing below the target level.
   */
  lemma OutputExactly(levels: LevelLists, tables: Tables, newestFirst: bool, c: Compacted, levels': LevelLists,
                      target: nat, e: Entry)
    requires LevelsOk(levels, tables) && CompactedBy(levels, tables, newestFirst, c, levels', target)
    ensures WrittenOut(c, e) <==>
      && FindFirst(RunsOf(c.task.inputFrom + c.task.inputTo, tables), e.key) == Some(e)
      && !(e.op == OP_DELETE && forall l :: c.task.to < l < MAX_LEVELS ==> levels[l] == [])
  {
    hide LevelsOk, Sensible, CompactedBy, MergedRun, Pieces, Flatten, FindFirst, RunsOf;
    var outs := Pieces(MergedRun(c.task, tables), target);
    OutputTables(levels, tables, newestFirst, c, levels', target);
    InMergedRun(levels, tables, c.task, e);
    FlattenMembers(outs, e);
    if WrittenOut(c, e) {
      var id :| id in c.added && id in c.newTables && e in c.newTables[id].run;
      var i :| 0 <= i < |c.added| && c.added[i] == id;
      assert e in outs[i];
    }
    if i :| 0 <= i < |outs| && e in outs[i] {
      assert c.added[i] in c.added;
    }
  }

  /** Every table written but the last reaches the target size, counting 16 bytes besides an entry's key and value. */
  lemma OutputSizes(levels: LevelLists, tables: Tables, newestFirst: bool, c: Compacted, levels': LevelLists,
                    target: nat, i: nat)
    requires LevelsOk(levels, tables) && CompactedBy(levels, tables, newestFirst, c, levels', target)
    requires i < |c.added|
    ensures c.added[i] in c.newTables
    ensures var run := c.newTables[c.added[i]].run;
      && c.newTables[c.added[i]].blockSize == 4096
      && run != [] && (|run| > 1 ==> SumSize(run[..|run| - 1]) < target)
      && (i < |c.added| - 1 ==> SumSize(run) >= target)
  {
    hide LevelsOk, Sensible, CompactedBy, MergedRun, Flatten, SumSize, Cut;
    OutputTables(levels, tables, newestFirst, c, levels', target);
    var s := MergedRun(c.task, tables);
    CutProperties(s, target);
    var (closed, open) := Cut(s, target);
    if i < |closed| {
      assert ClosedPiece(closed[i], target);
    } else {
      assert c.newTables[c.added[i]].run == open;
      PrefixSmaller(open, |open| - 1);
    }
  }

  lemma PrefixSmaller(s: seq<Entry>, n: nat)
    requires n <= |s|
    ensures SumSize(s[..n]) <= SumSize(s)
  {
    if n < |s| {
      PrefixSmaller(s[..|s| - 1], n);
      assert s[..|s| - 1][..n] == s[..n];
    } else {
      assert s[..n] == s;
    }
  }
}
