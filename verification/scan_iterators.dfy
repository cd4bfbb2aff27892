/** Opening the iterators that a scan merges. */
module ScanIterators {
  import opened Bytes
  import opened Entries
  import opened Runs
  import opened Cursors
  import opened Merger
  import opened Levels
  import opened TableIterators
  import opened Scans
  import opened Machine

  /** Level 0, newest table first. */
  method OpenLevel0(ids: seq<nat>, readers: Tables, before: seq<Cursor?>, ghost runs: seq<seq<Entry>>)
    returns (iters: seq<Cursor?>)
    requires TablesOk(readers) && Opened(before, runs)
    ensures Opened(iters, runs + RunsOf(Reversed(ids), readers))
    ensures before <= iters && forall p :: |before| <= p < |iters| ==> iters[p] != null && fresh(iters[p])
  {
    hide Opened, Ascending, Reversed;
    iters := before;
    var i := |ids|;
    ghost var order := Reversed(ids);
    assert runs + RunsOf(order[..0], readers) == runs;
    while i > 0
      invariant 0 <= i <= |ids|
      invariant Opened(iters, runs + RunsOf(order[..|ids| - i], readers))
      invariant before <= iters && forall p :: |before| <= p < |iters| ==> iters[p] != null && fresh(iters[p])
    {
      i := i - 1;
      RunsOfOneMore(order[..|ids| - i - 1], order[|ids| - i - 1], readers);
      assert order[..|ids| - i] == order[..|ids| - i - 1] + [order[|ids| - i - 1]];
      assert order[|ids| - i - 1] == ids[i];
      ghost var sofar := RunsOf(order[..|ids| - i - 1], readers);
      if ids[i] in readers {
        iters := OpenTable(readers, ids[i], iters, runs + sofar);
        Associates(runs, sofar, [readers[ids[i]].run]);
      } else {
        Associates(runs, sofar, []);
      }
    }
    assert order[..|ids|] == order;
  }

  lemma Associates<T>(a: seq<T>, b: seq<T>, c: seq<T>)
    ensures a + b + c == a + (b + c) && a + b + [] == a + b
  {
  }

  lemma {:induction false} RangeRunsOneMore(ids: seq<nat>, id: nat, tables: Tables, lo: Key, hi: Key)
    requires forall id :: id in tables ==> tables[id].run != []
    ensures RangeRuns(ids + [id], tables, lo, hi) ==
      RangeRuns(ids, tables, lo, hi) + if id in tables && MayMeet(tables[id], lo, hi) then [tables[id].run] else []
  {
    if ids == [] {
      assert [id][1..] == [] && [] + [id] == [id];
    } else {
      assert (ids + [id])[1..] == ids[1..] + [id];
      RangeRunsOneMore(ids[1..], id, tables, lo, hi);
    }
  }

  /** A level from 1 on: the tables whose key range may meet the scan's. */
  method OpenLevel(ids: seq<nat>, readers: Tables, lo: Key, hi: Key, before: seq<Cursor?>, ghost runs: seq<seq<Entry>>)
    returns (iters: seq<Cursor?>)
    requires TablesOk(readers) && Opened(before, runs) && forall id :: id in readers ==> readers[id].run != []
    ensures Opened(iters, runs + RangeRuns(ids, readers, lo, hi))
    ensures before <= iters && forall p :: |before| <= p < |iters| ==> iters[p] != null && fresh(iters[p])
  {
    hide Opened, Ascending, MayMeet, TablesOk;
    iters := before;
    assert runs + RangeRuns(ids[..0], readers, lo, hi) == runs;
    for i := 0 to |ids|
      invariant Opened(iters, runs + RangeRuns(ids[..i], readers, lo, hi))
      invariant before <= iters && forall p :: |before| <= p < |iters| ==> iters[p] != null && fresh(iters[p])
    {
      ghost var sofar := RangeRuns(ids[..i], readers, lo, hi);
      RangeRunsOneMore(ids[..i], ids[i], readers, lo, hi);
      assert ids[..i + 1] == ids[..i] + [ids[i]];
      if ids[i] in readers && Wanted(readers[ids[i]], lo, hi) {
        iters := OpenTable(readers, ids[i], iters, runs + sofar);
        Associates(runs, sofar, [readers[ids[i]].run]);
      } else {
        Associates(runs, sofar, []);
      }
    }
    assert ids[..|ids|] == ids;
  }

  /** The two checks on the table's bounds, in the order in which they are made. */
  predicate Wanted(t: Table, lo: Key, hi: Key)
    requires t.run != []
    ensures Wanted(t, lo, hi) <==> MayMeet(t, lo, hi)
  {
    if |hi| > 0 && Less(hi, t.MinKey()) then false
    else if |lo| > 0 && Less(t.MaxKey(), lo) then false
    else true
  }

  method OpenDeeper(levels: LevelLists, readers: Tables, lo: Key, hi: Key, before: seq<Cursor?>,
                    ghost runs: seq<seq<Entry>>)
    returns (iters: seq<Cursor?>)
    requires |levels| == ROWS && TablesOk(readers) && Opened(before, runs)
    requires forall id :: id in readers ==> readers[id].run != []
    ensures Opened(iters, runs + DeepRuns(levels, 1, readers, lo, hi))
    ensures before <= iters && forall p :: |before| <= p < |iters| ==> iters[p] != null && fresh(iters[p])
  {
    hide Opened, TablesOk;
    iters := before;
    ghost var done := runs;
    var lvl := 1;
    while lvl < 7
      invariant 1 <= lvl <= MAX_LEVELS && Opened(iters, done)
      invariant done + DeepRuns(levels, lvl, readers, lo, hi) == runs + DeepRuns(levels, 1, readers, lo, hi)
      invariant before <= iters && forall p :: |before| <= p < |iters| ==> iters[p] != null && fresh(iters[p])
    {
      iters := OpenLevel(levels[lvl], readers, lo, hi, iters, done);
      Associates(done, RangeRuns(levels[lvl], readers, lo, hi), DeepRuns(levels, lvl + 1, readers, lo, hi));
      done := done + RangeRuns(levels[lvl], readers, lo, hi);
      lvl := lvl + 1;
    }
    assert done + [] == done;
  }

  /** All tables a scan reads, newest first. */
  method OpenTables(levels: LevelLists, readers: Tables, lo: Key, hi: Key, before: seq<Cursor?>,
                    ghost runs: seq<seq<Entry>>)
    returns (iters: seq<Cursor?>)
    requires |levels| == ROWS && TablesOk(readers) && Opened(before, runs)
    requires forall id :: id in readers ==> readers[id].run != []
    ensures Opened(iters, runs + TableRuns(Snapshot(levels, readers), lo, hi))
    ensures before <= iters && forall p :: |before| <= p < |iters| ==> iters[p] != null && fresh(iters[p])
  {
    hide Opened, TablesOk;
    ghost var newest := RunsOf(Reversed(levels[0]), readers);
    iters := OpenLevel0(levels[0], readers, before, runs);
    iters := OpenDeeper(levels, readers, lo, hi, iters, runs + newest);
    Associates(runs, newest, DeepRuns(levels, 1, readers, lo, hi));
  }

  /** Merges the iterators, dropping tombstones, and seeks to the start of the range. */
  method MergeFromStart(iters: seq<Cursor?>, ghost runs: seq<seq<Entry>>, lo: Key) returns (merged: MergedIterator)
    requires Opened(iters, runs)
    modifies iters
    ensures fresh(merged) && merged.iters == iters && merged.Inv() && merged.Remaining() == Scanned(runs, lo)
  {
    OpenedRests(iters, runs);
    hide MergedIterator.Inv, MergedIterator.Usable, MergedIterator.Rests, MergedIterator.Remaining, Opened;
    merged := new MergedIterator(iters, true);
    if |lo| > 0 {
      merged.Seek(lo);
    }
  }
}
