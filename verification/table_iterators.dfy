/** Iterators opened on whole runs, as compactions and scans hand them to the merge. */
module TableIterators {
  import opened Entries
  import opened Runs
  import opened Cursors
  import opened Merger
  import opened Levels

  /** One iterator, not moved yet, for each run. */
  ghost predicate Opened(iters: seq<Cursor?>, runs: seq<seq<Entry>>)
    reads iters
  {
    && |iters| == |runs| && AllAscending(runs)
    && (forall p :: 0 <= p < |iters| ==> iters[p] != null && iters[p].idx == 0 && iters[p].entries == runs[p])
    && (forall p, q :: 0 <= p < q < |iters| ==> iters[p] != iters[q])
  }

  lemma OneMoreOpened(iters: seq<Cursor?>, runs: seq<seq<Entry>>, c: Cursor)
    requires Opened(iters, runs) && c !in iters && c.idx == 0 && Ascending(c.entries)
    ensures Opened(iters + [c], runs + [c.entries])
  {
  }

  lemma OpenedRests(iters: seq<Cursor?>, runs: seq<seq<Entry>>)
    requires Opened(iters, runs)
    ensures MergedIterator.Usable(iters) && MergedIterator.Rests(iters) == runs && MergedIterator.Wholes(iters) == runs
  {
    forall p | 0 <= p < |iters|
      ensures iters[p].Ok()
    {
      assert runs[p] in runs;
    }
  }

  /** The iterator of a table joins the others. */
  method OpenTable(readers: Tables, id: nat, before: seq<Cursor?>, ghost runs: seq<seq<Entry>>)
    returns (iters: seq<Cursor?>)
    requires TablesOk(readers) && id in readers && Opened(before, runs)
    ensures Opened(iters, runs + [readers[id].run])
    ensures before <= iters && forall p :: |before| <= p < |iters| ==> iters[p] != null && fresh(iters[p])
  {
    var c := new Cursor(readers[id].run);
    OneMoreOpened(before, runs, c);
    iters := before + [c];
  }

  lemma {:induction false} RunsOfOneMore(ids: seq<nat>, id: nat, tables: Tables)
    ensures RunsOf(ids + [id], tables) == RunsOf(ids, tables) + if id in tables then [tables[id].run] else []
  {
    if ids == [] {
      assert [id][1..] == [] && [] + [id] == [id];
    } else {
      assert (ids + [id])[1..] == ids[1..] + [id];
      RunsOfOneMore(ids[1..], id, tables);
    }
  }
}
