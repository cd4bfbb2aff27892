/** What Scan merges, and that it shows exactly the live pairs of its range (pkg/lsm/engine.go, `Scan`). */
module Scans {
  import opened Bytes
  import opened Entries
  import opened Runs
  import opened Upsert
  import opened Levels
  import opened Machine
  import opened Safety
  import opened Storage
  import Compaction
  import TableFormat

  /** An empty bound is no bound. */
  predicate Within(key: Key, lo: Key, hi: Key) {
    AtMost(lo, key) && (|hi| > 0 ==> AtMost(key, hi))
  }

  /** The table's key range may meet the range of the scan. */
  predicate MayMeet(t: Table, lo: Key, hi: Key)
    requires t.run != []
  {
    !(|hi| > 0 && Less(hi, t.MinKey())) && !(|lo| > 0 && Less(t.MaxKey(), lo))
  }

  function RangeRuns(ids: seq<nat>, tables: Tables, lo: Key, hi: Key): seq<seq<Entry>>
    requires forall id :: id in tables ==> tables[id].run != []
  {
    if ids == [] then []
    else (if ids[0] in tables && MayMeet(tables[ids[0]], lo, hi) then [tables[ids[0]].run] else [])
         + RangeRuns(ids[1..], tables, lo, hi)
  }

  function DeepRuns(levels: LevelLists, l: nat, tables: Tables, lo: Key, hi: Key): seq<seq<Entry>>
    requires |levels| == ROWS && forall id :: id in tables ==> tables[id].run != []
    decreases MAX_LEVELS - l
  {
    if l >= MAX_LEVELS then [] else RangeRuns(levels[l], tables, lo, hi) + DeepRuns(levels, l + 1, tables, lo, hi)
  }

  function TableRuns(shot: Snapshot, lo: Key, hi: Key): seq<seq<Entry>>
    requires |shot.levels| == ROWS && forall id :: id in shot.readers ==> shot.readers[id].run != []
  {
    RunsOf(Reversed(shot.levels[0]), shot.readers) + DeepRuns(shot.levels, 1, shot.readers, lo, hi)
  }

  function MemRuns(active: Mem, imm: Option<Mem>): seq<seq<Entry>> {
    [active.run] + if imm.Some? then [imm.value.run] else []
  }

  /** What the scan's iterator has to show. */
  function Scanned(runs: seq<seq<Entry>>, lo: Key): seq<Entry> {
    var all := Keep(Merge(runs), true);
    if |lo| > 0 then From(all, lo) else all
  }

  /** What a caller takes who stops behind the end of the range. */
  function UpTo(s: seq<Entry>, hi: Key): seq<Entry> {
    if s == [] || (|hi| > 0 && Less(hi, s[0].key)) then [] else [s[0]] + UpTo(s[1..], hi)
  }

  // ----- Skipped tables hold nothing of the range -----

  lemma SkippedHoldsNothing(t: Table, lo: Key, hi: Key, key: Key)
    requires t.Ok() && Within(key, lo, hi) && !MayMeet(t, lo, hi)
    ensures Find(t.run, key).None?
  {
    if Find(t.run, key).Some? {
      HoldsOnlyCovered(t, key);
      LessIsStrictOrder();
    }
  }

  lemma {:induction false} RangeFind(ids: seq<nat>, tables: Tables, lo: Key, hi: Key, key: Key)
    requires TablesOk(tables) && Within(key, lo, hi)
    ensures FindFirst(RangeRuns(ids, tables, lo, hi), key) == LevelFind(ids, tables, key)
  {
    if ids != [] {
      RangeFind(ids[1..], tables, lo, hi, key);
      LevelFindCons(ids, tables, key);
      var head := if ids[0] in tables && MayMeet(tables[ids[0]], lo, hi) then [tables[ids[0]].run] else [];
      FindFirstConcat(head, RangeRuns(ids[1..], tables, lo, hi), key);
      assert head != [] ==> head[1..] == [];
      if ids[0] in tables && !MayMeet(tables[ids[0]], lo, hi) {
        SkippedHoldsNothing(tables[ids[0]], lo, hi, key);
      }
    }
  }

  lemma {:induction false} DeepRunsFind(levels: LevelLists, l: nat, tables: Tables, lo: Key, hi: Key, key: Key)
    requires |levels| == ROWS && TablesOk(tables) && Within(key, lo, hi)
    ensures FindFirst(DeepRuns(levels, l, tables, lo, hi), key) == DeepFind(levels, l, tables, key)
    decreases MAX_LEVELS - l
  {
    hide LevelFind, Within, Table.Ok;
    assert forall id :: id in tables ==> tables[id].run != [] by { NonEmpty(tables); }
    if l < MAX_LEVELS {
      RangeFind(levels[l], tables, lo, hi, key);
      DeepRunsFind(levels, l + 1, tables, lo, hi, key);
      FindFirstConcat(RangeRuns(levels[l], tables, lo, hi), DeepRuns(levels, l + 1, tables, lo, hi), key);
    }
  }

  lemma NonEmpty(tables: Tables)
    requires TablesOk(tables)
    ensures forall id :: id in tables ==> tables[id].run != []
  {
  }

  /** Within the range, the runs of the scan in order are the layers of a lookup. */
  lemma ScanFinds(s: Live, lo: Key, hi: Key, key: Key)
    requires LevelsOk(s.shot.levels, s.shot.readers) && Within(key, lo, hi)
    ensures FindFirst(MemRuns(s.active, s.imm) + TableRuns(s.shot, lo, hi), key) == Lookup(s, key)
  {
    var levels, tables := s.shot.levels, s.shot.readers;
    DeepRunsFind(levels, 1, tables, lo, hi, key);
    DiskFindIsDeepFind(levels, tables, key);
    FindFirstConcat(RunsOf(Reversed(levels[0]), tables), DeepRuns(levels, 1, tables, lo, hi), key);
    FindFirstConcat(MemRuns(s.active, s.imm), TableRuns(s.shot, lo, hi), key);
    MemRunsFind(s, key);
  }

  lemma MemRunsFind(s: Live, key: Key)
    ensures FindFirst(MemRuns(s.active, s.imm), key) == MemFind(s, key)
  {
    var below := if s.imm.Some? then [s.imm.value.run] else [];
    FindFirstConcat([s.active.run], below, key);
    FindInOne(s.active.run, key);
    FindInOne(ImmRun(s.imm), key);
  }

  lemma FindInOne(run: seq<Entry>, key: Key)
    ensures FindFirst([run], key) == Find(run, key)
  {
    assert [run][1..] == [];
  }

  // ----- The range -----

  lemma {:induction false} UpToFind(s: seq<Entry>, hi: Key, key: Key)
    requires Ascending(s)
    ensures Ascending(UpTo(s, hi)) && (UpTo(s, hi) != [] ==> s != [] && UpTo(s, hi)[0] == s[0])
    ensures Find(UpTo(s, hi), key) == if |hi| > 0 && Less(hi, key) then None else Find(s, key)
  {
    if s != [] {
      UpToFind(s[1..], hi, key);
      if |hi| > 0 && Less(hi, s[0].key) {
        if !Less(hi, key) {
          LessIsStrictOrder();
          FindBelow(s, key);
        }
      } else {
        AscendingCons(s[0], UpTo(s[1..], hi));
        assert ([s[0]] + UpTo(s[1..], hi))[1..] == UpTo(s[1..], hi);
      }
    }
  }

  lemma {:induction false} UpToMembers(s: seq<Entry>, hi: Key)
    ensures forall e :: e in UpTo(s, hi) ==> e in s
  {
    if s != [] {
      UpToMembers(s[1..], hi);
      assert s == [s[0]] + s[1..];
    }
  }

  lemma ScannedFind(runs: seq<seq<Entry>>, lo: Key, key: Key)
    requires AllAscending(runs)
    ensures Ascending(Scanned(runs, lo)) && (forall e :: e in Scanned(runs, lo) ==> !e.IsTombstone())
    ensures Visible(Find(Scanned(runs, lo), key)) == if Less(key, lo) then None else Visible(FindFirst(runs, key))
  {
    MergeAscending(runs);
    LiveAscending(Merge(runs));
    FindLive(Merge(runs), key);
    FindMerge(runs, key);
    FindFrom(Runs.Live(Merge(runs)), lo, key);
    var n := FromSplits(Runs.Live(Merge(runs)), lo);
  }

  lemma {:induction false} RangeAscend(ids: seq<nat>, tables: Tables, lo: Key, hi: Key)
    requires TablesOk(tables)
    ensures AllAscending(RangeRuns(ids, tables, lo, hi))
  {
    if ids != [] {
      RangeAscend(ids[1..], tables, lo, hi);
    }
  }

  lemma {:induction false} DeepAscend(levels: LevelLists, l: nat, tables: Tables, lo: Key, hi: Key)
    requires |levels| == ROWS && TablesOk(tables)
    ensures AllAscending(DeepRuns(levels, l, tables, lo, hi))
    decreases MAX_LEVELS - l
  {
    if l < MAX_LEVELS {
      RangeAscend(levels[l], tables, lo, hi);
      DeepAscend(levels, l + 1, tables, lo, hi);
    }
  }

  lemma RunsAscend(s: Live, lo: Key, hi: Key)
    requires LiveInv(s)
    ensures LevelsOk(s.shot.levels, s.shot.readers)
    ensures AllAscending(MemRuns(s.active, s.imm) + TableRuns(s.shot, lo, hi))
  {
    hide LiveInv, AllListed, DistinctIds, DisjointLevels, FilesBounded;
    MemsAscend(s);
    Compaction.RunsOfAscending(Reversed(s.shot.levels[0]), s.shot.readers);
    DeepAscend(s.shot.levels, 1, s.shot.readers, lo, hi);
  }

  /** The pairs a caller takes from the scan of [lo, hi]. */
  ghost function ScanPairs(s: Live, lo: Key, hi: Key): seq<Entry>
    requires LevelsOk(s.shot.levels, s.shot.readers)
  {
    UpTo(Scanned(MemRuns(s.active, s.imm) + TableRuns(s.shot, lo, hi), lo), hi)
  }

  /**
   Scan agrees with the view: the pairs taken are in strictly ascending order, none of them a tombstone,
   and they hold a key exactly when it is in the range and its last write is a put, with that value.
   */
  lemma ScanAgreesWithView(s: Live, lo: Key, hi: Key)
    requires LiveInv(s)
    ensures LevelsOk(s.shot.levels, s.shot.readers)
    ensures Ascending(ScanPairs(s, lo, hi)) && (forall e :: e in ScanPairs(s, lo, hi) ==> !e.IsTombstone())
    ensures forall key: Key ::
      Visible(Find(ScanPairs(s, lo, hi), key)) == if Within(key, lo, hi) then Visible(LastOf(s.hist, key)) else None
  {
    hide LiveInv, AllListed, DistinctIds, DisjointLevels, TableFormat.TableRun, Scanned, MemRuns, TableRuns, UpTo,
         AllAscending;
    RunsAscend(s, lo, hi);
    var runs := MemRuns(s.active, s.imm) + TableRuns(s.shot, lo, hi);
    ScannedFind(runs, lo, []);
    UpToFind(Scanned(runs, lo), hi, []);
    UpToMembers(Scanned(runs, lo), hi);
    forall key: Key
      ensures Visible(Find(ScanPairs(s, lo, hi), key)) ==
        if Within(key, lo, hi) then Visible(LastOf(s.hist, key)) else None
    {
      ScannedFind(runs, lo, key);
      UpToFind(Scanned(runs, lo), hi, key);
      if Within(key, lo, hi) {
        ScanFinds(s, lo, hi, key);
        LookupIsLastWrite(s, key);
      }
    }
  }

  /** What is taken is the map within the range: its pairs, no others, in ascending order of keys. */
  lemma ScanIsMap(s: Live, lo: Key, hi: Key)
    requires LiveInv(s)
    ensures LevelsOk(s.shot.levels, s.shot.readers) && Ascending(ScanPairs(s, lo, hi))
    ensures forall e :: e in ScanPairs(s, lo, hi) ==>
      && AtMost(lo, e.key) && (hi != [] ==> AtMost(e.key, hi))
      && e.key in MapOf(s.hist) && MapOf(s.hist)[e.key] == e.value
    ensures forall key :: key in MapOf(s.hist) && AtMost(lo, key) && (hi != [] ==> AtMost(key, hi)) ==>
      exists e :: e in ScanPairs(s, lo, hi) && e.key == key
  {
    hide LiveInv, LevelsOk, ScanPairs, MapOf, LastOf, AtMost, Find, Ascending;
    ScanAgreesWithView(s, lo, hi);
    PairsAreMap(ScanPairs(s, lo, hi), s.hist, lo, hi);
  }

  lemma PairsAreMap(pairs: seq<Entry>, hist: seq<Entry>, lo: Key, hi: Key)
    requires Ascending(pairs) && forall e :: e in pairs ==> !e.IsTombstone()
    requires forall key: Key ::
      Visible(Find(pairs, key)) == if Within(key, lo, hi) then Visible(LastOf(hist, key)) else None
    ensures forall e :: e in pairs ==> Within(e.key, lo, hi) && e.key in MapOf(hist) && MapOf(hist)[e.key] == e.value
    ensures forall key :: key in MapOf(hist) && Within(key, lo, hi) ==> exists e :: e in pairs && e.key == key
  {
    hide MapOf, LastOf, Within, Find, Ascending;
    forall e | e in pairs
      ensures Within(e.key, lo, hi) && e.key in MapOf(hist) && MapOf(hist)[e.key] == e.value
    {
      FindMember(pairs, e);
      MapIsLastWrites(hist, e.key);
    }
    forall key | key in MapOf(hist) && Within(key, lo, hi)
      ensures exists e :: e in pairs && e.key == key
    {
      MapIsLastWrites(hist, key);
      FoundIsMember(pairs, key);
    }
  }

  lemma FoundIsMember(pairs: seq<Entry>, key: Key)
    requires Visible(Find(pairs, key)).Some?
    ensures exists e :: e in pairs && e.key == key
  {
    assert Find(pairs, key).value in pairs;
  }
}
