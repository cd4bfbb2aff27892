/**
 What a compaction does to the levels, and that it changes no lookup. The inputs are given to the
 merge in the order of the task: for level 0 that is the order in which the manifest lists it.
 */
module Compaction {
  import opened Bytes
  import opened Entries
  import opened Runs
  import opened Cuts
  import opened Levels
  import opened Picker

  const COMPACTION_BLOCK_SIZE: nat := 4096

  function Without(ids: seq<nat>, deleted: set<nat>): seq<nat> {
    if ids == [] then []
    else (if ids[0] in deleted then [] else [ids[0]]) + Without(ids[1..], deleted)
  }

  /** The version edit: the deleted tables leave every level, the added ones join level `to`. */
  function Edited(levels: LevelLists, deleted: set<nat>, added: seq<nat>, to: nat): (r: LevelLists)
    ensures |r| == |levels|
    ensures forall l :: 0 <= l < |levels| ==> r[l] == Without(levels[l], deleted) + if l == to then added else []
  {
    seq(|levels|, l requires 0 <= l < |levels| => Without(levels[l], deleted) + if l == to then added else [])
  }

  function Members(ids: seq<nat>): set<nat> {
    set id | id in ids
  }

  /** The tables after the edit: inputs gone, one new table for each piece of output. */
  ghost predicate Replaced(tables: Tables, now: Tables, deleted: set<nat>, added: seq<nat>, outs: seq<seq<Entry>>) {
    && |added| == |outs|
    && now.Keys == (tables.Keys - deleted) + Members(added)
    && (forall id :: id in tables && id !in deleted ==> now[id] == tables[id])
    && (forall i :: 0 <= i < |added| ==> added[i] in now && now[added[i]] == Table(outs[i], COMPACTION_BLOCK_SIZE))
  }

  ghost predicate FreshIds(added: seq<nat>, tables: Tables) {
    && (forall i :: 0 <= i < |added| ==> added[i] !in tables)
    && (forall i, j :: 0 <= i < j < |added| ==> added[i] != added[j])
  }

  function MergedRun(task: Task, tables: Tables): seq<Entry> {
    Keep(Merge(RunsOf(task.Inputs(), tables)), task.isBottom)
  }

  /** The task takes whole level 0 in some order, or the first table of a deeper level. */
  ghost predicate Sensible(levels: LevelLists, tables: Tables, task: Task) {
    && LevelsOk(levels, tables)
    && task.from < MAX_LEVELS && task.to == task.from + 1
    && (if task.from == 0 then task.inputFrom == levels[0] || task.inputFrom == Reversed(levels[0])
        else levels[task.from] != [] && task.inputFrom == [levels[task.from][0]])
    && task.inputTo == Overlapping(task.inputFrom, levels[task.to], tables)
    && task.isBottom == IsBottom(task.to, levels, MAX_LEVELS)
  }

  /** The outcome of running the task: levels and tables before, and now. */
  ghost predicate Outcome(levels: LevelLists, tables: Tables, task: Task, added: seq<nat>, outs: seq<seq<Entry>>,
                          levels': LevelLists, tables': Tables)
  {
    && Sensible(levels, tables, task)
    && FreshIds(added, tables)
    && Flatten(outs) == MergedRun(task, tables) && (forall i :: 0 <= i < |outs| ==> outs[i] != [])
    && Replaced(tables, tables', Members(task.Inputs()), added, outs)
    && levels' == Edited(levels, Members(task.Inputs()), added, task.to)
  }

  // ----- Lists with some members taken out -----

  lemma {:induction false} WithoutMembers(ids: seq<nat>, deleted: set<nat>)
    ensures forall id :: id in Without(ids, deleted) <==> id in ids && id !in deleted
  {
    if ids != [] {
      WithoutMembers(ids[1..], deleted);
      assert ids == [ids[0]] + ids[1..];
    }
  }

  /** After an edit a level lists what it listed and is not deleted; the added tables join level `to`, and only that. */
  lemma EditedLists(levels: LevelLists, deleted: set<nat>, added: seq<nat>, to: nat, l: nat, id: nat)
    requires l < |levels|
    ensures id in Edited(levels, deleted, added, to)[l] <==>
      (id in levels[l] && id !in deleted) || (l == to && id in added)
  {
    hide Without;
    WithoutMembers(levels[l], deleted);
  }

  /** Taking members out keeps the order of the rest: each place comes from a later or equal place. */
  lemma {:induction false} WithoutOrder(ids: seq<nat>, deleted: set<nat>) returns (place: seq<nat>)
    ensures |place| == |Without(ids, deleted)|
    ensures forall i :: 0 <= i < |place| ==> place[i] < |ids| && ids[place[i]] == Without(ids, deleted)[i]
    ensures forall i, j :: 0 <= i < j < |place| ==> place[i] < place[j]
  {
    if ids == [] {
      place := [];
    } else {
      var rest := WithoutOrder(ids[1..], deleted);
      var shifted := seq(|rest|, i requires 0 <= i < |rest| => rest[i] + 1);
      place := if ids[0] in deleted then shifted else [0] + shifted;
      assert Without(ids, deleted) == (if ids[0] in deleted then [] else [ids[0]]) + Without(ids[1..], deleted);
    }
  }

  /** The listed tables are the same in both. */
  ghost predicate SameTables(ids: seq<nat>, a: Tables, b: Tables) {
    forall i :: 0 <= i < |ids| ==> ids[i] in a && ids[i] in b && a[ids[i]] == b[ids[i]]
  }

  lemma {:induction false} LevelFindFrame(ids: seq<nat>, a: Tables, b: Tables, key: Key)
    requires SameTables(ids, a, b)
    ensures LevelFind(ids, a, key) == LevelFind(ids, b, key)
  {
    if ids != [] {
      LevelFindCons(ids, a, key);
      LevelFindCons(ids, b, key);
      LevelFindFrame(ids[1..], a, b, key);
    }
  }

  lemma {:induction false} LevelFindConcat(x: seq<nat>, y: seq<nat>, tables: Tables, key: Key)
    ensures RunsOf(x + y, tables) == RunsOf(x, tables) + RunsOf(y, tables)
    ensures LevelFind(x + y, tables, key) == Or(LevelFind(x, tables, key), LevelFind(y, tables, key))
  {
    RunsOfConcat(x, y, tables);
    FindFirstConcat(RunsOf(x, tables), RunsOf(y, tables), key);
  }

  lemma {:induction false} RunsOfConcat(x: seq<nat>, y: seq<nat>, tables: Tables)
    ensures RunsOf(x + y, tables) == RunsOf(x, tables) + RunsOf(y, tables)
  {
    if x == [] {
      assert x + y == y;
    } else {
      assert (x + y)[1..] == x[1..] + y;
      RunsOfConcat(x[1..], y, tables);
    }
  }

  /** A key found in a list lies in a table of the list. */
  lemma {:induction false} FoundInTable(ids: seq<nat>, tables: Tables, key: Key) returns (i: nat)
    requires LevelFind(ids, tables, key).Some?
    ensures i < |ids| && ids[i] in tables && Find(tables[ids[i]].run, key) == LevelFind(ids, tables, key)
  {
    LevelFindCons(ids, tables, key);
    if ids[0] in tables && Find(tables[ids[0]].run, key).Some? {
      i := 0;
    } else {
      i := FoundInTable(ids[1..], tables, key);
      i := i + 1;
    }
  }

  /** In a disjoint list one table at most holds a key, so its place does not matter. */
  lemma OneHolds(ids: seq<nat>, tables: Tables, i: nat, key: Key)
    requires TablesOk(tables) && Disjoint(ids, tables)
    requires i < |ids| && ids[i] in tables && Find(tables[ids[i]].run, key).Some?
    ensures LevelFind(ids, tables, key) == Find(tables[ids[i]].run, key)
    ensures forall j :: 0 <= j < |ids| && j != i && ids[j] in tables ==> Find(tables[ids[j]].run, key).None?
  {
    forall j | 0 <= j < |ids| && j != i && ids[j] in tables
      ensures Find(tables[ids[j]].run, key).None?
    {
      HoldsOnlyCovered(tables[ids[i]], key);
      assert Apart(tables[ids[i]], tables[ids[j]]) by {
        if j < i { assert Apart(tables[ids[j]], tables[ids[i]]); }
      }
      ApartCoversOne(tables[ids[i]], tables[ids[j]], key);
      if Find(tables[ids[j]].run, key).Some? {
        HoldsOnlyCovered(tables[ids[j]], key);
      }
    }
    if LevelFind(ids, tables, key).None? {
      NoneHolds(ids, tables, key, i);
    } else {
      var f := FoundInTable(ids, tables, key);
    }
  }

  lemma {:induction false} NoneHolds(ids: seq<nat>, tables: Tables, key: Key, i: nat)
    requires LevelFind(ids, tables, key).None? && i < |ids| && ids[i] in tables
    ensures Find(tables[ids[i]].run, key).None?
  {
    LevelFindCons(ids, tables, key);
    if i > 0 {
      NoneHolds(ids[1..], tables, key, i - 1);
    }
  }

  /** A part of a disjoint list holds exactly what the list holds, if it has the table that does. */
  lemma PartHolds(ids: seq<nat>, part: seq<nat>, tables: Tables, key: Key)
    requires TablesOk(tables) && Disjoint(ids, tables)
    requires forall i :: 0 <= i < |part| ==> part[i] in ids
    ensures LevelFind(part, tables, key).Some? ==> LevelFind(part, tables, key) == LevelFind(ids, tables, key)
  {
    if LevelFind(part, tables, key).Some? {
      var g := FoundInTable(part, tables, key);
      var j :| 0 <= j < |ids| && ids[j] == part[g];
      OneHolds(ids, tables, j, key);
    }
  }

  /** Two parts with different tables do not both hold a key. */
  lemma PartsDoNotShare(ids: seq<nat>, a: seq<nat>, b: seq<nat>, tables: Tables, key: Key)
    requires TablesOk(tables) && Disjoint(ids, tables)
    requires forall i :: 0 <= i < |a| ==> a[i] in ids && a[i] !in b
    requires forall i :: 0 <= i < |b| ==> b[i] in ids
    ensures !(LevelFind(a, tables, key).Some? && LevelFind(b, tables, key).Some?)
  {
    if LevelFind(a, tables, key).Some? && LevelFind(b, tables, key).Some? {
      var f := FoundInTable(a, tables, key);
      var g := FoundInTable(b, tables, key);
      var i :| 0 <= i < |ids| && ids[i] == a[f];
      var j :| 0 <= j < |ids| && ids[j] == b[g];
      OneHolds(ids, tables, i, key);
    }
  }

  /**
   Splitting a disjoint list: what the whole list holds for a key is held by the part taken out or
   by the part left, and never by both.
   */
  lemma SplitList(ids: seq<nat>, part: seq<nat>, tables: Tables, key: Key)
    requires TablesOk(tables) && Disjoint(ids, tables)
    requires forall i :: 0 <= i < |ids| ==> ids[i] in tables
    requires forall id :: id in part ==> id in ids
    ensures var rest := Without(ids, Members(part));
      && LevelFind(ids, tables, key) == Or(LevelFind(rest, tables, key), LevelFind(part, tables, key))
      && !(LevelFind(rest, tables, key).Some? && LevelFind(part, tables, key).Some?)
  {
    var rest := Without(ids, Members(part));
    WithoutMembers(ids, Members(part));
    hide Disjoint, Table.Ok;
    assert forall i :: 0 <= i < |rest| ==> rest[i] in rest;
    PartHolds(ids, rest, tables, key);
    PartHolds(ids, part, tables, key);
    PartsDoNotShare(ids, rest, part, tables, key);
    if LevelFind(ids, tables, key).Some? {
      var f := FoundInTable(ids, tables, key);
      HeldByPart(if ids[f] in part then part else rest, tables, ids[f], key);
    }
  }

  lemma HeldByPart(part: seq<nat>, tables: Tables, id: nat, key: Key)
    requires id in part && id in tables && Find(tables[id].run, key).Some?
    ensures LevelFind(part, tables, key).Some?
  {
    var g :| 0 <= g < |part| && part[g] == id;
    if LevelFind(part, tables, key).None? {
      NoneHolds(part, tables, key, g);
    }
  }

  // ----- Where the inputs come from -----

  lemma {:induction false} TouchingMembers(ids: seq<nat>, tables: Tables, lo: Key, hi: Key)
    requires TablesNotEmpty(tables)
    ensures forall id :: id in Touching(ids, tables, lo, hi) <==>
      id in ids && id in tables && Touches(tables[id], lo, hi)
  {
    if ids != [] {
      TouchingMembers(ids[..|ids| - 1], tables, lo, hi);
      assert ids == ids[..|ids| - 1] + [ids[|ids| - 1]];
    }
  }

  lemma ReversedMembers(ids: seq<nat>)
    ensures forall id :: id in Reversed(ids) <==> id in ids
  {
    var r := Reversed(ids);
    forall i | 0 <= i < |ids|
      ensures ids[i] in r && r[i] in ids
    {
      assert r[|ids| - 1 - i] == ids[i];
    }
  }

  /** The inputs are tables of the two levels, and those alone leave them. */
  lemma InputsPlaced(levels: LevelLists, tables: Tables, task: Task)
    requires Sensible(levels, tables, task)
    ensures forall id :: id in task.inputFrom ==> id in levels[task.from] && id in tables && id !in levels[task.to]
    ensures forall id :: id in task.inputTo ==> id in levels[task.to] && id in tables && id !in levels[task.from]
    ensures forall l, id :: 0 <= l < ROWS && l != task.from && l != task.to && id in levels[l] ==>
      id !in Members(task.Inputs())
    ensures task.from == 0 ==> forall id :: id in levels[0] ==> id in task.inputFrom
    ensures forall id :: id in levels[task.to] ==> (id in Members(task.Inputs()) <==> id in task.inputTo)
    ensures forall id :: id in levels[task.from] ==> (id in Members(task.Inputs()) <==> id in task.inputFrom)
  {
    ReversedMembers(levels[0]);
    var lo, hi := LeastMin(task.inputFrom, tables), GreatestMax(task.inputFrom, tables);
    TouchingMembers(levels[task.to], tables, lo, hi);
    hide Overlapping, Touching, IsBottom;
    assert forall id :: id in task.inputFrom ==> id in levels[task.from];
    assert forall l, m, id :: 0 <= l < ROWS && 0 <= m < ROWS && id in levels[l] && id in levels[m] ==> l == m;
  }

  lemma {:induction false} WithoutSame(ids: seq<nat>, a: set<nat>, b: set<nat>)
    requires forall i :: 0 <= i < |ids| ==> (ids[i] in a <==> ids[i] in b)
    ensures Without(ids, a) == Without(ids, b)
  {
    if ids != [] {
      WithoutSame(ids[1..], a, b);
    }
  }

  lemma {:induction false} WithoutNothing(ids: seq<nat>, deleted: set<nat>)
    requires forall i :: 0 <= i < |ids| ==> ids[i] !in deleted
    ensures Without(ids, deleted) == ids
  {
    if ids != [] {
      WithoutNothing(ids[1..], deleted);
    }
  }

  lemma {:induction false} WithoutAll(ids: seq<nat>, deleted: set<nat>)
    requires forall i :: 0 <= i < |ids| ==> ids[i] in deleted
    ensures Without(ids, deleted) == []
  {
    if ids != [] {
      WithoutAll(ids[1..], deleted);
    }
  }

  /** A table left in the target level shares no key with the hull of what comes from above. */
  lemma RestMissesHull(levels: LevelLists, tables: Tables, task: Task, key: Key)
    requires Sensible(levels, tables, task)
    requires LevelFind(Without(levels[task.to], Members(task.Inputs())), tables, key).Some?
    ensures LevelFind(task.inputFrom, tables, key).None?
  {
    if LevelFind(task.inputFrom, tables, key).Some? {
      var rest := Without(levels[task.to], Members(task.Inputs()));
      WithoutMembers(levels[task.to], Members(task.Inputs()));
      InputsPlaced(levels, tables, task);
      var i := FoundInTable(rest, tables, key);
      var f := FoundInTable(task.inputFrom, tables, key);
      var lo, hi := LeastMin(task.inputFrom, tables), GreatestMax(task.inputFrom, tables);
      assert rest[i] in rest;
      TouchingMembers(levels[task.to], tables, lo, hi);
      assert !Touches(tables[rest[i]], lo, hi);
      BothCoverTouches(tables[task.inputFrom[f]], tables[rest[i]], task.inputFrom, f, tables, key);
    }
  }

  lemma BothCoverTouches(a: Table, t: Table, ids: seq<nat>, f: nat, tables: Tables, key: Key)
    requires TablesOk(tables) && f < |ids| && ids[f] in tables && tables[ids[f]] == a && t.Ok()
    requires Find(a.run, key).Some? && Find(t.run, key).Some?
    ensures Touches(t, LeastMin(ids, tables), GreatestMax(ids, tables))
  {
    HoldsOnlyCovered(a, key);
    HoldsOnlyCovered(t, key);
    HullCovers(ids, tables, f);
    hide LeastMin, GreatestMax;
    LessIsStrictOrder();
  }

  // ----- Lookups before and after -----

  /** What the four parts the task deals with hold for a key. */
  datatype Parts = Parts(above: Option<Entry>, fromRest: Option<Entry>, target: Option<Entry>, toRest: Option<Entry>)

  function PartsAt(levels: LevelLists, tables: Tables, task: Task, key: Key): Parts
    requires |levels| == ROWS && task.to < ROWS && task.from < ROWS
  {
    var deleted := Members(task.Inputs());
    Parts(LevelFind(task.inputFrom, tables, key), LevelFind(Without(levels[task.from], deleted), tables, key),
          LevelFind(task.inputTo, tables, key), LevelFind(Without(levels[task.to], deleted), tables, key))
  }

  /** What the merged output holds: the higher entry, but no tombstone at the bottom. */
  function MergedEntry(p: Parts, isBottom: bool): Option<Entry> {
    var m := Or(p.above, p.target);
    if isBottom && m.Some? && m.value.IsTombstone() then None else m
  }

  lemma PartsExclude(levels: LevelLists, tables: Tables, task: Task, key: Key)
    requires Sensible(levels, tables, task)
    ensures var p := PartsAt(levels, tables, task, key);
      && (p.toRest.Some? ==> p.above.None? && p.target.None?)
      && LevelFind(levels[task.to], tables, key) == Or(p.toRest, p.target)
      && (task.from > 0 ==> (p.fromRest.Some? ==> p.above.None?)
                            && LevelFind(levels[task.from], tables, key) == Or(p.fromRest, p.above))
      && (task.from == 0 ==> p.fromRest.None?)
  {
    InputsPlaced(levels, tables, task);
    WithoutSame(levels[task.to], Members(task.Inputs()), Members(task.inputTo));
    SplitList(levels[task.to], task.inputTo, tables, key);
    if LevelFind(Without(levels[task.to], Members(task.Inputs())), tables, key).Some? {
      RestMissesHull(levels, tables, task, key);
    }
    if task.from > 0 {
      WithoutSame(levels[task.from], Members(task.Inputs()), Members(task.inputFrom));
      SplitList(levels[task.from], task.inputFrom, tables, key);
    } else {
      WithoutAll(levels[0], Members(task.Inputs()));
    }
  }

  lemma {:induction false} RunsOfAdded(added: seq<nat>, outs: seq<seq<Entry>>, tables: Tables)
    requires |added| == |outs|
    requires forall i :: 0 <= i < |added| ==>
      added[i] in tables && tables[added[i]] == Table(outs[i], COMPACTION_BLOCK_SIZE)
    ensures RunsOf(added, tables) == outs
  {
    if added != [] {
      RunsOfAdded(added[1..], outs[1..], tables);
      assert outs == [outs[0]] + outs[1..];
    }
  }

  lemma AddedHold(added: seq<nat>, outs: seq<seq<Entry>>, tables: Tables, key: Key)
    requires |added| == |outs|
    requires forall i :: 0 <= i < |added| ==>
      added[i] in tables && tables[added[i]] == Table(outs[i], COMPACTION_BLOCK_SIZE)
    ensures LevelFind(added, tables, key) == Find(Flatten(outs), key)
  {
    RunsOfAdded(added, outs, tables);
    FindInPieces(outs, key);
  }

  lemma {:induction false} RunsOfAscending(ids: seq<nat>, tables: Tables)
    requires TablesOk(tables)
    ensures AllAscending(RunsOf(ids, tables))
  {
    if ids != [] {
      RunsOfAscending(ids[1..], tables);
    }
  }

  lemma FindMergedRun(levels: LevelLists, tables: Tables, task: Task, key: Key)
    requires Sensible(levels, tables, task)
    ensures Ascending(MergedRun(task, tables))
    ensures Find(MergedRun(task, tables), key) == MergedEntry(PartsAt(levels, tables, task, key), task.isBottom)
  {
    var runs := RunsOf(task.Inputs(), tables);
    RunsOfAscending(task.Inputs(), tables);
    MergeAscending(runs);
    LiveAscending(Merge(runs));
    FindLive(Merge(runs), key);
    FindMerge(runs, key);
    LevelFindConcat(task.inputFrom, task.inputTo, tables, key);
  }

  /** The target level afterwards holds what was left of it, or the merged entry. */
  lemma TargetAfter(levels: LevelLists, tables: Tables, task: Task, added: seq<nat>, outs: seq<seq<Entry>>,
                    levels': LevelLists, tables': Tables, key: Key)
    requires Outcome(levels, tables, task, added, outs, levels', tables')
    ensures var p := PartsAt(levels, tables, task, key);
      LevelFind(levels'[task.to], tables', key) == Or(p.toRest, MergedEntry(p, task.isBottom))
  {
    hide TablesOk, AllListed, DistinctIds, DisjointLevels, MergedRun, LevelFind, Overlapping, IsBottom, SameTables;
    var rest := Without(levels[task.to], Members(task.Inputs()));
    LevelFindConcat(rest, added, tables', key);
    RestFrame(levels, tables, task, added, outs, levels', tables', task.to);
    LevelFindFrame(rest, tables, tables', key);
    AddedHold(added, outs, tables', key);
    FindMergedRun(levels, tables, task, key);
  }

  /** The tables that stay in a level are the same afterwards. */
  lemma RestFrame(levels: LevelLists, tables: Tables, task: Task, added: seq<nat>, outs: seq<seq<Entry>>,
                  levels': LevelLists, tables': Tables, l: nat)
    requires Outcome(levels, tables, task, added, outs, levels', tables') && l < ROWS
    ensures SameTables(Without(levels[l], Members(task.Inputs())), tables, tables')
  {
    var rest := Without(levels[l], Members(task.Inputs()));
    WithoutMembers(levels[l], Members(task.Inputs()));
    forall i | 0 <= i < |rest|
      ensures rest[i] in tables && rest[i] in tables' && tables'[rest[i]] == tables[rest[i]]
    {
      assert rest[i] in rest;
    }
  }

  lemma OtherRowsSame(levels: LevelLists, tables: Tables, task: Task, added: seq<nat>, outs: seq<seq<Entry>>,
                      levels': LevelLists, tables': Tables, l: nat, key: Key)
    requires Outcome(levels, tables, task, added, outs, levels', tables')
    requires l < ROWS && l != task.from && l != task.to
    ensures levels'[l] == levels[l]
    ensures LevelFind(levels'[l], tables', key) == LevelFind(levels[l], tables, key)
    ensures l == 0 ==> LevelFind(Reversed(levels'[0]), tables', key) == LevelFind(Reversed(levels[0]), tables, key)
  {
    InputsPlaced(levels, tables, task);
    WithoutNothing(levels[l], Members(task.Inputs()));
    RestFrame(levels, tables, task, added, outs, levels', tables', l);
    LevelFindFrame(levels[l], tables, tables', key);
    ReversedMembers(levels[0]);
    if l == 0 {
      assert SameTables(Reversed(levels[0]), tables, tables');
      LevelFindFrame(Reversed(levels[0]), tables, tables', key);
    }
  }

  lemma {:induction false} DeeperSame(levels: LevelLists, tables: Tables, task: Task, added: seq<nat>,
                                      outs: seq<seq<Entry>>, levels': LevelLists, tables': Tables, l: nat, key: Key)
    requires Outcome(levels, tables, task, added, outs, levels', tables')
    requires task.to < l
    ensures DeepFind(levels', l, tables', key) == DeepFind(levels, l, tables, key)
    decreases MAX_LEVELS - l
  {
    hide TablesOk, AllListed, DistinctIds, DisjointLevels, Replaced, LevelFind, Overlapping, IsBottom, MergedRun,
         FreshIds;
    if l < MAX_LEVELS {
      OtherRowsSame(levels, tables, task, added, outs, levels', tables', l, key);
      DeeperSame(levels, tables, task, added, outs, levels', tables', l + 1, key);
    }
  }

  /** Below the bottom there is nothing a dropped tombstone could have been hiding. */
  lemma {:induction false} NothingBelowBottom(levels: LevelLists, tables: Tables, to: nat, l: nat, key: Key)
    requires |levels| == ROWS && IsBottom(to, levels, MAX_LEVELS) && to < l
    ensures DeepFind(levels, l, tables, key).None?
    decreases MAX_LEVELS - l
  {
    if l < MAX_LEVELS {
      NothingBelowBottom(levels, tables, to, l + 1, key);
    }
  }

  /** The heart of the matter, on what the parts hold: the reader sees the same. */
  lemma SameVisible(p: Parts, deep: Option<Entry>, isBottom: bool)
    requires p.toRest.Some? ==> p.above.None? && p.target.None?
    requires p.fromRest.Some? ==> p.above.None?
    requires isBottom ==> deep.None?
    ensures Visible(Or(p.fromRest, Or(Or(p.toRest, MergedEntry(p, isBottom)), deep)))
         == Visible(Or(Or(p.fromRest, p.above), Or(Or(p.toRest, p.target), deep)))
  {
  }

  /** From level 1 on: nothing the levels show changes, at any level at or above the task. */
  lemma {:induction false} DeepVisibleSame(levels: LevelLists, tables: Tables, task: Task, added: seq<nat>,
                                           outs: seq<seq<Entry>>, levels': LevelLists, tables': Tables,
                                           l: nat, key: Key)
    requires Outcome(levels, tables, task, added, outs, levels', tables')
    requires 1 <= l <= task.from && task.to < MAX_LEVELS
    ensures Visible(DeepFind(levels', l, tables', key)) == Visible(DeepFind(levels, l, tables, key))
    decreases task.from - l
  {
    hide TablesOk, AllListed, DistinctIds, DisjointLevels, Replaced, LevelFind, Overlapping, IsBottom, MergedRun,
         FreshIds;
    if l < task.from {
      OtherRowsSame(levels, tables, task, added, outs, levels', tables', l, key);
      DeepVisibleSame(levels, tables, task, added, outs, levels', tables', l + 1, key);
    } else {
      VisibleSameAtTask(levels, tables, task, added, outs, levels', tables', key);
    }
  }

  /** The rows of the task afterwards, and everything below them. */
  lemma RowsAfter(levels: LevelLists, tables: Tables, task: Task, added: seq<nat>, outs: seq<seq<Entry>>,
                  levels': LevelLists, tables': Tables, key: Key)
    requires Outcome(levels, tables, task, added, outs, levels', tables')
    ensures var p, deep := PartsAt(levels, tables, task, key), DeepFind(levels, task.to + 1, tables, key);
      && LevelFind(levels'[task.from], tables', key) == p.fromRest
      && LevelFind(levels'[task.to], tables', key) == Or(p.toRest, MergedEntry(p, task.isBottom))
      && DeepFind(levels', task.to + 1, tables', key) == deep
      && (task.isBottom ==> deep.None?)
  {
    hide TablesOk, AllListed, DistinctIds, DisjointLevels, LevelFind, MergedEntry, Overlapping, IsBottom, MergedRun;
    TargetAfter(levels, tables, task, added, outs, levels', tables', key);
    DeeperSame(levels, tables, task, added, outs, levels', tables', task.to + 1, key);
    if task.isBottom {
      NothingBelowBottom(levels, tables, task.to, task.to + 1, key);
    }
    var rest := Without(levels[task.from], Members(task.Inputs()));
    assert levels'[task.from] == rest + [] == rest;
    RestFrame(levels, tables, task, added, outs, levels', tables', task.from);
    LevelFindFrame(rest, tables, tables', key);
  }

  lemma VisibleSameAtTask(levels: LevelLists, tables: Tables, task: Task, added: seq<nat>, outs: seq<seq<Entry>>,
                          levels': LevelLists, tables': Tables, key: Key)
    requires Outcome(levels, tables, task, added, outs, levels', tables')
    requires 1 <= task.from && task.to < MAX_LEVELS
    ensures Visible(DeepFind(levels', task.from, tables', key)) == Visible(DeepFind(levels, task.from, tables, key))
  {
    hide TablesOk, AllListed, DistinctIds, DisjointLevels, Replaced, LevelFind, MergedEntry, Overlapping, IsBottom,
         FreshIds, MergedRun;
    var p, deep := PartsAt(levels, tables, task, key), DeepFind(levels, task.to + 1, tables, key);
    PartsExclude(levels, tables, task, key);
    RowsAfter(levels, tables, task, added, outs, levels', tables', key);
    SameVisible(p, deep, task.isBottom);
    assert DeepFind(levels, task.from, tables, key) == Or(Or(p.fromRest, p.above), Or(Or(p.toRest, p.target), deep));
    assert DeepFind(levels', task.from, tables', key)
        == Or(p.fromRest, Or(Or(p.toRest, MergedEntry(p, task.isBottom)), deep));
  }
}
