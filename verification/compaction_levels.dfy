/** A compaction leaves the levels well-formed: every level from 1 on stays disjoint. */
module CompactionLevels {
  import opened Bytes
  import opened Entries
  import opened Runs
  import opened Cuts
  import opened Levels
  import opened Picker
  import opened Compaction
  import TableFormat

  // ----- The new tables -----

  /** Every entry of the output comes out of an input table, which covers its key. */
  lemma OutputFromInput(levels: LevelLists, tables: Tables, task: Task, e: Entry) returns (id: nat)
    requires Sensible(levels, tables, task) && e in MergedRun(task, tables)
    ensures id in task.Inputs() && id in tables && e in tables[id].run && tables[id].Covers(e.key)
  {
    hide AllListed, DistinctIds, DisjointLevels, Overlapping, IsBottom;
    FindMergedRun(levels, tables, task, e.key);
    FindMember(MergedRun(task, tables), e);
    var x, y := LevelFind(task.inputFrom, tables, e.key), LevelFind(task.inputTo, tables, e.key);
    var i;
    if x.Some? {
      i := FoundInTable(task.inputFrom, tables, e.key);
      id := task.inputFrom[i];
    } else {
      i := FoundInTable(task.inputTo, tables, e.key);
      id := task.inputTo[i];
    }
    HoldsOnlyCovered(tables[id], e.key);
  }

  lemma OutputTablesOk(levels: LevelLists, tables: Tables, task: Task, outs: seq<seq<Entry>>)
    requires Sensible(levels, tables, task)
    requires Flatten(outs) == MergedRun(task, tables) && (forall i :: 0 <= i < |outs| ==> outs[i] != [])
    ensures OrderedPieces(outs)
    ensures forall i :: 0 <= i < |outs| ==> Table(outs[i], COMPACTION_BLOCK_SIZE).Ok()
  {
    FindMergedRun(levels, tables, task, []);
    PiecesOrdered(outs);
    forall i | 0 <= i < |outs|
      ensures TableFormat.TableRun(outs[i])
    {
      InFlatten(outs, i);
      forall e | e in outs[i]
        ensures e.Storable()
      {
        var id := OutputFromInput(levels, tables, task, e);
      }
    }
  }

  lemma TablesOkAfter(levels: LevelLists, tables: Tables, task: Task, added: seq<nat>, outs: seq<seq<Entry>>,
                      levels': LevelLists, tables': Tables)
    requires Outcome(levels, tables, task, added, outs, levels', tables')
    ensures TablesOk(tables')
  {
    OutputTablesOk(levels, tables, task, outs);
    hide AllListed, DistinctIds, DisjointLevels, Overlapping, IsBottom, MergedRun, Table.Ok;
    forall id | id in tables'
      ensures tables'[id].Ok()
    {
      if id in added {
        var i :| 0 <= i < |added| && added[i] == id;
      }
    }
  }

  // ----- Identifiers -----

  lemma AllListedAfter(levels: LevelLists, tables: Tables, task: Task, added: seq<nat>, outs: seq<seq<Entry>>,
                       levels': LevelLists, tables': Tables)
    requires Outcome(levels, tables, task, added, outs, levels', tables')
    ensures AllListed(levels', tables')
  {
    hide DistinctIds, DisjointLevels, Overlapping, IsBottom, MergedRun, FreshIds;
    forall l, i | 0 <= l < ROWS && 0 <= i < |levels'[l]|
      ensures levels'[l][i] in tables'
    {
      var rest := Without(levels[l], Members(task.Inputs()));
      WithoutMembers(levels[l], Members(task.Inputs()));
      if i < |rest| {
        assert levels'[l][i] == rest[i] && rest[i] in rest;
      } else {
        assert levels'[l][i] == added[i - |rest|];
      }
    }
  }

  lemma DistinctInRow(ids: seq<nat>, deleted: set<nat>, i: nat, j: nat)
    requires forall x, y :: 0 <= x < y < |ids| ==> ids[x] != ids[y]
    requires i < |Without(ids, deleted)| && j < |Without(ids, deleted)|
    requires Without(ids, deleted)[i] == Without(ids, deleted)[j]
    ensures i == j
  {
    var place := WithoutOrder(ids, deleted);
    assert ids[place[i]] == ids[place[j]];
  }

  lemma DistinctIdsAfter(levels: LevelLists, tables: Tables, deleted: set<nat>, added: seq<nat>, to: nat)
    requires AllListed(levels, tables) && DistinctIds(levels) && FreshIds(added, tables)
    ensures DistinctIds(Edited(levels, deleted, added, to))
  {
    var now := Edited(levels, deleted, added, to);
    forall l, i, m, j | 0 <= l < |now| && 0 <= i < |now[l]| && 0 <= m < |now| && 0 <= j < |now[m]|
      && now[l][i] == now[m][j]
      ensures l == m && i == j
    {
      var a, b := Without(levels[l], deleted), Without(levels[m], deleted);
      WithoutMembers(levels[l], deleted);
      WithoutMembers(levels[m], deleted);
      assert i < |a| ==> a[i] in a && now[l][i] == a[i];
      assert j < |b| ==> b[j] in b && now[m][j] == b[j];
      assert i >= |a| ==> now[l][i] == added[i - |a|];
      assert j >= |b| ==> now[m][j] == added[j - |b|];
      if i < |a| && j < |b| && l == m {
        DistinctInRow(levels[l], deleted, i, j);
      }
    }
  }

  // ----- Disjointness -----

  /** Members of a disjoint list, in the same tables, stay disjoint when others leave. */
  lemma DisjointRest(ids: seq<nat>, deleted: set<nat>, a: Tables, b: Tables)
    requires TablesOk(a) && TablesOk(b) && Disjoint(ids, a)
    requires SameTables(Without(ids, deleted), a, b)
    ensures Disjoint(Without(ids, deleted), b)
  {
    var rest := Without(ids, deleted);
    var place := WithoutOrder(ids, deleted);
    forall i, j | 0 <= i < j < |rest| && rest[i] in b && rest[j] in b
      ensures Apart(b[rest[i]], b[rest[j]])
    {
      assert Apart(a[ids[place[i]]], a[ids[place[j]]]);
    }
  }

  /** A table beside the hull of the upper inputs, and apart from every table that touches the hull. */
  ghost predicate Beside(t: Table, lo: Key, hi: Key)
    requires t.run != []
  {
    !Touches(t, lo, hi)
  }

  /** The key lies in the hull, or in a table that touches the hull and is apart from t. */
  ghost predicate Near(t: Table, p: Table, lo: Key, hi: Key, key: Key)
    requires t.run != [] && p.run != []
  {
    && p.Covers(key)
    && ((AtMost(lo, p.MinKey()) && AtMost(p.MaxKey(), hi)) || (Touches(p, lo, hi) && Apart(t, p)))
  }

  lemma BesideBoth(t: Table, lo: Key, hi: Key, p: Table, q: Table, first: Key, last: Key)
    requires t.Ok() && p.run != [] && q.run != [] && Beside(t, lo, hi)
    requires Near(t, p, lo, hi, first) && Near(t, q, lo, hi, last)
    requires AtMost(lo, hi) && AtMost(t.MinKey(), t.MaxKey())
    ensures Less(t.MaxKey(), first) || Less(last, t.MinKey())
  {
    LessIsStrictOrder();
  }

  lemma MinAtMostMax(t: Table)
    requires t.Ok()
    ensures AtMost(t.MinKey(), t.MaxKey())
  {
    LessIsStrictOrder();
    assert |t.run| > 1 ==> Less(t.run[0].key, t.run[|t.run| - 1].key);
  }

  /** An input table, seen from a table left in the target level. */
  lemma InputIsNear(levels: LevelLists, tables: Tables, task: Task, rest: nat, id: nat, key: Key)
    requires Sensible(levels, tables, task)
    requires rest in levels[task.to] && rest !in task.inputTo && rest in tables
    requires id in task.Inputs() && id in tables && tables[id].Covers(key)
    ensures var lo, hi := LeastMin(task.inputFrom, tables), GreatestMax(task.inputFrom, tables);
      Beside(tables[rest], lo, hi) && Near(tables[rest], tables[id], lo, hi, key)
  {
    var lo, hi := LeastMin(task.inputFrom, tables), GreatestMax(task.inputFrom, tables);
    TouchingMembers(levels[task.to], tables, lo, hi);
    hide DistinctIds, IsBottom;
    if id in task.inputFrom {
      var f :| 0 <= f < |task.inputFrom| && task.inputFrom[f] == id;
      HullCovers(task.inputFrom, tables, f);
    } else {
      assert id in levels[task.to] && Touches(tables[id], lo, hi);
      var x :| 0 <= x < |levels[task.to]| && levels[task.to][x] == id;
      var y :| 0 <= y < |levels[task.to]| && levels[task.to][y] == rest;
      assert Disjoint(levels[task.to], tables);
      assert x < y ==> Apart(tables[id], tables[rest]);
      assert y < x ==> Apart(tables[rest], tables[id]);
    }
  }

  lemma HullNotInverted(ids: seq<nat>, tables: Tables, i: nat)
    requires TablesOk(tables) && i < |ids| && ids[i] in tables
    ensures AtMost(LeastMin(ids, tables), GreatestMax(ids, tables))
  {
    HullCovers(ids, tables, i);
    MinAtMostMax(tables[ids[i]]);
    hide LeastMin, GreatestMax;
    LessIsStrictOrder();
  }

  /** What stays in the target level is apart from every table of the output. */
  lemma RestApartFromOutput(levels: LevelLists, tables: Tables, task: Task, outs: seq<seq<Entry>>, rest: nat, i: nat)
    requires Sensible(levels, tables, task)
    requires Flatten(outs) == MergedRun(task, tables) && (forall i :: 0 <= i < |outs| ==> outs[i] != [])
    requires rest in levels[task.to] && rest !in task.inputTo && rest in tables && i < |outs|
    ensures Apart(tables[rest], Table(outs[i], COMPACTION_BLOCK_SIZE))
  {
    hide Sensible, Overlapping, IsBottom, MergedRun, LeastMin, GreatestMax, Near, Beside, Flatten, Table.Ok, Touches,
         Less;
    InFlatten(outs, i);
    var first, last := outs[i][0], outs[i][|outs[i]| - 1];
    var p := OutputFromInput(levels, tables, task, first);
    var q := OutputFromInput(levels, tables, task, last);
    RestBeside(levels, tables, task, rest, p, q, first.key, last.key);
  }

  lemma RestBeside(levels: LevelLists, tables: Tables, task: Task, rest: nat, p: nat, q: nat, first: Key, last: Key)
    requires Sensible(levels, tables, task) && rest in levels[task.to] && rest !in task.inputTo && rest in tables
    requires p in task.Inputs() && p in tables && tables[p].Covers(first)
    requires q in task.Inputs() && q in tables && tables[q].Covers(last)
    ensures tables[rest].run != [] && (Less(tables[rest].MaxKey(), first) || Less(last, tables[rest].MinKey()))
  {
    SensibleTables(levels, tables, task);
    hide Sensible, LeastMin, GreatestMax, Near, Beside, TableFormat.TableRun, Less;
    var lo, hi := LeastMin(task.inputFrom, tables), GreatestMax(task.inputFrom, tables);
    InputIsNear(levels, tables, task, rest, p, first);
    InputIsNear(levels, tables, task, rest, q, last);
    UpperInputs(levels, tables, task, p);
    HullNotInverted(task.inputFrom, tables, 0);
    MinAtMostMax(tables[rest]);
    BesideBoth(tables[rest], lo, hi, tables[p], tables[q], first, last);
  }

  lemma SensibleTables(levels: LevelLists, tables: Tables, task: Task)
    requires Sensible(levels, tables, task)
    ensures TablesOk(tables) && TablesNotEmpty(tables)
  {
  }

  lemma {:induction false} NothingTouchesEmptyHull(ids: seq<nat>, tables: Tables)
    requires TablesOk(tables)
    ensures Touching(ids, tables, [], []) == []
  {
    if ids != [] {
      NothingTouchesEmptyHull(ids[..|ids| - 1], tables);
      assert forall id :: id in tables ==> tables[id].run[0] in tables[id].run;
    }
  }

  /** A task with any input has an upper input. */
  lemma UpperInputs(levels: LevelLists, tables: Tables, task: Task, id: nat)
    requires Sensible(levels, tables, task) && id in task.Inputs()
    ensures task.inputFrom != [] && task.inputFrom[0] in tables
  {
    InputsPlaced(levels, tables, task);
    hide DistinctIds, DisjointLevels;
    NothingTouchesEmptyHull(levels[task.to], tables);
    assert task.inputFrom != [] ==> task.inputFrom[0] in task.inputFrom;
  }

  lemma DisjointConcat(a: seq<nat>, b: seq<nat>, tables: Tables)
    requires TablesOk(tables) && Disjoint(a, tables) && Disjoint(b, tables)
    requires forall i, j :: 0 <= i < |a| && 0 <= j < |b| && a[i] in tables && b[j] in tables ==>
      Apart(tables[a[i]], tables[b[j]])
    ensures Disjoint(a + b, tables)
  {
    hide TableFormat.TableRun, Apart;
    var row := a + b;
    forall i, j | 0 <= i < j < |row| && row[i] in tables && row[j] in tables
      ensures Apart(tables[row[i]], tables[row[j]])
    {
      assert row[i] == if i < |a| then a[i] else b[i - |a|];
      assert row[j] == if j < |a| then a[j] else b[j - |a|];
    }
  }

  /** The output is disjoint, being cut out of an ascending run. */
  lemma AddedDisjoint(added: seq<nat>, outs: seq<seq<Entry>>, tables: Tables)
    requires TablesOk(tables) && OrderedPieces(outs) && |added| == |outs|
    requires forall i :: 0 <= i < |added| ==>
      added[i] in tables && tables[added[i]] == Table(outs[i], COMPACTION_BLOCK_SIZE)
    ensures Disjoint(added, tables)
  {
    hide Table.Ok, Ascending, Less;
    forall i, j | 0 <= i < j < |added|
      ensures Apart(tables[added[i]], tables[added[j]])
    {
      assert outs[i][|outs[i]| - 1] in outs[i] && outs[j][0] in outs[j];
    }
  }

  lemma RestAndAdded(levels: LevelLists, tables: Tables, task: Task, added: seq<nat>, outs: seq<seq<Entry>>,
                     levels': LevelLists, tables': Tables, i: nat, j: nat)
    requires Outcome(levels, tables, task, added, outs, levels', tables') && TablesOk(tables')
    requires i < |Without(levels[task.to], Members(task.Inputs()))| && j < |added|
    ensures var rest := Without(levels[task.to], Members(task.Inputs()));
      rest[i] in tables' && added[j] in tables' && Apart(tables'[rest[i]], tables'[added[j]])
  {
    var rest := Without(levels[task.to], Members(task.Inputs()));
    WithoutMembers(levels[task.to], Members(task.Inputs()));
    RestFrame(levels, tables, task, added, outs, levels', tables', task.to);
    assert rest[i] in rest;
    hide AllListed, DistinctIds, DisjointLevels, Overlapping, IsBottom, MergedRun, FreshIds, Table.Ok, Apart, Flatten;
    RestApartFromOutput(levels, tables, task, outs, rest[i], j);
  }

  lemma TargetDisjointAfter(levels: LevelLists, tables: Tables, task: Task, added: seq<nat>, outs: seq<seq<Entry>>,
                            levels': LevelLists, tables': Tables)
    requires Outcome(levels, tables, task, added, outs, levels', tables') && TablesOk(tables')
    ensures Disjoint(levels'[task.to], tables')
  {
    hide Edited, AllListed, DistinctIds, Overlapping, IsBottom, MergedRun, FreshIds, TableFormat.TableRun, Apart,
         Flatten, OrderedPieces, Without;
    var rest := Without(levels[task.to], Members(task.Inputs()));
    OutputTablesOk(levels, tables, task, outs);
    RestFrame(levels, tables, task, added, outs, levels', tables', task.to);
    DisjointRest(levels[task.to], Members(task.Inputs()), tables, tables');
    hide Disjoint, DisjointLevels;
    AddedDisjoint(added, outs, tables');
    forall i, j | 0 <= i < |rest| && 0 <= j < |added| && rest[i] in tables' && added[j] in tables'
      ensures Apart(tables'[rest[i]], tables'[added[j]])
    {
      RestAndAdded(levels, tables, task, added, outs, levels', tables', i, j);
    }
    DisjointConcat(rest, added, tables');
  }

  lemma DisjointAfter(levels: LevelLists, tables: Tables, task: Task, added: seq<nat>, outs: seq<seq<Entry>>,
                      levels': LevelLists, tables': Tables)
    requires Outcome(levels, tables, task, added, outs, levels', tables') && TablesOk(tables')
    ensures DisjointLevels(levels', tables')
  {
    forall l | 1 <= l < ROWS
      ensures Disjoint(levels'[l], tables')
    {
      if l == task.to {
        TargetDisjointAfter(levels, tables, task, added, outs, levels', tables');
      } else {
        assert levels'[l] == Without(levels[l], Members(task.Inputs()));
        RestFrame(levels, tables, task, added, outs, levels', tables', l);
        DisjointRest(levels[l], Members(task.Inputs()), tables, tables');
      }
    }
  }

  /** The levels stay well-formed, whatever the order of the inputs and whatever the target level. */
  lemma LevelsOkAfter(levels: LevelLists, tables: Tables, task: Task, added: seq<nat>, outs: seq<seq<Entry>>,
                      levels': LevelLists, tables': Tables)
    requires Outcome(levels, tables, task, added, outs, levels', tables')
    ensures LevelsOk(levels', tables')
  {
    TablesOkAfter(levels, tables, task, added, outs, levels', tables');
    AllListedAfter(levels, tables, task, added, outs, levels', tables');
    DistinctIdsAfter(levels, tables, Members(task.Inputs()), added, task.to);
    DisjointAfter(levels, tables, task, added, outs, levels', tables');
  }
}
