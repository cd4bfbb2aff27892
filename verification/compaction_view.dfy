/**
 What a compaction does to lookups. With the level-0 inputs newest first, nothing. The manifest's own
 order, in which the engine takes the last level-0 table to be the newest, is the other one: then the
 oldest version wins. A task out of level 6 writes to a level that is never read.
 */
module CompactionView {
  import opened Bytes
  import opened Entries
  import opened Runs
  import opened Cuts
  import opened Levels
  import opened Picker
  import opened Compaction
  import opened CompactionLevels
  import opened Block
  import Hashing
  import TableFormat

  /** What a reader sees of a key on disk. */
  ghost function DiskView(levels: LevelLists, tables: Tables, key: Key): Option<seq<byte>>
    requires LevelsOk(levels, tables)
  {
    Visible(DiskFind(levels, tables, key))
  }

  /** A compaction of level 0, at one key, for either order of the inputs. */
  lemma Level0At(levels: LevelLists, tables: Tables, task: Task, added: seq<nat>, outs: seq<seq<Entry>>,
                 levels': LevelLists, tables': Tables, key: Key)
    requires Outcome(levels, tables, task, added, outs, levels', tables') && LevelsOk(levels', tables')
    requires task.from == 0
    ensures DiskView(levels', tables', key) == DiskView(levels, tables, key)
      <==> Visible(LevelFind(task.inputFrom, tables, key)) == Visible(LevelFind(Reversed(levels[0]), tables, key))
  {
    var p, deep := PartsAt(levels, tables, task, key), DeepFind(levels, 2, tables, key);
    Level0Before(levels, tables, task, key);
    Level0After(levels, tables, task, added, outs, levels', tables', key);
    BothOrdersFind(levels[0], tables, key);
    hide TablesOk, AllListed, DistinctIds, DisjointLevels, LevelFind, DiskFind, Overlapping, IsBottom, MergedRun,
         Replaced, FreshIds, MergedEntry;
    Level0Visible(p, LevelFind(Reversed(levels[0]), tables, key), deep, task.isBottom);
  }

  lemma Level0Before(levels: LevelLists, tables: Tables, task: Task, key: Key)
    requires Sensible(levels, tables, task) && task.from == 0
    ensures var p, deep := PartsAt(levels, tables, task, key), DeepFind(levels, 2, tables, key);
      && DiskFind(levels, tables, key) ==
        Or(LevelFind(Reversed(levels[0]), tables, key), Or(Or(p.toRest, p.target), deep))
      && (p.toRest.Some? ==> p.above.None? && p.target.None?)
      && (task.isBottom ==> deep.None?)
  {
    hide TablesOk, AllListed, DistinctIds, DisjointLevels, LevelFind, DiskFind, Overlapping, IsBottom;
    PartsExclude(levels, tables, task, key);
    DiskFindIsDeepFind(levels, tables, key);
    if task.isBottom {
      NothingBelowBottom(levels, tables, 1, 2, key);
    }
  }

  lemma Level0After(levels: LevelLists, tables: Tables, task: Task, added: seq<nat>, outs: seq<seq<Entry>>,
                    levels': LevelLists, tables': Tables, key: Key)
    requires Outcome(levels, tables, task, added, outs, levels', tables') && LevelsOk(levels', tables')
    requires task.from == 0
    ensures var p, deep := PartsAt(levels, tables, task, key), DeepFind(levels, 2, tables, key);
      DiskFind(levels', tables', key) == Or(Or(p.toRest, MergedEntry(p, task.isBottom)), deep)
  {
    hide TablesOk, AllListed, DistinctIds, DisjointLevels, LevelFind, DiskFind, Overlapping, IsBottom, MergedRun,
         Replaced, FreshIds, MergedEntry, PartsAt;
    RowsAfter(levels, tables, task, added, outs, levels', tables', key);
    Level0Emptied(levels, tables, task, added, outs, levels', tables');
    DiskFindIsDeepFind(levels', tables', key);
    NoRunsNoEntry(tables', key);
  }

  lemma Level0Visible(p: Parts, newest: Option<Entry>, deep: Option<Entry>, isBottom: bool)
    requires p.toRest.Some? ==> p.above.None? && p.target.None?
    requires p.above.Some? <==> newest.Some?
    requires isBottom ==> deep.None?
    ensures Visible(Or(Or(p.toRest, MergedEntry(p, isBottom)), deep)) ==
      Visible(Or(newest, Or(Or(p.toRest, p.target), deep)))
      <==> Visible(p.above) == Visible(newest)
  {
  }

  lemma Level0Emptied(levels: LevelLists, tables: Tables, task: Task, added: seq<nat>, outs: seq<seq<Entry>>,
                      levels': LevelLists, tables': Tables)
    requires Outcome(levels, tables, task, added, outs, levels', tables') && task.from == 0
    ensures levels'[0] == []
  {
    InputsPlaced(levels, tables, task);
    WithoutAll(levels[0], Members(task.Inputs()));
  }

  lemma NoRunsNoEntry(tables: Tables, key: Key)
    ensures Reversed([]) == [] && LevelFind([], tables, key) == None
  {
  }

  /** Both orders of a list find an entry for the same keys. */
  lemma BothOrdersFind(ids: seq<nat>, tables: Tables, key: Key)
    ensures LevelFind(ids, tables, key).Some? <==> LevelFind(Reversed(ids), tables, key).Some?
  {
    var r := Reversed(ids);
    if LevelFind(ids, tables, key).Some? {
      var i := FoundInTable(ids, tables, key);
      assert r[|ids| - 1 - i] == ids[i];
      if LevelFind(r, tables, key).None? {
        NoneHolds(r, tables, key, |ids| - 1 - i);
      }
    }
    if LevelFind(r, tables, key).Some? {
      var i := FoundInTable(r, tables, key);
      assert r[i] == ids[|ids| - 1 - i];
      if LevelFind(ids, tables, key).None? {
        NoneHolds(ids, tables, key, |ids| - 1 - i);
      }
    }
  }

  /** A compaction out of level 1 to 5, at one key. */
  lemma DeeperAt(levels: LevelLists, tables: Tables, task: Task, added: seq<nat>, outs: seq<seq<Entry>>,
                 levels': LevelLists, tables': Tables, key: Key)
    requires Outcome(levels, tables, task, added, outs, levels', tables') && LevelsOk(levels', tables')
    requires 1 <= task.from && task.to < MAX_LEVELS
    ensures DiskView(levels', tables', key) == DiskView(levels, tables, key)
  {
    hide TablesOk, AllListed, DistinctIds, DisjointLevels, LevelFind, DiskFind, Overlapping, IsBottom, MergedRun,
         Replaced, FreshIds;
    OtherRowsSame(levels, tables, task, added, outs, levels', tables', 0, key);
    DeepVisibleSame(levels, tables, task, added, outs, levels', tables', 1, key);
    DiskFindIsDeepFind(levels, tables, key);
    DiskFindIsDeepFind(levels', tables', key);
  }

  /**
   With the level-0 inputs oldest first, a lookup keeps its answer exactly when the oldest and the
   newest level-0 version of the key show the same.
   */
  lemma OldestFirstKeepsExactly(levels: LevelLists, tables: Tables, task: Task, added: seq<nat>, outs: seq<seq<Entry>>,
                                levels': LevelLists, tables': Tables, key: Key)
    requires Outcome(levels, tables, task, added, outs, levels', tables')
    requires task.from == 0 && task.inputFrom == levels[0]
    ensures LevelsOk(levels', tables')
    ensures DiskView(levels', tables', key) == DiskView(levels, tables, key)
      <==> Visible(LevelFind(levels[0], tables, key)) == Visible(LevelFind(Reversed(levels[0]), tables, key))
  {
    LevelsOkAfter(levels, tables, task, added, outs, levels', tables');
    Level0At(levels, tables, task, added, outs, levels', tables', key);
  }

  /** What the levels above 6 hold for a key. */
  ghost function AboveLast(levels: LevelLists, tables: Tables, key: Key): Option<Entry>
    requires |levels| == ROWS
  {
    Or(LevelFind(Reversed(levels[0]), tables, key), Range(levels, 1, tables, key))
  }

  ghost function Range(levels: LevelLists, l: nat, tables: Tables, key: Key): Option<Entry>
    requires |levels| == ROWS
    decreases MAX_LEVELS - l
  {
    if l >= MAX_LEVELS - 1 then None else Or(LevelFind(levels[l], tables, key), Range(levels, l + 1, tables, key))
  }

  lemma {:induction false} DeepSplit(levels: LevelLists, l: nat, tables: Tables, key: Key)
    requires |levels| == ROWS && 1 <= l <= MAX_LEVELS - 1
    ensures DeepFind(levels, l, tables, key) ==
      Or(Range(levels, l, tables, key), LevelFind(levels[MAX_LEVELS - 1], tables, key))
    decreases MAX_LEVELS - l
  {
    hide LevelFind;
    if l < MAX_LEVELS - 1 {
      DeepSplit(levels, l + 1, tables, key);
    } else {
      assert DeepFind(levels, MAX_LEVELS, tables, key) == None;
    }
  }

  lemma {:induction false} RangeSame(levels: LevelLists, tables: Tables, task: Task, added: seq<nat>,
                                     outs: seq<seq<Entry>>, levels': LevelLists, tables': Tables, l: nat, key: Key)
    requires Outcome(levels, tables, task, added, outs, levels', tables')
    requires task.from == MAX_LEVELS - 1 && 1 <= l
    ensures Range(levels', l, tables', key) == Range(levels, l, tables, key)
    decreases MAX_LEVELS - l
  {
    hide TablesOk, AllListed, DistinctIds, DisjointLevels, LevelFind, Overlapping, IsBottom, MergedRun, Replaced;
    if l < MAX_LEVELS - 1 {
      OtherRowsSame(levels, tables, task, added, outs, levels', tables', l, key);
      RangeSame(levels, tables, task, added, outs, levels', tables', l + 1, key);
    }
  }

  /**
   A compaction out of level 6 keeps the answer for a key exactly when the table it takes does not
   show that key: because it has no live entry for it, or because a higher level hides it.
   */
  lemma Level6KeepsExactly(levels: LevelLists, tables: Tables, task: Task, added: seq<nat>, outs: seq<seq<Entry>>,
                           levels': LevelLists, tables': Tables, key: Key)
    requires Outcome(levels, tables, task, added, outs, levels', tables')
    requires task.from == MAX_LEVELS - 1
    ensures LevelsOk(levels', tables')
    ensures DiskView(levels', tables', key) == DiskView(levels, tables, key)
      <==> Visible(LevelFind(task.inputFrom, tables, key)).None? || AboveLast(levels, tables, key).Some?
  {
    LevelsOkAfter(levels, tables, task, added, outs, levels', tables');
    hide TablesOk, AllListed, DistinctIds, DisjointLevels, LevelFind, DiskFind, Overlapping, IsBottom, MergedRun,
         Replaced, FreshIds, MergedEntry, Range;
    PartsExclude(levels, tables, task, key);
    Level6Lookup(levels, tables, key);
    Level6Lookup(levels', tables', key);
    Level6After(levels, tables, task, added, outs, levels', tables', key);
  }

  lemma Level6Lookup(levels: LevelLists, tables: Tables, key: Key)
    requires LevelsOk(levels, tables)
    ensures DiskFind(levels, tables, key) ==
      Or(AboveLast(levels, tables, key), LevelFind(levels[MAX_LEVELS - 1], tables, key))
  {
    hide TablesOk, AllListed, DistinctIds, DisjointLevels, LevelFind, DiskFind, Range, DeepFind;
    DiskFindIsDeepFind(levels, tables, key);
    DeepSplit(levels, 1, tables, key);
  }

  lemma Level6After(levels: LevelLists, tables: Tables, task: Task, added: seq<nat>, outs: seq<seq<Entry>>,
                    levels': LevelLists, tables': Tables, key: Key)
    requires Outcome(levels, tables, task, added, outs, levels', tables')
    requires task.from == MAX_LEVELS - 1
    ensures AboveLast(levels', tables', key) == AboveLast(levels, tables, key)
    ensures LevelFind(levels'[MAX_LEVELS - 1], tables', key) == PartsAt(levels, tables, task, key).fromRest
  {
    hide TablesOk, AllListed, DistinctIds, DisjointLevels, LevelFind, DiskFind, Overlapping, IsBottom, MergedRun,
         Replaced, FreshIds, MergedEntry, PartsAt;
    RowsAfter(levels, tables, task, added, outs, levels', tables', key);
    OtherRowsSame(levels, tables, task, added, outs, levels', tables', 0, key);
    RangeSame(levels, tables, task, added, outs, levels', tables', 1, key);
  }

  // ----- All compactions -----

  /**
   What a task has to meet for no lookup to change: out of level 0, each key's first input version shows the
   same as its newest; out of level 6, the table taken shows nothing that no higher level hides.
   */
  ghost predicate Harmless(levels: LevelLists, tables: Tables, task: Task)
    requires |levels| == ROWS
  {
    if task.from == 0 then forall key: Key :: FirstShowsNewest(levels, tables, task, key)
    else task.from == MAX_LEVELS - 1 ==> forall key: Key :: HiddenInLast(levels, tables, task, key)
  }

  ghost predicate FirstShowsNewest(levels: LevelLists, tables: Tables, task: Task, key: Key)
    requires |levels| == ROWS
  {
    Visible(LevelFind(task.inputFrom, tables, key)) == Visible(LevelFind(Reversed(levels[0]), tables, key))
  }

  ghost predicate HiddenInLast(levels: LevelLists, tables: Tables, task: Task, key: Key)
    requires |levels| == ROWS
  {
    Visible(LevelFind(task.inputFrom, tables, key)).None? || AboveLast(levels, tables, key).Some?
  }

  /**
   Any compaction, whatever level it comes out of and whatever the order of its inputs: the levels stay
   well-formed, and all lookups keep their answers exactly when the task is harmless. A tombstone is dropped
   only where it hides nothing.
   */
  lemma CompactionKeepsViewExactly(levels: LevelLists, tables: Tables, task: Task, added: seq<nat>,
                                   outs: seq<seq<Entry>>, levels': LevelLists, tables': Tables)
    requires Outcome(levels, tables, task, added, outs, levels', tables')
    ensures LevelsOk(levels', tables')
    ensures (forall key: Key :: DiskView(levels', tables', key) == DiskView(levels, tables, key))
      <==> Harmless(levels, tables, task)
  {
    LevelsOkAfter(levels, tables, task, added, outs, levels', tables');
    hide Outcome, DiskView, LevelsOk, LevelFind, AboveLast, FirstShowsNewest, HiddenInLast;
    forall key: Key
      ensures DiskView(levels', tables', key) == DiskView(levels, tables, key) <==>
        HarmlessAt(levels, tables, task, key)
    {
      ViewAt(levels, tables, task, added, outs, levels', tables', key);
    }
    HarmlessIs(levels, tables, task);
  }

  ghost predicate HarmlessAt(levels: LevelLists, tables: Tables, task: Task, key: Key)
    requires |levels| == ROWS
  {
    if task.from == 0 then FirstShowsNewest(levels, tables, task, key)
    else task.from == MAX_LEVELS - 1 ==> HiddenInLast(levels, tables, task, key)
  }

  lemma HarmlessIs(levels: LevelLists, tables: Tables, task: Task)
    requires |levels| == ROWS
    ensures Harmless(levels, tables, task) <==> forall key: Key :: HarmlessAt(levels, tables, task, key)
  {
    hide FirstShowsNewest, HiddenInLast;
    if forall key: Key :: HarmlessAt(levels, tables, task, key) {
      forall key: Key
        ensures task.from == 0 ==> FirstShowsNewest(levels, tables, task, key)
        ensures task.from == MAX_LEVELS - 1 ==> HiddenInLast(levels, tables, task, key)
      {
        assert HarmlessAt(levels, tables, task, key);
      }
    }
  }

  lemma ViewAt(levels: LevelLists, tables: Tables, task: Task, added: seq<nat>, outs: seq<seq<Entry>>,
               levels': LevelLists, tables': Tables, key: Key)
    requires Outcome(levels, tables, task, added, outs, levels', tables') && LevelsOk(levels', tables')
    ensures DiskView(levels', tables', key) == DiskView(levels, tables, key) <==> HarmlessAt(levels, tables, task, key)
  {
    hide DiskView, TablesOk, AllListed, DistinctIds, DisjointLevels, LevelFind, AboveLast, Overlapping, IsBottom,
         MergedRun, Replaced, FreshIds;
    if task.from == 0 {
      Level0At(levels, tables, task, added, outs, levels', tables', key);
    } else if task.from == MAX_LEVELS - 1 {
      Level6KeepsExactly(levels, tables, task, added, outs, levels', tables', key);
    } else {
      DeeperAt(levels, tables, task, added, outs, levels', tables', key);
    }
  }

  /** Newest inputs first and a target level that is read: always harmless. */
  lemma NewestFirstIsHarmless(levels: LevelLists, tables: Tables, task: Task)
    requires |levels| == ROWS && task.to == task.from + 1 && task.to < MAX_LEVELS
    requires task.from == 0 ==> task.inputFrom == Reversed(levels[0])
    ensures Harmless(levels, tables, task)
  {
  }

  // ----- The two failures, concretely -----

  const NO_TABLES: LevelLists := [[], [], [], [], [], [], [], []]

  /** The only tables are in row l. */
  function RowOnly(l: nat, ids: seq<nat>): LevelLists
    requires l < ROWS
  {
    NO_TABLES[l := ids]
  }

  lemma RowIs(l: nat, ids: seq<nat>)
    requires l < ROWS
    ensures |RowOnly(l, ids)| == ROWS
    ensures forall m :: 0 <= m < ROWS ==> RowOnly(l, ids)[m] == if m == l then ids else []
  {
  }

  lemma RowOk(l: nat, ids: seq<nat>, tables: Tables)
    requires l < ROWS && TablesOk(tables) && (forall i :: 0 <= i < |ids| ==> ids[i] in tables)
    requires (forall i, j :: 0 <= i < j < |ids| ==> ids[i] != ids[j]) && (l > 0 ==> |ids| <= 1)
    ensures LevelsOk(RowOnly(l, ids), tables)
  {
    RowIs(l, ids);
    hide RowOnly, Table.Ok;
  }

  lemma RowFind(l: nat, ids: seq<nat>, tables: Tables, key: Key)
    requires l < ROWS && LevelsOk(RowOnly(l, ids), tables)
    ensures DiskFind(RowOnly(l, ids), tables, key) ==
      if l == 0 then LevelFind(Reversed(ids), tables, key) else if l < MAX_LEVELS then LevelFind(ids, tables, key)
        else None
  {
    hide AllListed, DistinctIds, DisjointLevels, TablesOk, LevelFind, DiskFind;
    RowIs(l, ids);
    DiskFindIsDeepFind(RowOnly(l, ids), tables, key);
    RowDeep(l, ids, tables, 1, key);
    NoRunsNoEntry(tables, key);
  }

  lemma {:induction false} RowDeep(l: nat, ids: seq<nat>, tables: Tables, m: nat, key: Key)
    requires l < ROWS && |RowOnly(l, ids)| == ROWS
    ensures DeepFind(RowOnly(l, ids), m, tables, key) ==
      if m <= l < MAX_LEVELS then LevelFind(ids, tables, key) else None
    decreases MAX_LEVELS - m
  {
    hide LevelFind, RowOnly;
    if m < MAX_LEVELS {
      RowIs(l, ids);
      NoRunsNoEntry(tables, key);
      RowDeep(l, ids, tables, m + 1, key);
    }
  }

  lemma OneTable(id: nat, run: seq<Entry>, blockSize: nat, key: Key)
    ensures LevelFind([id], map[id := Table(run, blockSize)], key) == Find(run, key)
  {
    LevelFindCons([id], map[id := Table(run, blockSize)], key);
    NoRunsNoEntry(map[id := Table(run, blockSize)], key);
  }

  lemma SingleRun(e: Entry)
    requires e.Storable()
    ensures Table([e], COMPACTION_BLOCK_SIZE).Ok() && Find([e], e.key) == Some(e)
  {
  }

  /** The edit of a compaction that takes all there is. */
  lemma RowEdited(l: nat, ids: seq<nat>, id: nat)
    requires l + 1 < ROWS
    ensures Edited(RowOnly(l, ids), Members(ids), [id], l + 1) == RowOnly(l + 1, [id])
  {
    RowIs(l, ids);
    RowIs(l + 1, [id]);
    var now := Edited(RowOnly(l, ids), Members(ids), [id], l + 1);
    forall m | 0 <= m < ROWS
      ensures now[m] == RowOnly(l + 1, [id])[m]
    {
      WithoutAll(ids, Members(ids));
    }
  }

  /** Everything there is, merged into one table of the next row. */
  lemma RowOutcome(l: nat, ids: seq<nat>, tables: Tables, id: nat, out: seq<Entry>)
    requires l < MAX_LEVELS && LevelsOk(RowOnly(l, ids), tables) && id !in tables && tables.Keys == Members(ids)
    requires l > 0 ==> |ids| == 1
    requires out != [] && MergedRun(Task(l, l + 1, ids, [], true), tables) == out
    ensures Outcome(RowOnly(l, ids), tables, Task(l, l + 1, ids, [], true), [id], [out], RowOnly(l + 1, [id]),
                    map[id := Table(out, COMPACTION_BLOCK_SIZE)])
  {
    hide AllListed, DistinctIds, DisjointLevels, TablesOk, LevelFind, DiskFind, Edited, MergedRun, RowOnly;
    RowIs(l, ids);
    RowSensible(l, ids, tables);
    var task := Task(l, l + 1, ids, [], true);
    assert task.Inputs() == ids;
    RowEdited(l, ids, id);
    assert Flatten([out]) == out + Flatten([]) == out;
    hide LevelsOk, Sensible;
    assert Replaced(tables, map[id := Table(out, COMPACTION_BLOCK_SIZE)], Members(ids), [id], [out]) by {
      assert tables.Keys - Members(ids) == {};
    }
  }

  lemma RowSensible(l: nat, ids: seq<nat>, tables: Tables)
    requires l < MAX_LEVELS && LevelsOk(RowOnly(l, ids), tables) && (l > 0 ==> |ids| == 1)
    ensures Sensible(RowOnly(l, ids), tables, Task(l, l + 1, ids, [], true))
  {
    RowIs(l, ids);
    hide RowOnly, AllListed, DistinctIds, DisjointLevels;
    assert Overlapping(ids, [], tables) == [];
    assert l > 0 ==> ids == [ids[0]];
  }

  const OLD_VERSION := Entry([1], [10], 0, OP_PUT)
  const NEW_VERSION := Entry([1], [20], 1, OP_PUT)

  /** Table 2 is the newer. */
  function TwoVersions(): Tables {
    map[1 := Table([OLD_VERSION], COMPACTION_BLOCK_SIZE), 2 := Table([NEW_VERSION], COMPACTION_BLOCK_SIZE)]
  }

  lemma TwoVersionsFind()
    ensures LevelFind(Reversed([1, 2]), TwoVersions(), [1]) == Some(NEW_VERSION)
  {
    assert Reversed([1, 2]) == [2, 1];
    LevelFindCons([2, 1], TwoVersions(), [1]);
  }

  lemma TwoVersionsOk()
    ensures LevelsOk(RowOnly(0, [1, 2]), TwoVersions()) && TwoVersions().Keys == Members([1, 2]) && 3 !in TwoVersions()
  {
    hide RowOnly, LevelsOk, Table.Ok;
    SingleRun(OLD_VERSION);
    SingleRun(NEW_VERSION);
    RowOk(0, [1, 2], TwoVersions());
  }

  lemma TwoVersionsMerged(task: Task)
    requires task.Inputs() == [1, 2]
    ensures MergedRun(task, TwoVersions()) == [OLD_VERSION]
  {
    var tables := TwoVersions();
    assert [1, 2][1..] == [2] && [2][1..] == [];
    assert RunsOf([2], tables) == [[NEW_VERSION]];
    assert RunsOf([1, 2], tables) == [[OLD_VERSION]] + RunsOf([2], tables);
    assert [[OLD_VERSION], [NEW_VERSION]][1..] == [[NEW_VERSION]] && [[NEW_VERSION]][1..] == [];
    assert Merge([[NEW_VERSION]]) == [NEW_VERSION];
    assert Overlay([OLD_VERSION], [NEW_VERSION]) == [OLD_VERSION] + Overlay([], []);
    assert Runs.Live([OLD_VERSION]) == [OLD_VERSION] + Runs.Live([]);
  }

  /** A compaction of two level-0 tables, oldest first: the lookup goes back to the old value. */
  lemma OldestFirstBringsBackOldValue()
    ensures var levels, levels' := RowOnly(0, [1, 2]), RowOnly(1, [3]);
      var tables' := map[3 := Table([OLD_VERSION], COMPACTION_BLOCK_SIZE)];
      && Outcome(levels, TwoVersions(), Task(0, 1, [1, 2], [], true), [3], [[OLD_VERSION]], levels', tables')
      && LevelsOk(levels', tables')
      && DiskView(levels, TwoVersions(), [1]) == Some([20]) && DiskView(levels', tables', [1]) == Some([10])
  {
    hide RowOnly, LevelsOk, DiskFind, Outcome, TwoVersions;
    OldestFirstOutcome();
    NewIsSeen();
    OldIsSeen();
  }

  lemma OldestFirstOutcome()
    ensures Outcome(RowOnly(0, [1, 2]), TwoVersions(), Task(0, 1, [1, 2], [], true), [3], [[OLD_VERSION]],
                    RowOnly(1, [3]), map[3 := Table([OLD_VERSION], COMPACTION_BLOCK_SIZE)])
  {
    hide RowOnly, LevelsOk, MergedRun, Outcome, TwoVersions;
    TwoVersionsOk();
    assert Task(0, 1, [1, 2], [], true).Inputs() == [1, 2];
    TwoVersionsMerged(Task(0, 1, [1, 2], [], true));
    RowOutcome(0, [1, 2], TwoVersions(), 3, [OLD_VERSION]);
  }

  lemma NewIsSeen()
    ensures LevelsOk(RowOnly(0, [1, 2]), TwoVersions())
    ensures DiskView(RowOnly(0, [1, 2]), TwoVersions(), [1]) == Some([20])
  {
    hide RowOnly, LevelsOk, LevelFind, DiskFind, TwoVersions;
    TwoVersionsOk();
    TwoVersionsFind();
    RowFind(0, [1, 2], TwoVersions(), [1]);
  }

  lemma OldIsSeen()
    ensures var tables := map[3 := Table([OLD_VERSION], COMPACTION_BLOCK_SIZE)];
      LevelsOk(RowOnly(1, [3]), tables) && DiskView(RowOnly(1, [3]), tables, [1]) == Some([10])
  {
    var tables := map[3 := Table([OLD_VERSION], COMPACTION_BLOCK_SIZE)];
    SingleRun(OLD_VERSION);
    hide RowOnly, LevelsOk, LevelFind, DiskFind, Table.Ok;
    RowOk(1, [3], tables);
    RowFind(1, [3], tables, [1]);
    OneTable(3, [OLD_VERSION], COMPACTION_BLOCK_SIZE, [1]);
  }

  /** With one table, in level 6 and over that level's limit, the task that is picked moves it to row 7. */
  lemma Level6TaskPicked(id: nat, t: Table, cfg: LevelConfig, task: Task)
    requires t.Ok() && cfg.maxLevels == MAX_LEVELS && cfg.l0Trigger >= 1 && t.DataSize() > MaxBytesForLevel(cfg, 6)
    ensures |RowOnly(6, [id])| == ROWS && Due(RowOnly(6, [id]), 6, map[id := t], cfg)
    ensures Picked(RowOnly(6, [id]), map[id := t], cfg, task) <==> task == Task(6, 7, [id], [], true)
  {
    hide RowOnly, Table.Ok, Table.DataSize, MaxBytesForLevel;
    RowIs(6, [id]);
    NotEmptyOk(t);
    OneSize(id, t);
    assert Overlapping([id], [], map[id := t]) == [];
    assert IsBottom(7, RowOnly(6, [id]), MAX_LEVELS);
  }

  lemma NotEmptyOk(t: Table)
    requires t.Ok()
    ensures t.run != []
  {
  }

  lemma OneSize(id: nat, t: Table)
    ensures TotalSize([id], map[id := t]) == t.DataSize()
  {
    hide Table.DataSize;
    assert [id][..0] == [];
  }

  const NO_BASE_SIZE := LevelConfig(4, 0, 10, MAX_LEVELS)

  /**
   With a base size of 0 every level is over its limit: the only table, in level 6, is picked, and after that
   compaction the lookup finds nothing any more.
   */
  lemma Level6LosesItsOutput()
    ensures var t := Table([NEW_VERSION], COMPACTION_BLOCK_SIZE); var tables, tables' := map[1 := t], map[2 := t];
      var levels, levels' := RowOnly(6, [1]), RowOnly(7, [2]);
      && |levels| == ROWS && (forall task :: Picked(levels, tables, NO_BASE_SIZE, task) <==>
        task == Task(6, 7, [1], [], true))
      && Outcome(levels, tables, Task(6, 7, [1], [], true), [2], [[NEW_VERSION]], levels', tables')
      && LevelsOk(levels', tables')
      && DiskView(levels, tables, [1]) == Some([20]) && DiskView(levels', tables', [1]) == None
  {
    hide Picked, Outcome, LevelsOk, DiskFind, RowOnly;
    Level6Only();
    Level6Outcome();
  }

  lemma Level6Only()
    ensures var levels, tables := RowOnly(6, [1]), map[1 := Table([NEW_VERSION], COMPACTION_BLOCK_SIZE)];
      |levels| == ROWS
      && forall task :: Picked(levels, tables, NO_BASE_SIZE, task) <==> task == Task(6, 7, [1], [], true)
  {
    var t := Table([NEW_VERSION], COMPACTION_BLOCK_SIZE);
    SingleRun(NEW_VERSION);
    SomeData();
    NoLimit();
    hide Picked, RowOnly, Table.Ok, Table.DataSize, MaxBytesForLevel;
    RowIs(6, [1]);
    forall task
      ensures Picked(RowOnly(6, [1]), map[1 := t], NO_BASE_SIZE, task) <==> task == Task(6, 7, [1], [], true)
    {
      Level6TaskPicked(1, t, NO_BASE_SIZE, task);
    }
  }

  lemma NoLimit()
    ensures MaxBytesForLevel(NO_BASE_SIZE, 6) == 0
  {
    hide Power;
  }

  lemma SomeData()
    ensures Table([NEW_VERSION], COMPACTION_BLOCK_SIZE).DataSize() > 0
  {
    OneBlock(NEW_VERSION, COMPACTION_BLOCK_SIZE);
    OneOffset(NEW_VERSION);
    hide TableFormat.OffsetAfter, Pieces;
  }

  lemma OneBlock(e: Entry, blockSize: nat)
    requires e.Size() < blockSize
    ensures Pieces([e], blockSize) == [[e]]
  {
    assert [e][..0] == [] && [] + [e] == [e];
    assert SumSize([e]) == SumSize([]) + e.Size();
    assert Cut([], blockSize) == ([], []);
    assert Cut([e], blockSize) == ([], [e]);
  }

  lemma OneOffset(e: Entry)
    requires e.EncodedSize() + 8 < TWO32
    ensures TableFormat.OffsetAfter([[e]]) > 0
  {
    var blocks: seq<seq<Entry>> := [[e]];
    hide Hashing.Crc32, Encoding;
    assert |blocks[..0]| == 0 && [e][..0] == [];
    assert Payload([e]) == Payload([]) + Framed(e);
  }

  lemma Level6Outcome()
    ensures var t := Table([NEW_VERSION], COMPACTION_BLOCK_SIZE); var tables, tables' := map[1 := t], map[2 := t];
      var levels, levels' := RowOnly(6, [1]), RowOnly(7, [2]);
      && Outcome(levels, tables, Task(6, 7, [1], [], true), [2], [[NEW_VERSION]], levels', tables')
      && LevelsOk(levels, tables) && LevelsOk(levels', tables')
      && DiskView(levels, tables, [1]) == Some([20]) && DiskView(levels', tables', [1]) == None
  {
    var t := Table([NEW_VERSION], COMPACTION_BLOCK_SIZE);
    var tables, tables' := map[1 := t], map[2 := t];
    SingleRun(NEW_VERSION);
    OneTableMerged(Task(6, 7, [1], [], true), tables);
    hide RowOnly, LevelsOk, LevelFind, DiskFind, Edited, MergedRun, Table.Ok, Outcome;
    RowOk(6, [1], tables);
    RowOk(7, [2], tables');
    RowOutcome(6, [1], tables, 2, [NEW_VERSION]);
    RowFind(6, [1], tables, [1]);
    RowFind(7, [2], tables', [1]);
    OneTable(1, [NEW_VERSION], COMPACTION_BLOCK_SIZE, [1]);
  }

  lemma OneTableMerged(task: Task, tables: Tables)
    requires task.Inputs() == [1] && tables == map[1 := Table([NEW_VERSION], COMPACTION_BLOCK_SIZE)]
    ensures MergedRun(task, tables) == [NEW_VERSION]
  {
    assert [1][1..] == [];
    assert RunsOf([1], tables) == [[NEW_VERSION]] && [[NEW_VERSION]][1..] == [];
    assert Merge([[NEW_VERSION]]) == [NEW_VERSION];
    assert Runs.Live([NEW_VERSION]) == [NEW_VERSION] + Runs.Live([]);
  }
}
