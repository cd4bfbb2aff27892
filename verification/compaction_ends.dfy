/** Repeated compaction ends: each task moves entries down and adds none. */
module CompactionEnds {
  import opened Bytes
  import opened Entries
  import opened Runs
  import opened Cuts
  import opened Levels
  import opened Picker
  import opened Compaction
  import CompactionLevels
  import TableFormat

  /** The number of entries in the listed tables. */
  function Count(ids: seq<nat>, tables: Tables): nat {
    TotalLength(RunsOf(ids, tables))
  }

  /** The sum over the entries from level l on of the number of rows not yet passed. */
  function Weight(levels: LevelLists, l: nat, tables: Tables): nat
    requires |levels| == ROWS
    decreases ROWS - l
  {
    if l >= ROWS then 0 else (ROWS - l) * Count(levels[l], tables) + Weight(levels, l + 1, tables)
  }

  lemma {:induction false} TotalLengthConcat(a: seq<seq<Entry>>, b: seq<seq<Entry>>)
    ensures TotalLength(a + b) == TotalLength(a) + TotalLength(b)
  {
    if a == [] {
      assert a + b == b;
    } else {
      assert (a + b)[1..] == a[1..] + b;
      TotalLengthConcat(a[1..], b);
    }
  }

  lemma CountConcat(a: seq<nat>, b: seq<nat>, tables: Tables)
    ensures Count(a + b, tables) == Count(a, tables) + Count(b, tables)
  {
    RunsOfConcat(a, b, tables);
    TotalLengthConcat(RunsOf(a, tables), RunsOf(b, tables));
  }

  lemma {:induction false} CountReversed(ids: seq<nat>, tables: Tables)
    ensures Count(Reversed(ids), tables) == Count(ids, tables)
  {
    if ids != [] {
      var n := |ids| - 1;
      CountReversed(ids[..n], tables);
      CountConcat([ids[n]], Reversed(ids[..n]), tables);
      CountConcat(ids[..n], [ids[n]], tables);
      assert ids == ids[..n] + [ids[n]];
    }
  }

  lemma {:induction false} WithoutConcat(a: seq<nat>, b: seq<nat>, deleted: set<nat>)
    ensures Without(a + b, deleted) == Without(a, deleted) + Without(b, deleted)
  {
    if a == [] {
      assert a + b == b;
    } else {
      assert (a + b)[1..] == a[1..] + b;
      WithoutConcat(a[1..], b, deleted);
    }
  }

  /** What touches the hull and what does not make up the level. */
  lemma {:induction false} CountTouching(ids: seq<nat>, tables: Tables, lo: Key, hi: Key, deleted: set<nat>)
    requires TablesNotEmpty(tables)
    requires forall id :: id in ids ==> (id in deleted <==> id in tables && Touches(tables[id], lo, hi))
    ensures Count(ids, tables) == Count(Without(ids, deleted), tables) + Count(Touching(ids, tables, lo, hi), tables)
  {
    if ids != [] {
      var n := |ids| - 1;
      var id := ids[n];
      assert ids == ids[..n] + [id];
      CountTouching(ids[..n], tables, lo, hi, deleted);
      WithoutConcat(ids[..n], [id], deleted);
      CountConcat(ids[..n], [id], tables);
      assert Without([id], deleted) == if id in deleted then [] else [id];
      CountConcat(Without(ids[..n], deleted), Without([id], deleted), tables);
      CountConcat(Touching(ids[..n], tables, lo, hi), [id], tables);
    }
  }

  lemma {:induction false} CountFrame(ids: seq<nat>, a: Tables, b: Tables)
    requires SameTables(ids, a, b)
    ensures Count(ids, a) == Count(ids, b)
  {
    if ids != [] {
      assert SameTables(ids[1..], a, b);
      CountFrame(ids[1..], a, b);
    }
  }

  lemma CountFirst(ids: seq<nat>, deleted: set<nat>, tables: Tables)
    requires ids != [] && forall i :: 0 <= i < |ids| ==> (ids[i] in deleted <==> i == 0)
    ensures Count(ids, tables) == Count(Without(ids, deleted), tables) + Count([ids[0]], tables)
  {
    WithoutNothing(ids[1..], deleted);
    assert Without(ids, deleted) == ids[1..];
    CountConcat([ids[0]], ids[1..], tables);
    assert ids == [ids[0]] + ids[1..];
  }

  /** How many entries each row of the task has before and after. */
  lemma CountsAfter(levels: LevelLists, tables: Tables, task: Task, added: seq<nat>, outs: seq<seq<Entry>>,
                    levels': LevelLists, tables': Tables)
    requires Outcome(levels, tables, task, added, outs, levels', tables')
    ensures Count(levels[task.from], tables) == Count(levels'[task.from], tables') + Count(task.inputFrom, tables)
    ensures Count(levels'[task.to], tables') <= Count(levels[task.to], tables) + Count(task.inputFrom, tables)
  {
    var deleted := Members(task.Inputs());
    var restFrom, restTo := Without(levels[task.from], deleted), Without(levels[task.to], deleted);
    InputsPlaced(levels, tables, task);
    RestFrame(levels, tables, task, added, outs, levels', tables', task.from);
    RestFrame(levels, tables, task, added, outs, levels', tables', task.to);
    CountFrame(restFrom, tables, tables');
    CountFrame(restTo, tables, tables');
    assert levels'[task.from] == restFrom;
    CountFromRow(levels, tables, task);
    CountToRow(levels, tables, task);
    CountConcat(restTo, added, tables');
    CountOutput(tables, task, added, outs, tables');
  }

  lemma CountFromRow(levels: LevelLists, tables: Tables, task: Task)
    requires Sensible(levels, tables, task)
    ensures Count(levels[task.from], tables)
         == Count(Without(levels[task.from], Members(task.Inputs())), tables) + Count(task.inputFrom, tables)
  {
    InputsPlaced(levels, tables, task);
    var row := levels[task.from];
    if task.from == 0 {
      WithoutAll(row, Members(task.Inputs()));
      CountReversed(row, tables);
    } else {
      hide DisjointLevels, Overlapping, IsBottom;
      assert forall i :: 0 <= i < |row| ==> (row[i] in Members(task.Inputs()) <==> i == 0);
      CountFirst(row, Members(task.Inputs()), tables);
    }
  }

  lemma CountToRow(levels: LevelLists, tables: Tables, task: Task)
    requires Sensible(levels, tables, task)
    ensures Count(levels[task.to], tables)
         == Count(Without(levels[task.to], Members(task.Inputs())), tables) + Count(task.inputTo, tables)
  {
    InputsPlaced(levels, tables, task);
    var lo, hi := LeastMin(task.inputFrom, tables), GreatestMax(task.inputFrom, tables);
    TouchingMembers(levels[task.to], tables, lo, hi);
    CountTouching(levels[task.to], tables, lo, hi, Members(task.Inputs()));
  }

  /** The output has at most as many entries as the inputs. */
  lemma CountOutput(tables: Tables, task: Task, added: seq<nat>, outs: seq<seq<Entry>>, tables': Tables)
    requires TablesOk(tables)
    requires Flatten(outs) == MergedRun(task, tables)
    requires Replaced(tables, tables', Members(task.Inputs()), added, outs)
    ensures Count(added, tables') <= Count(task.inputFrom, tables) + Count(task.inputTo, tables)
  {
    RunsOfAdded(added, outs, tables');
    FlattenLength(outs);
    RunsOfAscending(task.Inputs(), tables);
    MergeAscending(RunsOf(task.Inputs(), tables));
    CountConcat(task.inputFrom, task.inputTo, tables);
  }

  lemma {:induction false} FlattenLength(pieces: seq<seq<Entry>>)
    ensures |Flatten(pieces)| == TotalLength(pieces)
  {
    if pieces != [] {
      FlattenLength(pieces[1..]);
    }
  }

  lemma {:induction false} WeightBelow(levels: LevelLists, tables: Tables, task: Task, added: seq<nat>,
                                       outs: seq<seq<Entry>>, levels': LevelLists, tables': Tables, l: nat)
    requires Outcome(levels, tables, task, added, outs, levels', tables')
    requires task.to < l
    ensures Weight(levels', l, tables') == Weight(levels, l, tables)
    decreases ROWS - l
  {
    hide Count, TablesOk, AllListed, DistinctIds, DisjointLevels, Overlapping, IsBottom, MergedRun, Replaced, FreshIds;
    if l < ROWS {
      RowCountSame(levels, tables, task, added, outs, levels', tables', l);
      WeightBelow(levels, tables, task, added, outs, levels', tables', l + 1);
    }
  }

  lemma RowCountSame(levels: LevelLists, tables: Tables, task: Task, added: seq<nat>, outs: seq<seq<Entry>>,
                     levels': LevelLists, tables': Tables, l: nat)
    requires Outcome(levels, tables, task, added, outs, levels', tables')
    requires l < ROWS && l != task.from && l != task.to
    ensures Count(levels'[l], tables') == Count(levels[l], tables)
  {
    OtherRowsSame(levels, tables, task, added, outs, levels', tables', l, []);
    RestFrame(levels, tables, task, added, outs, levels', tables', l);
    assert Without(levels[l], Members(task.Inputs())) == levels'[l];
    CountFrame(levels[l], tables, tables');
  }

  lemma Moved(w: int, f: int, f': int, t: int, t': int, c: int, rest: int)
    requires w >= 1 && f == f' + c && t' <= t + c
    ensures (w + 1) * f' + w * t' + rest <= (w + 1) * f + w * t + rest - c
  {
    assert w * t' <= w * (t + c);
    assert (w + 1) * f == (w + 1) * f' + (w + 1) * c;
  }

  lemma WeightDropsAtTask(levels: LevelLists, tables: Tables, task: Task, added: seq<nat>, outs: seq<seq<Entry>>,
                          levels': LevelLists, tables': Tables)
    requires Outcome(levels, tables, task, added, outs, levels', tables')
    ensures Weight(levels', task.from, tables') <= Weight(levels, task.from, tables) - Count(task.inputFrom, tables)
  {
    hide Count, Weight, TwoRows, AllListed, DistinctIds, DisjointLevels, TablesOk, Overlapping, IsBottom, MergedRun,
         Replaced, FreshIds, Flatten;
    CountsAfter(levels, tables, task, added, outs, levels', tables');
    WeightBelow(levels, tables, task, added, outs, levels', tables', task.to + 1);
    WeightTwoRows(levels, task.from, tables);
    WeightTwoRows(levels', task.from, tables');
    TwoRowsMoved(levels, tables, levels', tables', task.from, Count(task.inputFrom, tables));
  }

  /** The weight of two rows and those behind them. */
  function TwoRows(levels: LevelLists, l: nat, tables: Tables): int
    requires |levels| == ROWS && l + 1 < ROWS
  {
    (ROWS - l) * Count(levels[l], tables) + (ROWS - (l + 1)) * Count(levels[l + 1], tables)
      + Weight(levels, l + 2, tables)
  }

  lemma TwoRowsMoved(levels: LevelLists, tables: Tables, levels': LevelLists, tables': Tables, l: nat, c: nat)
    requires |levels| == |levels'| == ROWS && l + 1 < ROWS
    requires Weight(levels', l + 2, tables') == Weight(levels, l + 2, tables)
    requires Count(levels[l], tables) == Count(levels'[l], tables') + c
    requires Count(levels'[l + 1], tables') <= Count(levels[l + 1], tables) + c
    ensures TwoRows(levels', l, tables') <= TwoRows(levels, l, tables) - c
  {
    hide Count, Weight;
    Moved(ROWS - (l + 1), Count(levels[l], tables), Count(levels'[l], tables'), Count(levels[l + 1], tables),
          Count(levels'[l + 1], tables'), c, Weight(levels, l + 2, tables));
  }

  lemma WeightTwoRows(levels: LevelLists, l: nat, tables: Tables)
    requires |levels| == ROWS && l + 1 < ROWS
    ensures Weight(levels, l, tables) == TwoRows(levels, l, tables)
  {
  }

  /** Every task takes at least its upper inputs' entries off the weight. */
  lemma {:induction false} WeightDrops(levels: LevelLists, tables: Tables, task: Task, added: seq<nat>,
                                       outs: seq<seq<Entry>>, levels': LevelLists, tables': Tables, l: nat)
    requires Outcome(levels, tables, task, added, outs, levels', tables')
    requires l <= task.from
    ensures Weight(levels', l, tables') <= Weight(levels, l, tables) - Count(task.inputFrom, tables)
    decreases task.from - l
  {
    hide Count, TablesOk, AllListed, DistinctIds, DisjointLevels, Overlapping, IsBottom, MergedRun, Replaced, FreshIds;
    if l < task.from {
      RowCountSame(levels, tables, task, added, outs, levels', tables', l);
      WeightDrops(levels, tables, task, added, outs, levels', tables', l + 1);
    } else {
      WeightDropsAtTask(levels, tables, task, added, outs, levels', tables');
    }
  }

  lemma SomethingTaken(levels: LevelLists, tables: Tables, task: Task)
    requires Sensible(levels, tables, task) && task.inputFrom != []
    ensures Count(task.inputFrom, tables) >= 1
  {
    InputsPlaced(levels, tables, task);
    assert task.inputFrom[0] in task.inputFrom;
    assert tables[task.inputFrom[0]].Ok();
  }

  /** Each task that takes a table strictly lowers the weight; a level-0 task leaves level 0 empty. */
  lemma TaskLowersWeight(levels: LevelLists, tables: Tables, task: Task, added: seq<nat>, outs: seq<seq<Entry>>,
                         levels': LevelLists, tables': Tables)
    requires Outcome(levels, tables, task, added, outs, levels', tables')
    requires task.inputFrom != []
    ensures Weight(levels', 0, tables') < Weight(levels, 0, tables)
    ensures task.from == 0 ==> levels'[0] == []
  {
    WeightDrops(levels, tables, task, added, outs, levels', tables', 0);
    SomethingTaken(levels, tables, task);
    if task.from == 0 {
      InputsPlaced(levels, tables, task);
      WithoutAll(levels[0], Members(task.Inputs()));
    }
  }

  /** Levels and tables, and the compaction that leads on from them. */
  datatype Round = Round(levels: LevelLists, tables: Tables, task: Task, added: seq<nat>, outs: seq<seq<Entry>>)

  /** One picked compaction after the other, with no flush in between, ending in these levels and tables. */
  ghost predicate Chain(rounds: seq<Round>, levels': LevelLists, tables': Tables, cfg: LevelConfig) {
    rounds != [] ==>
      var r := rounds[0];
      && (if |rounds| == 1 then Outcome(r.levels, r.tables, r.task, r.added, r.outs, levels', tables')
          else Outcome(r.levels, r.tables, r.task, r.added, r.outs, rounds[1].levels, rounds[1].tables))
      && (r.task.from == 0 ==> |r.levels[0]| >= cfg.l0Trigger)
      && Chain(rounds[1..], levels', tables', cfg)
  }

  /** No chain is longer than the weight it starts with: compaction without flushes comes to an end. */
  lemma {:induction false} CompactionEnds(rounds: seq<Round>, levels': LevelLists, tables': Tables, cfg: LevelConfig)
    requires Chain(rounds, levels', tables', cfg) && rounds != [] && cfg.l0Trigger >= 1
    ensures |rounds[0].levels| == ROWS && |levels'| == ROWS
    ensures |rounds| + Weight(levels', 0, tables') <= Weight(rounds[0].levels, 0, rounds[0].tables)
  {
    hide LevelsOk, Weight, Overlapping, IsBottom, MergedRun, Replaced, FreshIds;
    var r := rounds[0];
    SensibleTakesTable(r, cfg);
    if |rounds| == 1 {
      TaskLowersWeight(r.levels, r.tables, r.task, r.added, r.outs, levels', tables');
    } else {
      TaskLowersWeight(r.levels, r.tables, r.task, r.added, r.outs, rounds[1].levels, rounds[1].tables);
      CompactionEnds(rounds[1..], levels', tables', cfg);
    }
  }

  /** With a trigger of at least 1 a picked task takes a table. */
  lemma SensibleTakesTable(r: Round, cfg: LevelConfig)
    requires Sensible(r.levels, r.tables, r.task) && (r.task.from == 0 ==> |r.levels[0]| >= cfg.l0Trigger)
    requires cfg.l0Trigger >= 1
    ensures r.task.inputFrom != [] && |r.levels| == ROWS
  {
    hide AllListed, DistinctIds, DisjointLevels, TablesOk, Overlapping, IsBottom;
  }

  // ----- A trigger below 1 -----

  /** What the picker does then: level 0 is always due, with as many tables as it has. */
  function Level0Task(levels: LevelLists, tables: Tables): Task
    requires |levels| == ROWS && TablesNotEmpty(tables)
  {
    Task(0, 1, levels[0], Overlapping(levels[0], levels[1], tables), IsBottom(1, levels, MAX_LEVELS))
  }

  lemma Level0TaskPicked(levels: LevelLists, tables: Tables)
    requires LevelsOk(levels, tables)
    ensures Sensible(levels, tables, Level0Task(levels, tables))
    ensures TaskFor(levels, tables, Level0Task(levels, tables), MAX_LEVELS)
  {
    hide AllListed, DistinctIds, DisjointLevels, TableFormat.TableRun, Overlapping, IsBottom;
  }

  /** A round over an empty level 0 takes nothing and leaves everything as it is. */
  function IdleRound(levels: LevelLists, tables: Tables): Round
    requires |levels| == ROWS && TablesNotEmpty(tables)
  {
    Round(levels, tables, Level0Task(levels, tables), [], [])
  }

  lemma IdleRoundOutcome(levels: LevelLists, tables: Tables)
    requires LevelsOk(levels, tables) && levels[0] == []
    ensures Level0Task(levels, tables).Inputs() == []
    ensures Outcome(levels, tables, Level0Task(levels, tables), [], [], levels, tables)
  {
    var task := Level0Task(levels, tables);
    Level0TaskPicked(levels, tables);
    CompactionLevels.NothingTouchesEmptyHull(levels[1], tables);
    hide LevelsOk, Sensible, Edited, IsBottom, Touching, TablesNotEmpty;
    assert task.Inputs() == [];
    NothingMerged(task, tables);
    NothingReplaced(tables);
    NothingEdited(levels);
    hide Replaced, Level0Task, MergedRun, Task.Inputs;
  }

  lemma NothingMerged(task: Task, tables: Tables)
    requires task.Inputs() == []
    ensures MergedRun(task, tables) == [] && Flatten([]) == []
  {
    assert RunsOf([], tables) == [] && Merge([]) == [];
  }

  lemma NothingReplaced(tables: Tables)
    ensures Replaced(tables, tables, Members([]), [], []) && FreshIds([], tables)
  {
    assert tables.Keys - Members([]) + Members([]) == tables.Keys;
  }

  lemma NothingEdited(levels: LevelLists)
    requires |levels| == ROWS
    ensures Edited(levels, Members([]), [], 1) == levels
  {
    forall l | 0 <= l < |levels|
      ensures Edited(levels, Members([]), [], 1)[l] == levels[l]
    {
      WithoutNothing(levels[l], Members([]));
    }
  }

  function Again(r: Round, n: nat): (rounds: seq<Round>)
    ensures |rounds| == n && forall i :: 0 <= i < n ==> rounds[i] == r
  {
    if n == 0 then [] else [r] + Again(r, n - 1)
  }

  /** A round that ends where it starts can be followed by itself. */
  lemma {:induction false} AgainIsChain(r: Round, cfg: LevelConfig, n: nat)
    requires Outcome(r.levels, r.tables, r.task, r.added, r.outs, r.levels, r.tables)
    requires r.task.from == 0 ==> |r.levels[0]| >= cfg.l0Trigger
    ensures Chain(Again(r, n), r.levels, r.tables, cfg)
  {
    hide Outcome;
    if n > 0 {
      assert Again(r, n)[1..] == Again(r, n - 1);
      AgainIsChain(r, cfg, n - 1);
    }
  }

  lemma {:induction false} UnusedId(taken: set<nat>) returns (id: nat)
    ensures forall x :: x in taken ==> x < id
    decreases |taken|
  {
    if taken == {} {
      id := 0;
    } else {
      var x :| x in taken;
      var rest := UnusedId(taken - {x});
      id := if x < rest then rest else x + 1;
      assert forall y :: y in taken ==> y == x || y in taken - {x};
    }
  }

  /** The first round empties level 0, all of its output in one table. */
  lemma FirstRound(levels: LevelLists, tables: Tables) returns (r: Round, levels': LevelLists, tables': Tables)
    requires LevelsOk(levels, tables)
    ensures r.levels == levels && r.tables == tables && r.task.from == 0
    ensures Outcome(r.levels, r.tables, r.task, r.added, r.outs, levels', tables')
    ensures LevelsOk(levels', tables') && levels'[0] == []
  {
    hide AllListed, DistinctIds, DisjointLevels, TableFormat.TableRun, Outcome, Sensible;
    var task := Level0Task(levels, tables);
    Level0TaskPicked(levels, tables);
    var id := UnusedId(tables.Keys);
    var added, outs;
    added, outs, levels', tables' := InOneTable(levels, tables, task, id);
    r := Round(levels, tables, task, added, outs);
    Level0Emptied(levels, tables, task, added, outs, levels', tables');
    CompactionLevels.LevelsOkAfter(levels, tables, task, added, outs, levels', tables');
  }

  lemma Level0Emptied(levels: LevelLists, tables: Tables, task: Task, added: seq<nat>, outs: seq<seq<Entry>>,
                      levels': LevelLists, tables': Tables)
    requires Outcome(levels, tables, task, added, outs, levels', tables') && task.from == 0
    ensures |levels'| == ROWS && levels'[0] == []
  {
    InputsPlaced(levels, tables, task);
    WithoutAll(levels[0], Members(task.Inputs()));
    hide LevelsOk, Overlapping, IsBottom, MergedRun, FreshIds, Replaced, Flatten;
  }

  /** The outcome of a task with all of its output in one table. */
  lemma InOneTable(levels: LevelLists, tables: Tables, task: Task, id: nat)
      returns (added: seq<nat>, outs: seq<seq<Entry>>, levels': LevelLists, tables': Tables)
    requires Sensible(levels, tables, task) && forall x :: x in tables.Keys ==> x < id
    ensures Outcome(levels, tables, task, added, outs, levels', tables')
  {
    hide Sensible, Edited, MergedRun;
    var run, gone := MergedRun(task, tables), Members(task.Inputs());
    added, outs := if run == [] then [] else [id], if run == [] then [] else [run];
    assert [run][1..] == [] && run + [] == run;
    assert Flatten(outs) == run;
    levels' := Edited(levels, gone, added, task.to);
    tables' := map x | x in (tables.Keys - gone) + Members(added) ::
      if x in added then Table(run, COMPACTION_BLOCK_SIZE) else tables[x];
  }

  ghost predicate StartsAt(rounds: seq<Round>, levels: LevelLists, tables: Tables) {
    rounds != [] && rounds[0].levels == levels && rounds[0].tables == tables
  }

  /**
   With a trigger below 1 the exit test of the worker's loop fails in every state, and the chain can be of any
   length.
   */
  lemma LongChain(levels: LevelLists, tables: Tables, cfg: LevelConfig, n: nat)
      returns (rounds: seq<Round>, levels': LevelLists, tables': Tables)
    requires LevelsOk(levels, tables) && cfg.l0Trigger < 1
    ensures StartsAt(rounds, levels, tables) && |rounds| == n + 1 && Chain(rounds, levels', tables', cfg)
    ensures forall r :: r in rounds ==> |r.levels| == ROWS && !(|r.levels[0]| < cfg.l0Trigger)
  {
    var first;
    first, levels', tables' := FirstRound(levels, tables);
    IdleRoundOutcome(levels', tables');
    hide AllListed, DistinctIds, DisjointLevels, TableFormat.TableRun, Outcome, Level0Task, Again;
    var idle := Again(IdleRound(levels', tables'), n);
    AgainIsChain(IdleRound(levels', tables'), cfg, n);
    rounds := [first] + idle;
    assert rounds[1..] == idle;
  }

  /** No chain of rounds from here is longer than n. */
  ghost predicate EndsWithin(levels: LevelLists, tables: Tables, cfg: LevelConfig, n: nat) {
    forall rounds, levels', tables' ::
      StartsAt(rounds, levels, tables) && Chain(rounds, levels', tables', cfg) ==> |rounds| <= n
  }

  /** From any levels compaction without flushes comes to an end exactly when the trigger is at least 1. */
  lemma DrainEndsExactly(levels: LevelLists, tables: Tables, cfg: LevelConfig)
    requires LevelsOk(levels, tables)
    ensures (exists n: nat :: EndsWithin(levels, tables, cfg, n)) <==> cfg.l0Trigger >= 1
  {
    if cfg.l0Trigger >= 1 {
      forall rounds, levels', tables' | StartsAt(rounds, levels, tables) && Chain(rounds, levels', tables', cfg)
        ensures |rounds| <= Weight(levels, 0, tables)
      {
        hide Chain, LevelsOk, Weight;
        CompactionEnds(rounds, levels', tables', cfg);
      }
      assert EndsWithin(levels, tables, cfg, Weight(levels, 0, tables));
    } else {
      forall n: nat
        ensures !EndsWithin(levels, tables, cfg, n)
      {
        var rounds, levels', tables' := LongChain(levels, tables, cfg, n);
      }
    }
  }
}
