/** Choosing what to compact (pkg/compactor/picker.go). */
module Picker {
  import opened Bytes
  import opened Entries
  import opened Levels

  datatype LevelConfig = LevelConfig(l0Trigger: int, baseLevelSizeMB: nat, levelMultiplier: nat, maxLevels: nat)

  datatype Task = Task(from: nat, to: nat, inputFrom: seq<nat>, inputTo: seq<nat>, isBottom: bool) {
    function Inputs(): seq<nat> {
      inputFrom + inputTo
    }
  }

  // ----- The hull of some tables, and the tables that touch it -----

  /** The smallest MinKey; an empty key counts as none yet. */
  function LeastMin(ids: seq<nat>, tables: Tables): Key
    requires TablesNotEmpty(tables)
  {
    if ids == [] then []
    else
      var m, id := LeastMin(ids[..|ids| - 1], tables), ids[|ids| - 1];
      if id in tables && (|m| == 0 || Less(tables[id].MinKey(), m)) then tables[id].MinKey() else m
  }

  function GreatestMax(ids: seq<nat>, tables: Tables): Key
    requires TablesNotEmpty(tables)
  {
    if ids == [] then []
    else
      var m, id := GreatestMax(ids[..|ids| - 1], tables), ids[|ids| - 1];
      if id in tables && (|m| == 0 || Less(m, tables[id].MaxKey())) then tables[id].MaxKey() else m
  }

  ghost predicate TablesNotEmpty(tables: Tables) {
    forall id :: id in tables ==> tables[id].run != []
  }

  predicate Touches(t: Table, lo: Key, hi: Key)
    requires t.run != []
  {
    !(Less(t.MaxKey(), lo) || Less(hi, t.MinKey()))
  }

  function Touching(ids: seq<nat>, tables: Tables, lo: Key, hi: Key): seq<nat>
    requires TablesNotEmpty(tables)
  {
    if ids == [] then []
    else
      var before, id := Touching(ids[..|ids| - 1], tables, lo, hi), ids[|ids| - 1];
      if id in tables && Touches(tables[id], lo, hi) then before + [id] else before
  }

  function Overlapping(fromIds: seq<nat>, toIds: seq<nat>, tables: Tables): seq<nat>
    requires TablesNotEmpty(tables)
  {
    Touching(toIds, tables, LeastMin(fromIds, tables), GreatestMax(fromIds, tables))
  }

  /** Nothing lies below level lvl. */
  predicate IsBottom(lvl: nat, levels: LevelLists, maxLevels: nat)
    requires maxLevels <= |levels|
  {
    forall l :: lvl < l < maxLevels ==> levels[l] == []
  }

  lemma {:induction false} HullCovers(ids: seq<nat>, tables: Tables, i: nat)
    requires TablesOk(tables) && i < |ids| && ids[i] in tables
    ensures var lo, hi := LeastMin(ids, tables), GreatestMax(ids, tables);
      && lo != [] && hi != [] && AtMost(lo, tables[ids[i]].MinKey()) && AtMost(tables[ids[i]].MaxKey(), hi)
  {
    LessIsStrictOrder();
    var n := |ids| - 1;
    assert forall id :: id in tables ==>
      tables[id].run[0] in tables[id].run && tables[id].run[|tables[id].run| - 1] in tables[id].run;
    if i < n {
      HullCovers(ids[..n], tables, i);
    }
  }

  /** A bound of the hull is the bound of one of the tables. */
  lemma {:induction false} HullReached(ids: seq<nat>, tables: Tables)
    requires TablesOk(tables)
    ensures LeastMin(ids, tables) != [] ==>
      exists id :: id in ids && id in tables && tables[id].MinKey() == LeastMin(ids, tables)
    ensures GreatestMax(ids, tables) != [] ==>
      exists id :: id in ids && id in tables && tables[id].MaxKey() == GreatestMax(ids, tables)
    ensures LeastMin(ids, tables) == [] <==> forall id :: id in ids ==> id !in tables
    ensures GreatestMax(ids, tables) == [] <==> forall id :: id in ids ==> id !in tables
  {
    if ids != [] {
      var n := |ids| - 1;
      HullReached(ids[..n], tables);
      assert ids == ids[..n] + [ids[n]];
      if ids[n] in tables {
        KeysNotEmpty(tables[ids[n]]);
      }
    }
  }

  lemma KeysNotEmpty(t: Table)
    requires t.Ok()
    ensures t.MinKey() != [] && t.MaxKey() != []
  {
    assert t.run[0] in t.run && t.run[|t.run| - 1] in t.run;
  }

  lemma {:induction false} TouchingIs(ids: seq<nat>, tables: Tables, lo: Key, hi: Key, id: nat)
    requires TablesNotEmpty(tables)
    ensures id in Touching(ids, tables, lo, hi) <==> id in ids && id in tables && Touches(tables[id], lo, hi)
  {
    if ids != [] {
      var n := |ids| - 1;
      TouchingIs(ids[..n], tables, lo, hi, id);
      assert ids == ids[..n] + [ids[n]];
    }
  }

  /** A target table is taken exactly when it reaches from below some input's end to above some input's start. */
  lemma OverlappingExactly(fromIds: seq<nat>, toIds: seq<nat>, tables: Tables, id: nat)
    requires TablesOk(tables)
    ensures id in Overlapping(fromIds, toIds, tables) <==>
      && id in toIds && id in tables
      && (exists a :: a in fromIds && a in tables && AtMost(tables[a].MinKey(), tables[id].MaxKey()))
      && (exists b :: b in fromIds && b in tables && AtMost(tables[id].MinKey(), tables[b].MaxKey()))
  {
    hide Touching, LeastMin, GreatestMax;
    TouchingIs(toIds, tables, LeastMin(fromIds, tables), GreatestMax(fromIds, tables), id);
    HullReached(fromIds, tables);
    if id in tables {
      KeysNotEmpty(tables[id]);
      forall a | a in fromIds && a in tables
        ensures AtMost(LeastMin(fromIds, tables), tables[a].MinKey())
        ensures AtMost(tables[a].MaxKey(), GreatestMax(fromIds, tables))
      {
        var i :| 0 <= i < |fromIds| && fromIds[i] == a;
        HullCovers(fromIds, tables, i);
      }
      LessIsStrictOrder();
    }
  }

  // ----- The methods -----

  method FindOverlapping(fromIds: seq<nat>, toIds: seq<nat>, readers: Tables) returns (overlapping: seq<nat>)
    requires TablesNotEmpty(readers)
    ensures overlapping == Overlapping(fromIds, toIds, readers)
  {
    if |toIds| == 0 {
      return [];
    }
    var minKey: Key, maxKey: Key := [], [];
    for i := 0 to |fromIds|
      invariant minKey == LeastMin(fromIds[..i], readers) && maxKey == GreatestMax(fromIds[..i], readers)
    {
      assert fromIds[..i + 1][..i] == fromIds[..i];
      if fromIds[i] in readers {
        var r := readers[fromIds[i]];
        if |minKey| == 0 || Less(r.MinKey(), minKey) {
          minKey := r.MinKey();
        }
        if |maxKey| == 0 || Less(maxKey, r.MaxKey()) {
          maxKey := r.MaxKey();
        }
      }
    }
    assert fromIds[..|fromIds|] == fromIds;
    overlapping := [];
    for i := 0 to |toIds|
      invariant overlapping == Touching(toIds[..i], readers, minKey, maxKey)
    {
      assert toIds[..i + 1][..i] == toIds[..i];
      if toIds[i] in readers {
        var r := readers[toIds[i]];
        if Less(r.MaxKey(), minKey) || Less(maxKey, r.MinKey()) {
          continue;
        }
        overlapping := overlapping + [toIds[i]];
      }
    }
    assert toIds[..|toIds|] == toIds;
  }

  method IsBottomLevel(lvl: nat, levels: LevelLists, maxLevels: nat) returns (bottom: bool)
    requires maxLevels <= |levels|
    ensures bottom <==> forall l :: lvl < l < maxLevels ==> levels[l] == []
  {
    var l := lvl + 1;
    while l < maxLevels
      invariant lvl < l && forall m :: lvl < m < l && m < maxLevels ==> levels[m] == []
    {
      if |levels[l]| > 0 {
        return false;
      }
      l := l + 1;
    }
    return true;
  }

  function Power(base: nat, n: nat): nat {
    if n == 0 then 1 else base * Power(base, n - 1)
  }

  function MaxBytesForLevel(cfg: LevelConfig, lvl: nat): nat
    requires lvl > 0
  {
    cfg.baseLevelSizeMB * 1024 * 1024 * Power(cfg.levelMultiplier, lvl - 1)
  }

  function TotalSize(ids: seq<nat>, tables: Tables): nat {
    if ids == [] then 0
    else TotalSize(ids[..|ids| - 1], tables) + if ids[|ids| - 1] in tables then tables[ids[|ids| - 1]].DataSize() else 0
  }

  /**
   A score, as the fraction that it is: with a limit of zero it is infinite, or no number when the size is
   zero too.
   */
  datatype Ratio = Ratio(size: nat, limit: nat) {
    /** The comparison of the two quotients; with something that is no number it never holds. */
    predicate Over(other: Ratio) {
      size * other.limit > other.size * limit
    }
  }

  const ONE := Ratio(1, 1)

  lemma MoreThan(factor: nat, a: int, b: int)
    requires a < b && factor > 0
    ensures a * factor < b * factor
  {
  }

  lemma AtLeast(factor: nat, a: int, b: int)
    requires a <= b
    ensures a * factor <= b * factor
  {
  }

  lemma LessOfProduct(factor: nat, a: int, b: int)
    requires a * factor < b * factor
    ensures a < b
  {
    if b <= a {
      AtLeast(factor, b, a);
    }
  }

  /** A score over one that x does not exceed is over x too. */
  lemma OverBest(x: Ratio, best: Ratio, now: Ratio)
    requires !x.Over(best) && now.Over(best)
    ensures !x.Over(now) && (now.Over(x) || x == Ratio(0, 0))
  {
    assert best.limit > 0;
    if x.limit == 0 {
      assert x.size * best.limit <= best.size * x.limit == 0;
      assert x.size == 0;
    } else {
      AtLeast(now.limit, x.size * best.limit, best.size * x.limit);
      MoreThan(x.limit, best.size * now.limit, now.size * best.limit);
      calc {
        x.size * now.limit * best.limit;
      ==
        x.size * best.limit * now.limit;
      <=
        best.size * x.limit * now.limit;
      ==
        best.size * now.limit * x.limit;
      <
        now.size * best.limit * x.limit;
      ==
        now.size * x.limit * best.limit;
      }
      LessOfProduct(best.limit, x.size * now.limit, now.size * x.limit);
    }
  }

  /** How full a level is; over 1 it is due. */
  function Score(levels: LevelLists, lvl: nat, tables: Tables, cfg: LevelConfig): Ratio
    requires 0 < lvl < |levels|
  {
    Ratio(TotalSize(levels[lvl], tables), MaxBytesForLevel(cfg, lvl))
  }

  predicate Due(levels: LevelLists, lvl: nat, tables: Tables, cfg: LevelConfig)
    requires 0 < lvl < |levels|
  {
    levels[lvl] != [] && Score(levels, lvl, tables, cfg).Over(ONE)
  }

  /** The level is due, no other has a higher score, and none before it the same; levels of no size and limit aside. */
  predicate Fullest(levels: LevelLists, best: nat, tables: Tables, cfg: LevelConfig)
    requires cfg.maxLevels <= |levels|
  {
    && 1 <= best < cfg.maxLevels && Due(levels, best, tables, cfg)
    && forall l :: 1 <= l < cfg.maxLevels && levels[l] != [] ==>
         && !Score(levels, l, tables, cfg).Over(Score(levels, best, tables, cfg))
         && (l < best ==>
               || Score(levels, best, tables, cfg).Over(Score(levels, l, tables, cfg))
               || Score(levels, l, tables, cfg) == Ratio(0, 0))
  }

  /** The level from 1 on with the highest score over 1, the first of them on a tie. */
  method BestLevel(levels: LevelLists, readers: Tables, cfg: LevelConfig) returns (best: Option<nat>)
    requires cfg.maxLevels <= |levels|
    ensures best.None? ==> forall l :: 1 <= l < cfg.maxLevels ==> !Due(levels, l, readers, cfg)
    ensures best.Some? ==> Fullest(levels, best.value, readers, cfg)
  {
    var bestScore := ONE;
    best := None;
    var lvl := 1;
    hide Score, Ratio.Over;
    while lvl < cfg.maxLevels
      invariant 1 <= lvl
      invariant best.None? ==> bestScore == ONE
      invariant best.Some? ==>
        1 <= best.value < lvl && lvl <= cfg.maxLevels && bestScore == Score(levels, best.value, readers, cfg)
        && levels[best.value] != [] && bestScore.Over(ONE)
      invariant forall l :: 1 <= l < lvl && l < cfg.maxLevels && levels[l] != [] ==>
        !Score(levels, l, readers, cfg).Over(bestScore)
      invariant best.Some? ==> forall l :: 1 <= l < best.value && levels[l] != [] ==>
        bestScore.Over(Score(levels, l, readers, cfg)) || Score(levels, l, readers, cfg) == Ratio(0, 0)
    {
      if |levels[lvl]| > 0 {
        var score := Score(levels, lvl, readers, cfg);
        NotOverItself(score);
        if score.Over(bestScore) {
          BestReplaced(levels, readers, cfg, lvl, bestScore, score);
          bestScore := score;
          best := Some(lvl);
        }
      }
      lvl := lvl + 1;
    }
  }

  lemma NotOverItself(x: Ratio)
    ensures !x.Over(x)
  {
  }

  lemma BestReplaced(levels: LevelLists, readers: Tables, cfg: LevelConfig, lvl: nat, best: Ratio, now: Ratio)
    requires 1 <= lvl < cfg.maxLevels <= |levels| && now.Over(best)
    requires best == ONE || best.Over(ONE)
    requires forall l :: 1 <= l < lvl && levels[l] != [] ==> !Score(levels, l, readers, cfg).Over(best)
    ensures now.Over(ONE)
    ensures forall l :: 1 <= l < lvl && levels[l] != [] ==>
      && !Score(levels, l, readers, cfg).Over(now)
      && (now.Over(Score(levels, l, readers, cfg)) || Score(levels, l, readers, cfg) == Ratio(0, 0))
  {
    hide Score, Ratio.Over;
    forall l | 1 <= l < lvl && levels[l] != []
      ensures !Score(levels, l, readers, cfg).Over(now)
      ensures now.Over(Score(levels, l, readers, cfg)) || Score(levels, l, readers, cfg) == Ratio(0, 0)
    {
      OverBest(Score(levels, l, readers, cfg), best, now);
    }
    if best != ONE {
      NeverBoth(best, ONE);
      OverBest(ONE, best, now);
    }
  }

  lemma NeverBoth(a: Ratio, b: Ratio)
    requires a.Over(b)
    ensures !b.Over(a)
  {
  }

  /** What a picked task is, whichever level it comes from. */
  ghost predicate TaskFor(levels: LevelLists, tables: Tables, task: Task, maxLevels: nat) {
    && |levels| == ROWS && maxLevels <= MAX_LEVELS && TablesNotEmpty(tables)
    && task.from < maxLevels && task.to == task.from + 1
    && task.inputFrom ==
       (if task.from == 0 then levels[0] else if levels[task.from] == [] then [] else [levels[task.from][0]])
    && task.inputTo == Overlapping(task.inputFrom, levels[task.to], tables)
    && task.isBottom == IsBottom(task.to, levels, maxLevels)
    && (task.from > 0 ==> levels[task.from] != [])
  }

  predicate CompactionDue(levels: LevelLists, tables: Tables, cfg: LevelConfig)
    requires |levels| == ROWS && cfg.maxLevels <= MAX_LEVELS
  {
    |levels[0]| >= cfg.l0Trigger || exists l :: 1 <= l < cfg.maxLevels && Due(levels, l, tables, cfg)
  }

  /** The task takes level 0 exactly when that has reached its trigger, and otherwise comes out of the fullest level. */
  ghost predicate Picked(levels: LevelLists, tables: Tables, cfg: LevelConfig, task: Task)
    requires |levels| == ROWS && 0 < cfg.maxLevels <= MAX_LEVELS
  {
    && TaskFor(levels, tables, task, cfg.maxLevels)
    && (task.from == 0 <==> |levels[0]| >= cfg.l0Trigger)
    && (task.from > 0 ==> Fullest(levels, task.from, tables, cfg))
  }

  /**
   Level 0 is due by its number of tables and is taken as a whole; otherwise the fullest level
   over its size gives its first table.
   */
  method PickCompaction(levels: LevelLists, readers: Tables, cfg: LevelConfig) returns (task: Option<Task>)
    requires |levels| == ROWS && cfg.maxLevels <= MAX_LEVELS && 0 < cfg.maxLevels && TablesNotEmpty(readers)
    ensures task.Some? <==> CompactionDue(levels, readers, cfg)
    ensures task.Some? ==> Picked(levels, readers, cfg, task.value)
    ensures task.Some? ==>
      var t := task.value;
      && t.to == t.from + 1
      && (|levels[0]| >= cfg.l0Trigger ==> t.from == 0 && t.inputFrom == levels[0])
      && (|levels[0]| < cfg.l0Trigger ==> t.from > 0 && levels[t.from] != [] && t.inputFrom == [levels[t.from][0]])
      && (t.isBottom <==> forall l :: t.to < l < cfg.maxLevels ==> levels[l] == [])
  {
    if |levels[0]| >= cfg.l0Trigger {
      var inputTo := FindOverlapping(levels[0], levels[1], readers);
      var bottom := IsBottomLevel(1, levels, cfg.maxLevels);
      return Some(Task(0, 1, levels[0], inputTo, bottom));
    }
    var best := BestLevel(levels, readers, cfg);
    if best.None? {
      return None;
    }
    var b := best.value;
    var inputFrom := [levels[b][0]];
    var inputTo := FindOverlapping(inputFrom, levels[b + 1], readers);
    var bottom := IsBottomLevel(b + 1, levels, cfg.maxLevels);
    return Some(Task(b, b + 1, inputFrom, inputTo, bottom));
  }
}
