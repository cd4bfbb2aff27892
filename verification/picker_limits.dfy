/** When compaction is due, in bytes, and that one task is picked then (pkg/compactor/picker.go). */
module PickerLimits {
  import opened Levels
  import opened Picker
  import TableFormat

  // ----- Sizes and limits -----

  /** Level 1 may hold the base size, each deeper level the multiplier times what the one above may. */
  lemma LimitsGrow(cfg: LevelConfig, lvl: nat)
    requires lvl > 0
    ensures MaxBytesForLevel(cfg, 1) == cfg.baseLevelSizeMB * 1048576
    ensures MaxBytesForLevel(cfg, lvl + 1) == cfg.levelMultiplier * MaxBytesForLevel(cfg, lvl)
  {
    var base := cfg.baseLevelSizeMB * 1024 * 1024;
    assert Power(cfg.levelMultiplier, lvl) == cfg.levelMultiplier * Power(cfg.levelMultiplier, lvl - 1);
    assert base * (cfg.levelMultiplier * Power(cfg.levelMultiplier, lvl - 1))
        == cfg.levelMultiplier * (base * Power(cfg.levelMultiplier, lvl - 1));
  }

  /** A level's size is the number of bytes in the data files of its tables. */
  lemma TotalSizeOneMore(ids: seq<nat>, id: nat, tables: Tables)
    requires id in tables && TableFormat.ShortBlocks(TableFormat.BlocksOf(tables[id].run, tables[id].blockSize))
    ensures TotalSize([], tables) == 0
    ensures var t := tables[id];
      TotalSize(ids + [id], tables) ==
        TotalSize(ids, tables) + |TableFormat.DataOf(TableFormat.BlocksOf(t.run, t.blockSize))|
  {
    assert (ids + [id])[..|ids|] == ids;
    TableFormat.OffsetsExact(TableFormat.BlocksOf(tables[id].run, tables[id].blockSize));
  }

  /** A level is due exactly when it lists tables that hold more than its limit. */
  lemma DueExactly(levels: LevelLists, lvl: nat, tables: Tables, cfg: LevelConfig)
    requires 0 < lvl < |levels|
    ensures Due(levels, lvl, tables, cfg) <==> TotalSize(levels[lvl], tables) > MaxBytesForLevel(cfg, lvl)
  {
    if levels[lvl] == [] {
      assert TotalSize(levels[lvl], tables) == 0;
    }
  }

  /** One score is over another exactly when the one quotient is greater than the other. */
  lemma OverIsGreater(a: Ratio, b: Ratio)
    requires a.limit > 0 && b.limit > 0
    ensures a.Over(b) <==> a.size as real / a.limit as real > b.size as real / b.limit as real
  {
    var x, y, p, q := a.size as real, b.size as real, a.limit as real, b.limit as real;
    assert (a.size * b.limit) as real == x * q && (b.size * a.limit) as real == y * p;
    QuotientsCompare(x, p, y, q);
  }

  lemma QuotientsCompare(x: real, p: real, y: real, q: real)
    requires p > 0.0 && q > 0.0
    ensures x * q > y * p <==> x / p > y / q
  {
    var u, v := x / p, y / q;
    assert x == u * p && y == v * q;
    assert x * q == u * (p * q) && y * p == v * (p * q);
    assert p * q > 0.0;
    if u > v {
      Scaled(v, u, p * q);
    } else if u < v {
      Scaled(u, v, p * q);
    }
  }

  lemma Scaled(u: real, v: real, w: real)
    requires u < v && w > 0.0
    ensures u * w < v * w
  {
  }

  // ----- What is picked -----

  /** No two levels are both the fullest. */
  lemma OneFullest(levels: LevelLists, a: nat, b: nat, tables: Tables, cfg: LevelConfig)
    requires cfg.maxLevels <= |levels| && Fullest(levels, a, tables, cfg) && Fullest(levels, b, tables, cfg)
    ensures a == b
  {
    hide TotalSize, MaxBytesForLevel;
  }

  /** So no two tasks can be picked for the same levels. */
  lemma OnePicked(levels: LevelLists, tables: Tables, cfg: LevelConfig, x: Task, y: Task)
    requires |levels| == ROWS && 0 < cfg.maxLevels <= MAX_LEVELS
    requires Picked(levels, tables, cfg, x) && Picked(levels, tables, cfg, y)
    ensures x == y
  {
    hide Fullest, Overlapping, IsBottom;
    if x.from > 0 {
      OneFullest(levels, x.from, y.from, tables, cfg);
    }
  }

  /**
   With tables in one level only, level 0 being below its trigger: a task is picked exactly when they hold more
   than that level's limit, and it takes the first of them.
   */
  lemma OneLevelPicked(levels: LevelLists, tables: Tables, cfg: LevelConfig, l: nat)
    requires |levels| == ROWS && cfg.maxLevels <= MAX_LEVELS && TablesNotEmpty(tables) && 1 <= l < cfg.maxLevels
    requires levels[l] != [] && |levels[0]| < cfg.l0Trigger
    requires forall m :: 1 <= m < cfg.maxLevels && m != l ==> levels[m] == []
    ensures (exists task :: Picked(levels, tables, cfg, task)) <==>
      TotalSize(levels[l], tables) > cfg.baseLevelSizeMB * 1048576 * Power(cfg.levelMultiplier, l - 1)
    ensures forall task :: Picked(levels, tables, cfg, task) ==> task.from == l && task.inputFrom == [levels[l][0]]
  {
    hide Overlapping, IsBottom, TotalSize, Power;
    DueExactly(levels, l, tables, cfg);
    assert cfg.baseLevelSizeMB * 1024 * 1024 == cfg.baseLevelSizeMB * 1048576;
    NotOverItself(Score(levels, l, tables, cfg));
    var task := Task(l, l + 1, [levels[l][0]], Overlapping([levels[l][0]], levels[l + 1], tables),
                     IsBottom(l + 1, levels, cfg.maxLevels));
    if Due(levels, l, tables, cfg) {
      assert Picked(levels, tables, cfg, task);
    }
  }

  /** The configuration of the engine, with the default trigger. */
  const DEFAULT_CONFIG := LevelConfig(4, 10, 10, MAX_LEVELS)

  /** Ten mebibytes in level 1 are left alone, one byte more is compacted; ten times as much in level 2, and so on. */
  lemma DefaultLimits(levels: LevelLists, tables: Tables, l: nat)
    requires |levels| == ROWS && TablesNotEmpty(tables) && 1 <= l < MAX_LEVELS && levels[l] != [] && |levels[0]| < 4
    requires forall m :: 1 <= m < MAX_LEVELS && m != l ==> levels[m] == []
    ensures MaxBytesForLevel(DEFAULT_CONFIG, l) ==
      [10485760, 104857600, 1048576000, 10485760000, 104857600000, 1048576000000][l - 1]
    ensures (exists task :: Picked(levels, tables, DEFAULT_CONFIG, task)) <==>
      TotalSize(levels[l], tables) > MaxBytesForLevel(DEFAULT_CONFIG, l)
  {
    hide Picked, TotalSize;
    OneLevelPicked(levels, tables, DEFAULT_CONFIG, l);
    assert Power(10, 0) == 1 && Power(10, 1) == 10 && Power(10, 2) == 100;
    assert Power(10, 3) == 1000 && Power(10, 4) == 10000 && Power(10, 5) == 100000;
  }
}
