/** The store as its callers see it: a map (pkg/lsm/engine.go, `Put`, `Delete`, `Get`, `Scan`). */
module Clients {
  import opened Bytes
  import opened Entries
  import opened Upsert
  import opened TableFormat
  import opened Machine
  import opened FlushGuard
  import opened Merger
  import opened Scans
  import opened Engines

  /** An open engine between calls, whose memtables a table can give back. */
  ghost predicate Open(db: Engine)
    reads db, db.manifest, db.activeWAL, db.activeWAL.file, db.activeMem, db.activeMem.Repr
    reads db.immMem, if db.immMem == null then {} else db.immMem.Repr
  {
    db.Coupled() && Resting(db.live) && Saveable(db.live) && !db.closed
  }

  /** After a put the key has the value, and every other key has what it had. */
  method PutThenGet(db: Engine, key: Key, value: seq<byte>, other: Key, now: int64)
      returns (before: Result<seq<byte>>, r: Result<seq<byte>>, after: Result<seq<byte>>)
    requires db.Coupled() && Resting(db.live) && AllStorable(ImmRun(db.live.imm)) && !db.closed && key != []
    modifies db.Footprint()
    ensures r == Ok(value) && (other != key ==> after == before)
  {
    hide Engine.Coupled, LiveInv, AllStorable, MapOf, LastOf;
    RestingIsRunnable(db.live);
    before := db.Get(other);
    var err := db.Put(key, value, now);
    r := db.Get(key);
    after := db.Get(other);
  }

  /** After a delete the key is not found, no scan shows it, and every other key has what it had. */
  method DeleteThenGet(db: Engine, key: Key, other: Key, lo: Key, hi: Key, now: int64)
      returns (before: Result<seq<byte>>, r: Result<seq<byte>>, after: Result<seq<byte>>, it: Result<MergedIterator>)
    requires db.Coupled() && Resting(db.live) && AllStorable(ImmRun(db.live.imm)) && !db.closed && key != []
    modifies db.Footprint()
    ensures r == Err(NOT_FOUND) && (other != key ==> after == before)
    ensures it.Ok? && it.value.Inv() && forall e :: e in UpTo(it.value.Remaining(), hi) ==> e.key != key
  {
    hide Engine.Coupled, LiveInv, AllStorable, MapOf, LastOf, MergedIterator.Inv, MergedIterator.Remaining, UpTo,
         ScanPairs;
    RestingIsRunnable(db.live);
    before := db.Get(other);
    var err := db.Delete(key, now);
    r := db.Get(key);
    after := db.Get(other);
    it := db.Scan(lo, hi);
    ScanIsMap(db.live, lo, hi);
  }

  // ----- Whole sessions -----

  datatype Op = Putting(key: Key, value: seq<byte>) | Deleting(key: Key) | Getting(key: Key)

  /** What an operation makes of a map, and what it answers. */
  function MapAfter(m: map<Key, seq<byte>>, op: Op): map<Key, seq<byte>> {
    match op
    case Putting(key, value) => m[key := value]
    case Deleting(key) => m - {key}
    case Getting(_) => m
  }

  function AnswerOf(m: map<Key, seq<byte>>, op: Op): Option<seq<byte>> {
    if op.Getting? && op.key in m then Some(m[op.key]) else None
  }

  function MapAfterAll(m: map<Key, seq<byte>>, ops: seq<Op>): map<Key, seq<byte>> {
    if ops == [] then m else MapAfter(MapAfterAll(m, ops[..|ops| - 1]), ops[|ops| - 1])
  }

  /** Operation i answers what the map after those before it has. */
  predicate AllAnswered(m: map<Key, seq<byte>>, ops: seq<Op>, answers: seq<Option<seq<byte>>>) {
    |answers| == |ops| && forall i :: 0 <= i < |ops| ==> answers[i] == AnswerOf(MapAfterAll(m, ops[..i]), ops[i])
  }

  lemma NothingAnswered(m: map<Key, seq<byte>>, ops: seq<Op>)
    ensures MapAfterAll(m, ops[..0]) == m && AllAnswered(m, ops[..0], [])
  {
  }

  lemma OneMapMore(m: map<Key, seq<byte>>, ops: seq<Op>, i: nat)
    requires i < |ops|
    ensures MapAfterAll(m, ops[..i + 1]) == MapAfter(MapAfterAll(m, ops[..i]), ops[i])
  {
    hide MapAfter;
    assert ops[..i + 1][..i] == ops[..i];
  }

  lemma OneMoreAnswer(m: map<Key, seq<byte>>, ops: seq<Op>, i: nat, answers: seq<Option<seq<byte>>>)
    requires i < |ops| && AllAnswered(m, ops[..i], answers)
    ensures MapAfterAll(m, ops[..i + 1]) == MapAfter(MapAfterAll(m, ops[..i]), ops[i])
    ensures AllAnswered(m, ops[..i + 1], answers + [AnswerOf(MapAfterAll(m, ops[..i]), ops[i])])
  {
    hide AnswerOf, MapAfter, MapAfterAll;
    OneMapMore(m, ops, i);
    forall j | 0 <= j < i + 1
      ensures (answers + [AnswerOf(MapAfterAll(m, ops[..i]), ops[i])])[j] ==
        AnswerOf(MapAfterAll(m, ops[..i + 1][..j]), ops[..i + 1][j])
    {
      assert ops[..i + 1][..j] == ops[..j];
      if j < i {
        assert ops[..i][..j] == ops[..j] && ops[..i][j] == ops[j];
      }
    }
  }

  predicate Acceptable(op: Op) {
    0 < |op.key| < TWO16 && (op.Putting? ==> |op.value| < TWO31)
  }

  /** Whatever puts, deletes and gets a caller makes, one after the other, the answers are those of a map. */
  method Session(db: Engine, ops: seq<Op>, now: int64) returns (answers: seq<Option<seq<byte>>>)
    requires Open(db) && forall i :: 0 <= i < |ops| ==> Acceptable(ops[i])
    modifies db.Footprint()
    ensures Open(db) && MapOf(db.live.hist) == MapAfterAll(old(MapOf(db.live.hist)), ops)
    ensures AllAnswered(old(MapOf(db.live.hist)), ops, answers)
  {
    hide Open, MapOf, AnswerOf, MapAfter, MapAfterAll, AllAnswered, Acceptable;
    ghost var start := MapOf(db.live.hist);
    answers := [];
    NothingAnswered(start, ops);
    for i := 0 to |ops|
      invariant Open(db) && fresh(db.Footprint() - old(db.Footprint()))
      invariant MapOf(db.live.hist) == MapAfterAll(start, ops[..i])
      invariant AllAnswered(start, ops[..i], answers)
    {
      var answer := Perform(db, ops[i], now);
      OneMoreAnswer(start, ops, i, answers);
      answers := answers + [answer];
    }
    assert ops[..|ops|] == ops;
  }

  method Perform(db: Engine, op: Op, now: int64) returns (answer: Option<seq<byte>>)
    requires Open(db) && Acceptable(op)
    modifies db.Footprint()
    ensures Open(db) && fresh(db.Footprint() - old(db.Footprint()))
    ensures MapOf(db.live.hist) == MapAfter(old(MapOf(db.live.hist)), op)
    ensures answer == AnswerOf(old(MapOf(db.live.hist)), op)
  {
    hide Engine.Coupled, LiveInv, AllStorable, MapOf, LastOf;
    RestingIsRunnable(db.live);
    match op {
      case Putting(key, value) =>
        var err := db.Put(key, value, now);
        return None;
      case Deleting(key) =>
        var err := db.Delete(key, now);
        return None;
      case Getting(key) =>
        var r := db.Get(key);
        return if r.Ok? then Some(r.value) else None;
    }
  }
}
