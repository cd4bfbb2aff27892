/**
 Get is two atomic phases (pkg/lsm/engine.go, `Get`): the memtables under mu, then the tables under
 readersMu. Any steps may come in between.
 */
module Linearizability {
  import opened Bytes
  import opened Entries
  import opened Runs
  import opened Upsert
  import opened Levels
  import opened Storage
  import opened Machine
  import opened MachineSteps
  import opened MachineCompaction
  import opened Compactor
  import opened Safety
  import TableFormat

  /** The value of a key in the map of last writes. */
  function Value(s: Live, key: Key): Option<seq<byte>> {
    Visible(LastOf(s.hist, key))
  }

  /** States of a running engine, each by a step from the one before. */
  ghost predicate Trace(ss: seq<Live>, evs: seq<Event>) {
    && |ss| == |evs| + 1
    && forall i :: 0 <= i < |evs| ==> LiveEnabled(ss[i], evs[i]) && LiveNext(ss[i], evs[i]) == Up(ss[i + 1])
  }

  /** Some state of the list has this value for the key. */
  ghost predicate Seen(ss: seq<Live>, key: Key, v: Option<seq<byte>>) {
    exists i :: 0 <= i < |ss| && Value(ss[i], key) == v
  }

  ghost predicate HeldSeen(ss: seq<Live>, key: Key, found: Option<Entry>) {
    found.Some? ==> Seen(ss, key, Visible(found))
  }

  /** What a flush in progress is about to show. */
  function TakenRun(job: Job): seq<Entry> {
    if job.Taken? || job.Built? || job.Listed? then job.mem.run else []
  }

  /** Wherever the key is held now, the value has been the key's since the memory phase. */
  ghost predicate Covered(s: Live, ss: seq<Live>, key: Key)
    requires ShotOk(s)
  {
    && HeldSeen(ss, key, Find(s.active.run, key)) && HeldSeen(ss, key, Find(ImmRun(s.imm), key))
    && HeldSeen(ss, key, Find(TakenRun(s.job), key)) && Seen(ss, key, Visible(ShotFind(s, key)))
  }

  lemma SeenLater(ss: seq<Live>, t: Live, key: Key, v: Option<seq<byte>>)
    requires Seen(ss, key, v)
    ensures Seen(ss + [t], key, v)
  {
    var i :| 0 <= i < |ss| && Value(ss[i], key) == v;
    assert (ss + [t])[i] == ss[i];
  }

  lemma SeenNow(ss: seq<Live>, t: Live, key: Key)
    ensures Seen(ss + [t], key, Value(t, key))
  {
    assert (ss + [t])[|ss|] == t;
  }

  lemma HeldLater(ss: seq<Live>, t: Live, key: Key, found: Option<Entry>)
    requires HeldSeen(ss, key, found)
    ensures HeldSeen(ss + [t], key, found)
  {
    if found.Some? {
      SeenLater(ss, t, key, Visible(found));
    }
  }

  // ----- One step -----

  /** What a step does to the places a key can be held in. */
  ghost predicate Moves(s: Live, t: Live, key: Key)
    requires ShotOk(s) && ShotOk(t)
  {
    && (Find(t.active.run, key) == Find(s.active.run, key) || Find(t.active.run, key) == None
        || Visible(Find(t.active.run, key)) == Value(t, key))
    && Find(ImmRun(t.imm), key) in {Find(s.active.run, key), Find(ImmRun(s.imm), key), None}
    && Find(TakenRun(t.job), key) in {Find(ImmRun(s.imm), key), Find(TakenRun(s.job), key), None}
    && (Visible(ShotFind(t, key)) == Visible(ShotFind(s, key))
        || (Find(TakenRun(s.job), key).Some? && Visible(ShotFind(t, key)) == Visible(Find(TakenRun(s.job), key))))
  }

  lemma SameShotMoves(s: Live, t: Live, key: Key)
    requires ShotOk(s) && ShotOk(t) && t.shot == s.shot
    requires (t.active == s.active && (t.imm == s.imm || t.imm == None))
      || (t.active.run == [] && t.imm == Some(s.active))
    requires TakenRun(t.job) in {ImmRun(s.imm), TakenRun(s.job), []}
    ensures Moves(s, t, key)
  {
    hide LevelsOk, DiskFind, FilesBounded;
  }

  lemma WriteMoves(s: Live, key: Key)
    requires CanEndWrite(s) && Ascending(s.active.run) && ShotOk(s) && ShotOk(EndsWrite(s))
    ensures Moves(s, EndsWrite(s), key)
  {
    var e := s.inflight.value;
    PutIsMapUpdate(s.active.run, e);
    assert (s.hist + [e])[..|s.hist|] == s.hist;
    hide LevelsOk, DiskFind, FilesBounded, TornDisk, GivesBack, Find, Put, Ascending;
  }

  lemma ShowMoves(s: Live, key: Key)
    requires LiveInv(s) && CanShow(s)
    ensures ShotOk(s) && ShotOk(Shows(s)) && Moves(s, Shows(s), key)
  {
    hide DiskOk, LogsHold, JobOk, Refines, MemsOk, Current, LevelsOk, FilesBounded, DiskFind, Find,
         TableFormat.TableRun;
    LiveParts(s);
    ShownTables(s);
    ShownFind(s, key);
  }

  lemma ShowCompactedMoves(s: Live, key: Key)
    requires LiveInv(s) && CanShowCompacted(s)
    ensures ShotOk(s) && ShotOk(ShowsCompacted(s)) && Moves(s, ShowsCompacted(s), key)
  {
    hide DiskOk, LogsHold, JobOk, Refines, MemsOk, Current, LevelsOk, FilesBounded, DiskFind, Find, TablesAfter,
         TableFormat.TableRun;
    LiveParts(s);
    ShowCompactedJob(s);
    ShowCompactedFind(s, key);
  }

  lemma StepMoves(s: Live, ev: Event, t: Live, key: Key)
    requires LiveInv(s) && LiveEnabled(s, ev) && LiveNext(s, ev) == Up(t) && LiveInv(t)
    ensures ShotOk(s) && ShotOk(t) && Moves(s, t, key)
  {
    hide LiveInv, ShotOk, Moves, CanCompact, CompactedLevels, EndsWrite, TablesAfter, Ascending, SafeToRotate, Trusted;
    MemsAscend(s);
    MemsAscend(t);
    match ev
    case EndWrite => WriteMoves(s, key);
    case ShowTable => ShowMoves(s, key);
    case ShowCompacted => ShowCompactedMoves(s, key);
    case _ => SameShotMoves(s, t, key);
  }

  lemma CoveredAfter(s: Live, t: Live, ss: seq<Live>, key: Key)
    requires ShotOk(s) && ShotOk(t) && Covered(s, ss, key) && Moves(s, t, key)
    ensures Covered(t, ss + [t], key)
  {
    hide LevelsOk, FilesBounded, DiskFind, Seen, Find, LastOf;
    HeldLater(ss, t, key, Find(s.active.run, key));
    HeldLater(ss, t, key, Find(ImmRun(s.imm), key));
    HeldLater(ss, t, key, Find(TakenRun(s.job), key));
    SeenLater(ss, t, key, Visible(ShotFind(s, key)));
    SeenNow(ss, t, key);
  }

  // ----- Whole reads -----

  lemma {:induction false} CoveredAlong(ss: seq<Live>, evs: seq<Event>, key: Key, n: nat)
    requires Trace(ss, evs) && n < |ss| && LiveInv(ss[0]) && MemFind(ss[0], key).None?
    ensures LiveInv(ss[n]) && ShotOk(ss[n]) && Covered(ss[n], ss[..n + 1], key)
  {
    hide LiveInv, LiveEnabled, LiveNext, ShotOk, Covered, MemFind;
    if n == 0 {
      FirstCovered(ss[0], key);
      assert ss[..1] == [] + [ss[0]];
    } else {
      CoveredAlong(ss, evs, key, n - 1);
      assert LiveNext(ss[n - 1], evs[n - 1]) == Up(ss[n]);
      LiveStepKeeps(ss[n - 1], evs[n - 1]);
      UpKeeps(ss[n]);
      StepMoves(ss[n - 1], evs[n - 1], ss[n], key);
      CoveredAfter(ss[n - 1], ss[n], ss[..n], key);
      assert ss[..n + 1] == ss[..n] + [ss[n]];
    }
  }

  lemma FirstCovered(s: Live, key: Key)
    requires LiveInv(s) && MemFind(s, key).None?
    ensures ShotOk(s) && Covered(s, [] + [s], key)
  {
    hide LiveInv, DiskOk, LogsHold, JobOk, Refines, MemsOk, Seen, LevelsOk, FilesBounded, TakenOk, ShotFind, Find,
         LastOf;
    LiveParts(s);
    LookupIsLastWrite(s, key);
    JobTaken(s);
    if Flushing(s.job) {
      ShownSame(s, key);
    }
    SeenNow([], s, key);
  }

  /**
   Two-phase Get is linearizable: what it returns is the value of the key in the map of last writes at
   some moment between its memory phase, in the first state, and its disk phase, in the last.
   */
  lemma GetIsLinearizable(ss: seq<Live>, evs: seq<Event>, key: Key)
    requires Trace(ss, evs) && LiveInv(ss[0])
    ensures MemFind(ss[0], key).Some? ==> Visible(MemFind(ss[0], key)) == Value(ss[0], key)
    ensures LiveInv(ss[|ss| - 1])
    ensures MemFind(ss[0], key).None? ==>
      exists i :: 0 <= i < |ss| && Visible(ShotFind(ss[|ss| - 1], key)) == Value(ss[i], key)
  {
    hide LiveInv, LiveEnabled, LiveNext;
    var n := |ss| - 1;
    InvAlong(ss, evs, n);
    hide Trace;
    LookupIsLastWrite(ss[0], key);
    LookupPhases(ss[0], key);
    hide MemFind, ShotFind, Lookup, LastOf, Value;
    if MemFind(ss[0], key).None? {
      CoveredAlong(ss, evs, key, n);
      assert ss[..n + 1] == ss;
      var i :| 0 <= i < |ss| && Value(ss[i], key) == Visible(ShotFind(ss[n], key));
    }
  }

  lemma LookupPhases(s: Live, key: Key)
    requires LiveInv(s)
    ensures MemFind(s, key).Some? ==> Lookup(s, key) == MemFind(s, key)
  {
    hide DiskOk, LogsHold, JobOk, Refines, MemsOk, LevelsOk, DiskFind;
  }

  lemma {:induction false} InvAlong(ss: seq<Live>, evs: seq<Event>, n: nat)
    requires Trace(ss, evs) && n < |ss| && LiveInv(ss[0])
    ensures LiveInv(ss[n])
  {
    hide LiveInv, LiveEnabled, LiveNext;
    if n > 0 {
      InvAlong(ss, evs, n - 1);
      assert LiveNext(ss[n - 1], evs[n - 1]) == Up(ss[n]);
      LiveStepKeeps(ss[n - 1], evs[n - 1]);
      UpKeeps(ss[n]);
    }
  }
}
