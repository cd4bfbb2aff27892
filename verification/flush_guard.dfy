/**
 Rotation is only sound when there is no immutable memtable (pkg/lsm/engine.go, `rotateMemTable`).
 Put, Delete and flushImmutable check; Flush does not check again after its inner flushImmutable,
 which may itself have rotated, and beside which others may have.
 */
module FlushGuard {
  import opened Bytes
  import opened Entries
  import opened Runs
  import opened Upsert
  import opened Wal
  import opened Levels
  import opened Storage
  import opened DiskSteps
  import opened Machine
  import opened MachineSteps
  import opened Safety
  import opened Linearizability
  import opened TableFormat

  /** Rotating keeps every lookup, for the moment, exactly when there is nothing to lose in the immutable memtable. */
  lemma RotationKeepsExactly(s: Live)
    requires LiveInv(s)
    ensures ShotOk(s) && ShotOk(RotatesAnyway(s))
    ensures (forall key: Key :: Visible(Lookup(RotatesAnyway(s), key)) == Visible(Lookup(s, key)))
      <==> NothingToLose(ImmRun(s.imm), s.active.run, s)
  {
    hide DiskOk, Refines, LogsHold, JobOk, LevelsOk, DiskFind, Ascending, TakenOk;
    LiveParts(s);
    var t, run := RotatesAnyway(s), ImmRun(s.imm);
    ShotKept(s, t);
    if forall key: Key :: Visible(Lookup(t, key)) == Visible(Lookup(s, key)) {
      forall e | e in run
        ensures Find(s.active.run, e.key).Some? || Visible(Some(e)) == Visible(ShotFind(s, e.key))
      {
        FindMember(run, e);
        assert Visible(Lookup(t, e.key)) == Visible(Lookup(s, e.key));
      }
    }
    if NothingToLose(run, s.active.run, s) {
      forall key: Key
        ensures Visible(Lookup(t, key)) == Visible(Lookup(s, key))
      {
        RotationView(s, key);
      }
    }
  }

  // ----- Flush, with anything in its gap -----

  /** Whether there is an immutable memtable after these steps: the last one to rotate or to drop decides. */
  function ImmAfter(before: bool, evs: seq<Event>): bool {
    if evs == [] then before
    else
      var last := evs[|evs| - 1];
      if last.Rotate? || last.RotateAnyway? then true
      else if last.DropImm? then false
      else ImmAfter(before, evs[..|evs| - 1])
  }

  lemma {:induction false} ImmAlong(ss: seq<Live>, evs: seq<Event>, n: nat)
    requires Trace(ss, evs) && n <= |evs|
    ensures ss[n].imm.Some? <==> ImmAfter(ss[0].imm.Some?, evs[..n])
  {
    hide LiveEnabled, LiveNext;
    if n > 0 {
      ImmAlong(ss, evs, n - 1);
      assert evs[..n][..n - 1] == evs[..n - 1] && evs[..n][n - 1] == evs[n - 1];
      assert LiveEnabled(ss[n - 1], evs[n - 1]) && LiveNext(ss[n - 1], evs[n - 1]) == Up(ss[n]);
      ImmStep(ss[n - 1], evs[n - 1], ss[n]);
    }
  }

  lemma ImmStep(s: Live, ev: Event, t: Live)
    requires LiveEnabled(s, ev) && LiveNext(s, ev) == Up(t)
    ensures t.imm.Some? <==> if ev.Rotate? || ev.RotateAnyway? then true else if ev.DropImm? then false else s.imm.Some?
  {
    hide CanCompact, CanRotateAnyway, CanCrash, TornDisk, GivesBack, CompactedLevels, LogOpened;
  }

  /** Lookups show the last writes. */
  ghost predicate Right(s: Live) {
    ShotOk(s) && Refines(s)
  }

  /** They do from here on, whatever steps of the machine the running engine takes. */
  ghost predicate AlwaysRight(t: Live) {
    forall ss, evs :: Trace(ss, evs) && ss[0] == t ==> Right(ss[|evs|])
  }

  /**
   Flush gives up mu around its inner flushImmutable, and then rotates without looking. Whatever steps ran in
   the gap, that flush's own and another one's among them: from then on lookups are right, whatever comes,
   exactly when there is no immutable memtable, or it has nothing to lose, nor, if a flush is still in
   progress, has the active one, which that flush will drop. In these cases the whole invariant goes on. There
   is no immutable memtable when the last step in the gap that rotated or dropped was a drop.
   */
  lemma FlushInAnySchedule(ss: seq<Live>, evs: seq<Event>)
    requires Trace(ss, evs) && LiveInv(ss[0]) && ss[|evs|].inflight.None?
    ensures var s := ss[|evs|];
      && LiveInv(s) && ShotOk(s)
      && ((s.job.Taken? ==> AllStorable(s.job.mem.run)) ==> (AlwaysRight(RotatesAnyway(s)) <==> SafeToRotate(s)))
      && (SafeToRotate(s) ==> LiveInv(RotatesAnyway(s)) && AlwaysRight(RotatesAnyway(s)))
      && (s.imm.None? <==> !ImmAfter(ss[0].imm.Some?, evs))
  {
    var s := ss[|evs|];
    hide LiveInv, LiveEnabled, LiveNext, ShotOk, SafeToRotate, AlwaysRight;
    InvAlong(ss, evs, |evs|);
    ImmAlong(ss, evs, |evs|);
    assert evs[..|evs|] == evs;
    hide Trace, ImmAfter;
    LiveParts(s);
    if SafeToRotate(s) {
      SafeRotationKeeps(s);
      ValidIsAlwaysRight(RotatesAnyway(s));
    } else if s.job.Taken? ==> AllStorable(s.job.mem.run) {
      UnsafeGoesWrong(s);
    }
  }

  lemma ValidIsAlwaysRight(t: Live)
    requires LiveInv(t)
    ensures AlwaysRight(t)
  {
    hide LiveInv, LiveEnabled, LiveNext, ShotOk, Refines;
    forall ss, evs | Trace(ss, evs) && ss[0] == t
      ensures Right(ss[|evs|])
    {
      InvAlong(ss, evs, |evs|);
      LiveParts(ss[|evs|]);
    }
  }

  lemma UnsafeGoesWrong(s: Live)
    requires LiveInv(s) && s.inflight.None? && ShotOk(s) && !SafeToRotate(s)
    requires s.job.Taken? ==> AllStorable(s.job.mem.run)
    ensures !AlwaysRight(RotatesAnyway(s))
  {
    var t := RotatesAnyway(s);
    hide LiveInv, LiveEnabled, LiveNext, ShotOk, Trace, Right, NothingToLose, Repeats;
    if !NothingToLose(s.imm.value.run, s.active.run, s) {
      TraceStart(t);
      WrongAtOnce(s);
      var none: seq<Event> := [];
      assert Trace([t], none) && [t][|none|] == t;
    } else {
      var ss, evs := ToDrop(s);
      DroppedIsWrong(s, ss[|evs|]);
    }
  }

  lemma WrongAtOnce(s: Live)
    requires LiveInv(s) && s.imm.Some? && ShotOk(s) && !NothingToLose(s.imm.value.run, s.active.run, s)
    ensures !Right(RotatesAnyway(s))
  {
    hide LiveInv, LevelsOk, FilesBounded, Lookup, LastOf, NothingToLose;
    RotationKeepsExactly(s);
    LookupsAre(s);
    var t := RotatesAnyway(s);
    var key: Key :| Visible(Lookup(t, key)) != Visible(Lookup(s, key));
    assert Visible(Lookup(s, key)) == Visible(LastOf(s.hist, key));
  }

  /** What a flush in progress reads and writes is the same in both. */
  ghost predicate Alike(u: Live, t: Live) {
    && t.shot == u.shot && t.job == u.job
    && t.disk.levels == u.disk.levels && t.disk.files == u.disk.files && t.disk.nextId == u.disk.nextId
  }

  /** Everything else. */
  ghost predicate SameElse(s: Live, t: Live) {
    t.active == s.active && t.imm == s.imm && t.hist == s.hist && t.inflight == s.inflight
  }

  function Stage(job: Job): nat {
    if job.Taken? then 3 else if job.Built? then 2 else if job.Listed? then 1 else 0
  }

  /** The next step of a flush in progress, in a state that keeps the invariant and in one like it. */
  lemma NextOfFlush(u: Live, t: Live) returns (ev: Event, u': Live, t': Live)
    requires LiveInv(u) && Flushing(u.job) && !u.job.Shown? && Alike(u, t)
    requires u.job.Taken? ==> AllStorable(u.job.mem.run)
    ensures LiveEnabled(t, ev) && LiveNext(t, ev) == Up(t') && SameElse(t, t')
    ensures LiveInv(u') && Alike(u', t') && Flushing(u'.job) && u'.job.mem == u.job.mem && Stage(u'.job) < Stage(u.job)
    ensures ShotOk(u) && ShotOk(u') && forall key: Key :: NextFind(u', key) == NextFind(u, key)
  {
    hide LiveInv, ShotOk, Pushed, Find, DiskFind;
    RowsThere(u);
    if u.job.Taken? && u.job.mem.run == [] {
      ev, u', t' := SkipEmpty, Skips(u), Skips(t);
      SkipEmptyKeeps(u);
    } else if u.job.Taken? {
      ev, u', t' := BuildTable(0), Builds(u, 0), Builds(t, 0);
      BuildTableKeeps(u, 0);
    } else if u.job.Built? {
      ev, u', t' := ListTable, Lists(u), Lists(t);
      ListTableKeeps(u);
    } else {
      ListedThere(u);
      ev, u', t' := ShowTable, Shows(u), Shows(t);
      ShowTableKeeps(u);
    }
    RowsThere(u');
    NextFindKept(u, ev, u');
  }

  lemma ListedThere(u: Live)
    requires LiveInv(u) && u.job.Listed?
    ensures u.job.table in u.disk.files
  {
    LiveParts(u);
    ListedIs(u);
    hide LiveInv, DiskOk, ShotOk, LogsHold, JobOk;
  }

  lemma NextFindKept(u: Live, ev: Event, u': Live)
    requires LiveInv(u) && LiveInv(u') && Flushing(u.job) && !u.job.Shown? && Flushing(u'.job)
    requires u'.job.mem == u.job.mem
    requires u'.shot == u.shot || (CanShow(u) && u' == Shows(u))
    requires ShotOk(u) && ShotOk(u')
    ensures forall key: Key :: NextFind(u', key) == NextFind(u, key)
  {
    hide LiveInv, LevelsOk, FilesBounded, DiskFind, Find, CanShow, Shows;
    forall key: Key
      ensures NextFind(u', key) == NextFind(u, key)
    {
      if u'.shot == u.shot {
        SameShot(u, u', key);
      } else {
        ShownKept(u, key);
      }
    }
  }

  lemma ShownKept(s: Live, key: Key)
    requires LiveInv(s) && CanShow(s) && ShotOk(s) && ShotOk(Shows(s))
    ensures ShotFind(Shows(s), key) == NextFind(s, key)
  {
    hide DiskOk, LogsHold, JobOk, Refines, MemsOk, Current, LevelsOk, FilesBounded, DiskFind, Find, TakenOk;
    LiveParts(s);
    ShownTables(s);
    ShownFind(s, key);
  }

  lemma SameShot(s: Live, t: Live, key: Key)
    requires ShotOk(s) && ShotOk(t) && t.shot == s.shot
    ensures ShotFind(t, key) == ShotFind(s, key)
  {
  }

  /** Once the table is shown, there is nothing more to come. */
  lemma ShownIsAll(u: Live, key: Key)
    requires LiveInv(u) && u.job.Shown? && ShotOk(u)
    ensures NextFind(u, key) == ShotFind(u, key)
  {
    hide LogsHold, Refines, MemsOk, LevelsOk, FilesBounded, LogsOk, TakenOk, DiskFind, Find, SameListed;
    LiveParts(u);
    CurrentFind(u, key);
  }

  /** The flush goes on until it has shown its table. */
  lemma {:induction false} ToShown(ss: seq<Live>, evs: seq<Event>, u: Live) returns (ss': seq<Live>, evs': seq<Event>)
    requires Trace(ss, evs) && LiveInv(u) && Flushing(u.job) && Alike(u, ss[|evs|])
    requires u.job.Taken? ==> AllStorable(u.job.mem.run)
    ensures Trace(ss', evs') && |ss'| == |evs'| + 1 && ss'[0] == ss[0] && SameElse(ss[|evs|], ss'[|evs'|])
    ensures ss'[|evs'|].job.Shown? && ShotOk(u) && ShotOk(ss'[|evs'|])
    ensures forall key: Key :: ShotFind(ss'[|evs'|], key) == NextFind(u, key)
    decreases Stage(u.job)
  {
    hide LiveInv, Trace, LiveEnabled, LiveNext, LevelsOk, FilesBounded, NextFind, ShotFind, AllStorable;
    RowsThere(u);
    TraceLength(ss, evs);
    var t := ss[|evs|];
    if u.job.Shown? {
      ss', evs' := ss, evs;
      AlikeShot(u, t);
      forall key: Key
        ensures ShotFind(t, key) == NextFind(u, key)
      {
        ShownIsAll(u, key);
        SameShot(u, t, key);
      }
    } else {
      var ev, u', t' := NextOfFlush(u, t);
      OneMoreStep(ss, evs, ev, t');
      assert (ss + [t'])[|evs + [ev]|] == t' && (ss + [t'])[0] == ss[0];
      ss', evs' := ToShown(ss + [t'], evs + [ev], u');
    }
  }

  lemma AlikeShot(u: Live, t: Live)
    requires ShotOk(u) && Alike(u, t)
    ensures ShotOk(t)
  {
    hide LevelsOk;
  }

  /** After the rotation the flush goes on and drops the memtable that was active before. */
  lemma ToDrop(s: Live) returns (ss: seq<Live>, evs: seq<Event>)
    requires LiveInv(s) && s.inflight.None? && Flushing(s.job) && (s.job.Taken? ==> AllStorable(s.job.mem.run))
    ensures Trace(ss, evs) && |ss| == |evs| + 1 && ss[0] == RotatesAnyway(s) && ShotOk(s) && DroppedBehind(s, ss[|evs|])
  {
    hide LiveInv, Trace, LevelsOk, FilesBounded, NextFind, ShotFind, AllStorable, LiveEnabled, LiveNext;
    var t, u := RotatesAnyway(s), BurnsId(s);
    RowsThere(s);
    BurnIdKeeps(s);
    TraceStart(t);
    ss, evs := ToShown([t], [], u);
    var r := ss[|evs|];
    TraceLength(ss, evs);
    DropEnabled(r);
    OneMoreStep(ss, evs, DropImm, Drops(r));
    ss, evs := ss + [Drops(r)], evs + [DropImm];
    NothingBurnt(s, u);
    ShotKept(r, Drops(r));
    forall key: Key
      ensures ShotFind(Drops(r), key) == NextFind(s, key)
    {
      assert NextFind(u, key) == NextFind(s, key);
      SameShot(r, Drops(r), key);
    }
  }

  /** Nothing in memory but the flush's tables, what it took and what was there before. */
  ghost predicate DroppedBehind(s: Live, r: Live)
    requires Flushing(s.job) && ShotOk(s)
  {
    && r.hist == s.hist && r.active.run == [] && r.imm.None? && ShotOk(r)
    && forall key: Key :: ShotFind(r, key) == NextFind(s, key)
  }

  lemma DropEnabled(r: Live)
    requires CanDrop(r)
    ensures LiveEnabled(r, DropImm) && LiveNext(r, DropImm) == Up(Drops(r))
  {
  }

  lemma NothingBurnt(s: Live, u: Live)
    requires u == BurnsId(s) && Flushing(s.job) && ShotOk(s) && ShotOk(u)
    ensures forall key: Key :: NextFind(u, key) == NextFind(s, key)
  {
    hide LevelsOk, DiskFind, Find;
  }

  lemma DroppedIsWrong(s: Live, r: Live)
    requires LiveInv(s) && Flushing(s.job) && ShotOk(s) && DroppedBehind(s, r)
    ensures Right(r) <==> Repeats(s.active.run, s)
  {
    hide DiskOk, LogsHold, JobOk, LevelsOk, FilesBounded, NextFind, ShotFind, LastOf;
    if Right(r) {
      forall e | e in s.active.run
        ensures Visible(Some(e)) == Visible(NextFind(s, e.key))
      {
        FindMember(s.active.run, e);
        assert Visible(Lookup(s, e.key)) == Visible(LastOf(s.hist, e.key));
        assert Visible(Lookup(r, e.key)) == Visible(LastOf(s.hist, e.key));
      }
    }
    if Repeats(s.active.run, s) {
      JobTaken(s);
      forall key: Key
        ensures Visible(Lookup(r, key)) == Visible(LastOf(r.hist, key))
      {
        assert Visible(Lookup(s, key)) == Visible(LastOf(s.hist, key));
        assert Visible(Or(Find(s.active.run, key), NextFind(s, key))) == Visible(Lookup(s, key));
        var found := Find(s.active.run, key);
        assert found.Some? ==> found.value in s.active.run && found.value.key == key;
      }
    }
  }

  /**
   A flush that has shown its table and not yet cleared immMem: rotating then is right at once, and after the
   flush's next step, which drops the memtable just rotated out, only if that one repeated what lies below.
   */
  lemma DropAfterRotation(s: Live)
    requires LiveInv(s) && s.inflight.None? && s.job.Shown?
    ensures ShotOk(s) && NothingToLose(ImmRun(s.imm), s.active.run, s)
    ensures Right(RotatesAnyway(s)) && CanDrop(RotatesAnyway(s))
    ensures Right(Drops(RotatesAnyway(s))) <==> Repeats(s.active.run, s)
  {
    var t := RotatesAnyway(s);
    var r := Drops(t);
    hide LiveInv, LevelsOk, FilesBounded, DiskFind, LastOf, Find, Repeats;
    RowsThere(s);
    ShotKept(s, t);
    ShotKept(t, r);
    forall key: Key
      ensures ShotFind(r, key) == NextFind(s, key)
    {
      ShownIsAll(s, key);
    }
    DroppedIsWrong(s, r);
    ShownLosesNothing(s);
    RotationKeepsExactly(s);
    LookupsAre(s);
    hide Lookup, NothingToLose;
    assert Refines(t);
  }

  lemma ShownLosesNothing(s: Live)
    requires LiveInv(s) && s.job.Shown? && ShotOk(s)
    ensures NothingToLose(ImmRun(s.imm), s.active.run, s)
  {
    hide DiskOk, LogsHold, JobOk, LevelsOk, FilesBounded, Refines, NextFind, ShotFind;
    LiveParts(s);
    JobTaken(s);
    forall e | e in ImmRun(s.imm)
      ensures Find(s.active.run, e.key).Some? || Visible(Some(e)) == Visible(ShotFind(s, e.key))
    {
      FindMember(ImmRun(s.imm), e);
      ShownIsAll(s, e.key);
      assert Visible(Or(Find(s.active.run, e.key), NextFind(s, e.key))) == Visible(Lookup(s, e.key));
    }
  }

  // ----- Flush, run on its own -----

  /** flushImmutable takes the immutable memtable, flushMemTableDirect saves it. */
  function SavesImm(s: Live, blockSize: nat): Live
    requires CanTake(s) && |s.disk.levels| == ROWS
  {
    var t := Takes(s);
    if t.job.mem.run == [] then Skips(t) else Shows(Lists(Builds(t, blockSize)))
  }

  /** flushImmutable; full says whether the active memtable has reached its limit. */
  function FlushesImm(s: Live, full: bool, blockSize: nat): Live
    requires s.job.Idle? && |s.disk.levels| == ROWS && s.inflight.None?
  {
    if s.imm.None? then s
    else
      var t := Drops(SavesImm(s, blockSize));
      RemovesLog(if full then RotatesAnyway(t) else t)
  }

  /** Flush. */
  function Flushes(s: Live, full: bool, blockSize: nat): Live
    requires s.job.Idle? && |s.disk.levels| == ROWS && s.inflight.None?
  {
    if s.active.run == [] && s.imm.None? then s
    else FlushesImm(RotatesAnyway(FlushesImm(s, full, blockSize)), false, blockSize)
  }

  /** Between jobs, no write in flight. */
  ghost predicate Resting(s: Live) {
    LiveInv(s) && s.job.Idle? && s.inflight.None?
  }

  /** A table file would give back what the memtables hold. */
  ghost predicate Saveable(s: Live) {
    AllStorable(s.active.run) && AllStorable(ImmRun(s.imm))
  }

  /** The tables of the immutable memtable come into view under everything else. */
  lemma SavesImmKeeps(s: Live, blockSize: nat)
    requires LiveInv(s) && CanTake(s) && AllStorable(s.imm.value.run) && |s.disk.levels| == ROWS
    ensures var t := SavesImm(s, blockSize);
      && LiveInv(t) && t.job == Shown(s.imm.value) && t.hist == s.hist && t.active == s.active && t.imm == s.imm
      && t.inflight == s.inflight && t.orphans == s.orphans
  {
    hide LiveInv;
    var t0 := Takes(s);
    TakeImmKeeps(s);
    if s.imm.value.run == [] {
      SkipEmptyKeeps(t0);
    } else {
      var t1 := Builds(t0, blockSize);
      BuildTableKeeps(t0, blockSize);
      ListTableKeeps(t1);
      ShowTableKeeps(Lists(t1));
    }
  }

  lemma FlushesImmKeeps(s: Live, full: bool, blockSize: nat)
    requires Resting(s) && AllStorable(ImmRun(s.imm)) && |s.disk.levels| == ROWS
    ensures var t := FlushesImm(s, full, blockSize);
      && Resting(t) && t.hist == s.hist
      && (if s.imm.Some? && full then t.imm == Some(s.active) && t.active.run == []
          else t.imm == None && t.active == s.active)
  {
    hide LiveInv, SavesImm;
    if s.imm.Some? {
      SavesImmKeeps(s, blockSize);
      var t1 := SavesImm(s, blockSize);
      DropImmKeeps(t1);
      var t2 := Drops(t1);
      if full {
        RotateKeeps(t2);
        RemoveLogKeeps(Rotates(t2));
      } else {
        RemoveLogKeeps(t2);
      }
    }
  }

  /** With the check that Flush leaves out, it keeps the invariant, so every lookup. */
  lemma GuardedFlushKeeps(s: Live, full: bool, blockSize: nat)
    requires Resting(s) && Saveable(s) && |s.disk.levels| == ROWS && !(s.imm.Some? && full)
    ensures var t := Flushes(s, full, blockSize); Resting(t) && t.hist == s.hist
  {
    hide LiveInv, FlushesImm;
    if !(s.active.run == [] && s.imm.None?) {
      FlushesImmKeeps(s, full, blockSize);
      var t1 := FlushesImm(s, full, blockSize);
      RotateKeeps(t1);
      RowsThere(t1);
      RowsThere(Rotates(t1));
      FlushesImmKeeps(Rotates(t1), false, blockSize);
    }
  }

  /** The memtable that Flush drops when its inner flush has rotated, in the terms of the state before. */
  ghost predicate ActiveRepeats(s: Live)
    requires ShotOk(s)
  {
    forall e :: e in s.active.run ==> Visible(Some(e)) == Visible(Or(Find(ImmRun(s.imm), e.key), ShotFind(s, e.key)))
  }

  /**
   Flush keeps every lookup exactly when it did not meet both an immutable memtable and a full active
   one, or when the active one only repeated what lies below it.
   */
  lemma FlushKeepsExactly(s: Live, full: bool, blockSize: nat)
    requires Resting(s) && Saveable(s)
    ensures |s.disk.levels| == ROWS && ShotOk(s) && ShotOk(Flushes(s, full, blockSize))
    ensures (forall key: Key :: Visible(Lookup(Flushes(s, full, blockSize), key)) == Visible(Lookup(s, key)))
      <==> !(s.imm.Some? && full) || ActiveRepeats(s)
  {
    hide LiveInv, Flushes, ShotOk, Lookup, ActiveRepeats, DiskOk;
    RowsThere(s);
    if s.imm.Some? && full {
      UnguardedFlush(s, blockSize);
    } else {
      GuardedFlushKeeps(s, full, blockSize);
      var t := Flushes(s, full, blockSize);
      RowsThere(t);
      SameHistory(s, t);
    }
  }

  lemma SameHistory(s: Live, t: Live)
    requires LiveInv(s) && LiveInv(t) && t.hist == s.hist
    ensures ShotOk(s) && ShotOk(t) && forall key: Key :: Visible(Lookup(t, key)) == Visible(Lookup(s, key))
  {
    hide LiveInv, Lookup, LevelsOk, DiskOk, FilesBounded;
    RowsThere(s);
    RowsThere(t);
    forall key: Key
      ensures Visible(Lookup(t, key)) == Visible(Lookup(s, key))
    {
      LookupIsLastWrite(s, key);
      LookupIsLastWrite(t, key);
    }
  }

  lemma UnguardedFlush(s: Live, blockSize: nat)
    requires Resting(s) && AllStorable(ImmRun(s.imm)) && |s.disk.levels| == ROWS && s.imm.Some? && ShotOk(s)
    ensures var t := Flushes(s, true, blockSize);
      && ShotOk(t)
      && ((forall key: Key :: Visible(Lookup(t, key)) == Visible(Lookup(s, key))) <==> ActiveRepeats(s))
  {
    hide LiveInv, FlushesImm, ShotOk, Lookup, NothingToLose, ActiveRepeats, DiskOk;
    var t1 := FlushesImm(s, true, blockSize);
    FlushesImmKeeps(s, true, blockSize);
    RowsThere(t1);
    SameHistory(s, t1);
    RotationKeepsExactly(t1);
    EmptyFlush(RotatesAnyway(t1), blockSize);
    LostIsActive(s, blockSize);
  }

  /** Flushing an empty immutable memtable changes no lookup. */
  lemma EmptyFlush(s: Live, blockSize: nat)
    requires s.job.Idle? && |s.disk.levels| == ROWS && s.inflight.None? && s.imm.Some? && s.imm.value.run == []
    requires ShotOk(s)
    ensures var t := FlushesImm(s, false, blockSize);
      ShotOk(t) && forall key: Key :: Lookup(t, key) == Lookup(s, key)
  {
    hide LevelsOk, DiskFind, Besides, FilesBounded;
  }

  lemma LostIsActive(s: Live, blockSize: nat)
    requires Resting(s) && AllStorable(ImmRun(s.imm)) && |s.disk.levels| == ROWS && s.imm.Some? && ShotOk(s)
    ensures var t := FlushesImm(s, true, blockSize);
      ShotOk(t) && (NothingToLose(s.active.run, [], t) <==> ActiveRepeats(s))
  {
    var t := FlushesImm(s, true, blockSize);
    hide LiveInv, FlushesImm, ShotOk, ShotFind;
    FlushesImmKeeps(s, true, blockSize);
    RowsThere(t);
    forall key: Key
      ensures ShotFind(t, key) == Or(Find(ImmRun(s.imm), key), ShotFind(s, key))
    {
      FlushedFind(s, true, blockSize, key);
    }
  }

  /** After the flush the tables show what the immutable memtable and the tables showed. */
  lemma FlushedFind(s: Live, full: bool, blockSize: nat, key: Key)
    requires Resting(s) && AllStorable(ImmRun(s.imm)) && |s.disk.levels| == ROWS && s.imm.Some? && ShotOk(s)
    requires ShotOk(FlushesImm(s, full, blockSize))
    ensures ShotFind(FlushesImm(s, full, blockSize), key) == Or(Find(ImmRun(s.imm), key), ShotFind(s, key))
  {
    hide LiveInv, ShotOk, SavesImm;
    SavesImmKeeps(s, blockSize);
    RowsThere(SavesImm(s, blockSize));
    SavedFind(s, blockSize, key);
    SameShot(SavesImm(s, blockSize), FlushesImm(s, full, blockSize), key);
  }

  lemma SavedFind(s: Live, blockSize: nat, key: Key)
    requires LiveInv(s) && CanTake(s) && AllStorable(s.imm.value.run) && |s.disk.levels| == ROWS && ShotOk(s)
    requires LiveInv(SavesImm(s, blockSize)) && ShotOk(SavesImm(s, blockSize))
    ensures ShotFind(SavesImm(s, blockSize), key) == Or(Find(ImmRun(s.imm), key), ShotFind(s, key))
  {
    hide LiveInv, ShotOk, ShotFind;
    var t0 := Takes(s);
    TakeImmKeeps(s);
    if s.imm.value.run != [] {
      var t1 := Builds(t0, blockSize);
      var t2 := Lists(t1);
      BuildTableKeeps(t0, blockSize);
      ListTableKeeps(t1);
      ShowTableKeeps(t2);
      RowsThere(t2);
      RowsThere(Shows(t2));
      ShownKept(t2, key);
      SameShot(s, t2, key);
    } else {
      SameShot(s, SavesImm(s, blockSize), key);
    }
  }

  // ----- Such a state is reached -----

  const FIRST := Entry([1], [10], 0, OP_PUT)
  const SECOND := Entry([2], [20], 0, OP_PUT)

  /** The engine opened on an empty directory. */
  function Empty(): Live {
    OpensFresh(Starts(EMPTY_DISK, [], []))
  }

  /** One write, rotated out and not yet flushed. */
  ghost function OneWrite(): Live {
    EndsWrite(BeginsWrite(Empty(), FIRST))
  }

  /** And another one behind it. */
  ghost function TwoWrites(): Live {
    EndsWrite(BeginsWrite(Rotates(OneWrite()), SECOND))
  }

  lemma {:induction false} OneMoreEnabled(s: State, evs: seq<Event>, ev: Event)
    requires AllEnabled(s, evs) && Enabled(Execute(s, evs), ev)
    ensures AllEnabled(s, evs + [ev]) && Execute(s, evs + [ev]) == Next(Execute(s, evs), ev)
    decreases |evs|
  {
    hide Enabled, Next;
    if evs == [] {
      assert [] + [ev] == [ev] && [ev][1..] == [];
      assert AllEnabled(Next(s, ev), []) && Execute(Next(s, ev), []) == Next(s, ev);
    } else {
      assert (evs + [ev])[1..] == evs[1..] + [ev];
      OneMoreEnabled(Next(s, evs[0]), evs[1..], ev);
    }
  }

  lemma ReachableNext(s: State, ev: Event)
    requires Reachable(s) && Enabled(s, ev)
    ensures Reachable(Next(s, ev))
  {
    hide Enabled, Next, Execute, AllEnabled;
    var evs :| AllEnabled(INITIAL, evs) && Execute(INITIAL, evs) == s;
    OneMoreEnabled(INITIAL, evs, ev);
  }

  lemma EmptyReached()
    ensures Reachable(Up(Empty()))
  {
    hide Loaded, Execute, Reachable;
    NothingToOrder(EMPTY_DISK);
    InitialReached();
    ReachableNext(INITIAL, Start([]));
    ReachableNext(Opening(Starts(EMPTY_DISK, [], [])), OpenFresh);
  }

  lemma InitialReached()
    ensures Reachable(INITIAL)
  {
    assert AllEnabled(INITIAL, []) && Execute(INITIAL, []) == INITIAL;
  }

  lemma NothingToOrder(disk: Disk)
    requires disk.logs == []
    ensures CanStart(disk, [])
  {
  }

  lemma WriteReached(s: Live, e: Entry)
    requires Reachable(Up(s)) && CanBeginWrite(s, e) && s.disk.logs != []
    ensures Reachable(Up(EndsWrite(BeginsWrite(s, e))))
  {
    hide Reachable, EndsWrite;
    ReachableNext(Up(s), BeginWrite(e));
    ReachableNext(Up(BeginsWrite(s, e)), EndWrite);
  }

  lemma RotationReached(s: Live)
    requires Reachable(Up(s)) && CanRotate(s)
    ensures Reachable(Up(Rotates(s)))
  {
    hide Reachable, Rotates;
    ReachableNext(Up(s), Rotate);
  }

  /** The engine between jobs, with these memtables and no table. */
  ghost predicate Holds(s: Live, active: Mem, imm: Option<Mem>, nextId: nat) {
    && s.active == active && s.imm == imm && s.disk.nextId == nextId
    && s.shot.levels == EMPTY_DISK.levels && s.job.Idle? && s.inflight.None?
  }

  lemma EmptyIs()
    ensures Holds(Empty(), Mem(1, []), None, 2)
  {
    hide Loaded;
  }

  lemma WriteIs(s: Live, e: Entry, active: Mem, imm: Option<Mem>, nextId: nat)
    requires Holds(s, active, imm, nextId) && CanBeginWrite(s, e) && s.disk.logs != []
    ensures Holds(EndsWrite(BeginsWrite(s, e)), active.(run := Put(active.run, e)), imm, nextId)
    ensures EndsWrite(BeginsWrite(s, e)).hist == s.hist + [e] && EndsWrite(BeginsWrite(s, e)).disk.logs != []
  {
    hide Frame, WithContent, LastContent, Put, GivesBack;
  }

  lemma OneWriteIs()
    ensures Holds(OneWrite(), Mem(1, [FIRST]), None, 2) && OneWrite().disk.logs != [] && OneWrite().hist == [FIRST]
    ensures Reachable(Up(OneWrite()))
  {
    EmptyIs();
    EmptyReached();
    assert Empty().disk.logs != [] && Empty().hist == [] && Put([], FIRST) == [FIRST];
    hide Empty, Put, EndsWrite, BeginsWrite, Reachable;
    WriteIs(Empty(), FIRST, Mem(1, []), None, 2);
    WriteReached(Empty(), FIRST);
  }

  lemma TwoWritesIs()
    ensures Holds(TwoWrites(), Mem(2, [SECOND]), Some(Mem(1, [FIRST])), 3) && TwoWrites().disk.logs != []
    ensures Reachable(Up(TwoWrites()))
  {
    OneWriteIs();
    assert Put([], SECOND) == [SECOND];
    hide OneWrite, Put, EndsWrite, BeginsWrite, Reachable;
    RotationReached(OneWrite());
    WriteIs(Rotates(OneWrite()), SECOND, Mem(2, []), Some(Mem(1, [FIRST])), 3);
    WriteReached(Rotates(OneWrite()), SECOND);
  }

  lemma TwoWritesResting()
    ensures Resting(TwoWrites()) && Saveable(TwoWrites()) && |TwoWrites().disk.levels| == ROWS && ShotOk(TwoWrites())
  {
    hide LiveInv, TwoWrites, Reachable, ShotOk;
    TwoWritesIs();
    assert FIRST.Storable() && SECOND.Storable();
    ReachableInv(Up(TwoWrites()));
    UpKeeps(TwoWrites());
    RowsThere(TwoWrites());
  }

  /**
   A full second memtable and a flush: the first memtable is saved, the second is dropped unsaved, and
   its write can no longer be read.
   */
  lemma {:induction false} FlushLosesAWrite(blockSize: nat) returns (s: Live, key: Key)
    ensures Reachable(Up(s)) && Resting(s) && |s.disk.levels| == ROWS && ShotOk(s)
    ensures ShotOk(Flushes(s, true, blockSize))
    ensures Visible(Lookup(Flushes(s, true, blockSize), key)) != Visible(Lookup(s, key))
  {
    s := TwoWrites();
    hide LiveInv, Flushes, LevelsOk, FilesBounded, Lookup, DiskOk, TwoWrites, ShotFind, Reachable;
    TwoWritesIs();
    TwoWritesResting();
    FlushKeepsExactly(s, true, blockSize);
    NothingOnDisk(s, SECOND.key);
    assert SECOND in s.active.run && Find([FIRST], SECOND.key) == Find([], SECOND.key) == None;
    key :| Visible(Lookup(Flushes(s, true, blockSize), key)) != Visible(Lookup(s, key));
  }

  lemma NothingOnDisk(s: Live, key: Key)
    requires ShotOk(s) && s.shot.levels == EMPTY_DISK.levels
    ensures ShotFind(s, key).None?
  {
    hide AllListed, DistinctIds, DisjointLevels, FilesBounded;
    NothingDeeper(s.shot.levels, s.shot.readers, 1, key);
  }

  // ----- Overtaken in the gap -----

  const THIRD := Entry([3], [30], 0, OP_PUT)
  const FOURTH := Entry([4], [40], 0, OP_PUT)

  lemma OneMoreStep(ss: seq<Live>, evs: seq<Event>, ev: Event, t: Live)
    requires Trace(ss, evs) && LiveEnabled(ss[|evs|], ev) && LiveNext(ss[|evs|], ev) == Up(t)
    ensures Trace(ss + [t], evs + [ev])
  {
    hide LiveEnabled, LiveNext;
  }

  lemma TraceStart(s: Live)
    ensures Trace([s], [])
  {
  }

  lemma TraceLength(ss: seq<Live>, evs: seq<Event>)
    requires Trace(ss, evs)
    ensures |ss| == |evs| + 1
  {
    hide LiveEnabled, LiveNext;
  }

  /** One more step, its last state by name. */
  lemma Extended(ss: seq<Live>, evs: seq<Event>, ev: Event, t: Live) returns (ss': seq<Live>, evs': seq<Event>)
    requires Trace(ss, evs) && LiveEnabled(ss[|evs|], ev) && LiveNext(ss[|evs|], ev) == Up(t)
    ensures evs' == evs + [ev] && Trace(ss', evs') && |ss'| == |evs'| + 1 && ss'[0] == ss[0] && ss'[|evs'|] == t
  {
    hide LiveEnabled, LiveNext, Trace;
    TraceLength(ss, evs);
    OneMoreStep(ss, evs, ev, t);
    ss', evs' := ss + [t], evs + [ev];
  }

  /** The flush up to the showing of its table. */
  lemma SaveTrace(ss: seq<Live>, evs: seq<Event>, blockSize: nat) returns (ss': seq<Live>, evs': seq<Event>)
    requires Trace(ss, evs) && Savable(ss[|evs|])
    ensures evs' == evs + [TakeImm, BuildTable(blockSize), ListTable, ShowTable] && Trace(ss', evs')
    ensures |ss'| == |evs'| + 1 && ss'[0] == ss[0] && ss'[|evs'|] == SavesImm(ss[|evs|], blockSize)
  {
    hide Trace, Takes, Builds, Lists, Shows, SavesImm, Savable, LiveEnabled, LiveNext;
    TraceLength(ss, evs);
    var t0, t1, t2, t3 := SaveStates(ss[|evs|], blockSize);
    ss', evs' := Extended(ss, evs, TakeImm, t0);
    ss', evs' := Extended(ss', evs', BuildTable(blockSize), t1);
    ss', evs' := Extended(ss', evs', ListTable, t2);
    ss', evs' := Extended(ss', evs', ShowTable, t3);
  }

  /** There is something to flush, and a table gives it back. */
  ghost predicate Savable(s: Live) {
    Resting(s) && |s.disk.levels| == ROWS && s.imm.Some? && s.imm.value.run != [] && AllStorable(s.imm.value.run)
  }

  lemma SaveStates(s: Live, blockSize: nat) returns (t0: Live, t1: Live, t2: Live, t3: Live)
    requires Savable(s)
    ensures LiveEnabled(s, TakeImm) && LiveNext(s, TakeImm) == Up(t0)
    ensures LiveEnabled(t0, BuildTable(blockSize)) && LiveNext(t0, BuildTable(blockSize)) == Up(t1)
    ensures LiveEnabled(t1, ListTable) && LiveNext(t1, ListTable) == Up(t2)
    ensures LiveEnabled(t2, ShowTable) && LiveNext(t2, ShowTable) == Up(t3) && t3 == SavesImm(s, blockSize)
  {
    hide LiveInv, Pushed;
    t0 := Takes(s);
    t1 := Builds(t0, blockSize);
    t2 := Lists(t1);
    t3 := Shows(t2);
  }

  /** The steps of flushImmutable when the active memtable is not full. */
  lemma FlushTrace(ss: seq<Live>, evs: seq<Event>, blockSize: nat) returns (ss': seq<Live>, evs': seq<Event>)
    requires Trace(ss, evs) && Savable(ss[|evs|])
    ensures evs' == evs + [TakeImm, BuildTable(blockSize), ListTable, ShowTable, DropImm, RemoveLog] && Trace(ss', evs')
    ensures |ss'| == |evs'| + 1 && ss'[0] == ss[0] && ss'[|evs'|] == FlushesImm(ss[|evs|], false, blockSize)
  {
    hide Trace, Drops, RemovesLog, SavesImm, LiveEnabled, LiveNext, LiveInv;
    TraceLength(ss, evs);
    var t, u := FlushStates(ss[|evs|], blockSize);
    ss', evs' := SaveTrace(ss, evs, blockSize);
    ss', evs' := Extended(ss', evs', DropImm, t);
    ss', evs' := Extended(ss', evs', RemoveLog, u);
  }

  lemma FlushStates(s: Live, blockSize: nat) returns (t: Live, u: Live)
    requires Savable(s)
    ensures LiveEnabled(SavesImm(s, blockSize), DropImm) && LiveNext(SavesImm(s, blockSize), DropImm) == Up(t)
    ensures LiveEnabled(t, RemoveLog) && LiveNext(t, RemoveLog) == Up(u) && u == FlushesImm(s, false, blockSize)
  {
    hide LiveInv, SavesImm, Besides;
    SavesImmKeeps(s, blockSize);
    t := Drops(SavesImm(s, blockSize));
    u := RemovesLog(t);
  }

  lemma WriteTrace(ss: seq<Live>, evs: seq<Event>, e: Entry) returns (ss': seq<Live>, evs': seq<Event>)
    requires Trace(ss, evs) && CanBeginWrite(ss[|evs|], e) && ss[|evs|].disk.logs != []
    ensures evs' == evs + [BeginWrite(e), EndWrite] && Trace(ss', evs')
    ensures |ss'| == |evs'| + 1 && ss'[0] == ss[0] && ss'[|evs'|] == EndsWrite(BeginsWrite(ss[|evs|], e))
  {
    hide Trace, TornDisk, GivesBack;
    TraceLength(ss, evs);
    var t := BeginsWrite(ss[|evs|], e);
    ss', evs' := Extended(ss, evs, BeginWrite(e), t);
    ss', evs' := Extended(ss', evs', EndWrite, EndsWrite(t));
  }

  /** A put that fills the memtable, and its rotation, which is guarded. */
  lemma PutTrace(ss: seq<Live>, evs: seq<Event>, e: Entry) returns (ss': seq<Live>, evs': seq<Event>)
    requires Trace(ss, evs) && CanBeginWrite(ss[|evs|], e) && ss[|evs|].imm.None? && ss[|evs|].disk.logs != []
    ensures evs' == evs + [BeginWrite(e), EndWrite, Rotate] && Trace(ss', evs')
    ensures |ss'| == |evs'| + 1 && ss'[0] == ss[0] && ss'[|evs'|] == Rotates(EndsWrite(BeginsWrite(ss[|evs|], e)))
  {
    hide Trace, TornDisk, GivesBack;
    ss', evs' := WriteTrace(ss, evs, e);
    var t := ss'[|evs'|];
    ss', evs' := Extended(ss', evs', Rotate, Rotates(t));
  }

  /** What a put, and a put with a rotation behind it, make of the engine. */
  lemma AfterPut(t: Live, e: Entry)
    requires t.inflight.None? && t.disk.logs != [] && e.key != []
    ensures var r := EndsWrite(BeginsWrite(t, e));
      && r.active == t.active.(run := Put(t.active.run, e)) && r.imm == t.imm && r.shot == t.shot
      && r.inflight.None? && r.job == t.job && r.disk.logs != [] && r.disk.nextId == t.disk.nextId
      && r.hist == t.hist + [e]
  {
    hide GivesBack, Put, Frame, LastContent;
  }

  lemma LiveLogs(s: Live)
    requires LiveInv(s)
    ensures s.disk.logs != []
  {
    hide DiskOk, ShotOk, Refines, MemsOk, JobOk, LogsAre;
  }

  lemma GapInv(ss: seq<Live>, evs: seq<Event>)
    requires Trace(ss, evs) && ss[0] == TwoWrites()
    ensures LiveInv(ss[|evs|])
  {
    hide LiveInv, TwoWrites, LiveEnabled, LiveNext;
    TwoWritesResting();
    InvAlong(ss, evs, |evs|);
  }

  /** The key is not in the tables. */
  ghost predicate Unsaved(s: Live, key: Key) {
    ShotOk(s) && ShotFind(s, key).None?
  }

  /**
   From two writes, one of them rotated out: the first is flushed, then a put in the gap fills the memtable and
   rotates it.
   */
  lemma PutInTheGap(blockSize: nat) returns (ss: seq<Live>, evs: seq<Event>)
    ensures evs == [TakeImm, BuildTable(blockSize), ListTable, ShowTable, DropImm, RemoveLog]
      + [BeginWrite(THIRD), EndWrite, Rotate]
    ensures Trace(ss, evs) && |ss| == |evs| + 1 && ss[0] == TwoWrites() && Savable(ss[|evs|])
    ensures var s := ss[|evs|];
      s.imm.value.run == [SECOND, THIRD] && s.active.run == [] && Unsaved(s, SECOND.key) && Unsaved(s, FOURTH.key)
  {
    hide LiveInv, LiveEnabled, LiveNext, Trace, FlushesImm, TwoWrites, EndsWrite, BeginsWrite, ShotOk, ShotFind,
         Reachable, Put;
    var s := TwoWrites();
    TwoWritesIs();
    TwoWritesResting();
    TraceStart(s);
    ss, evs := FlushTrace([s], [], blockSize);
    var t := FlushesImm(s, false, blockSize);
    FlushesImmKeeps(s, false, blockSize);
    RowsThere(t);
    LiveLogs(t);
    FirstAlone();
    NothingOnDisk(s, SECOND.key);
    NothingOnDisk(s, FOURTH.key);
    FlushedFind(s, false, blockSize, SECOND.key);
    FlushedFind(s, false, blockSize, FOURTH.key);
    AfterPut(t, THIRD);
    ss, evs := PutTrace(ss, evs, THIRD);
    GapInv(ss, evs);
    RowsThere(ss[|evs|]);
    SameShot(t, ss[|evs|], SECOND.key);
    SameShot(t, ss[|evs|], FOURTH.key);
  }

  lemma FirstAlone()
    ensures Find([FIRST], SECOND.key) == None && Find([FIRST], FOURTH.key) == None
    ensures Put([SECOND], THIRD) == [SECOND, THIRD] && AllStorable([SECOND, THIRD]) && AllStorable([FIRST])
    ensures Find([SECOND, THIRD], FOURTH.key) == None && Put([], FOURTH) == [FOURTH]
  {
    assert [FIRST][1..] == [] && [SECOND][1..] == [] && [SECOND, THIRD][1..] == [THIRD] && [THIRD][1..] == [];
    assert Put([SECOND], THIRD) == [SECOND] + Put([], THIRD);
  }

  /**
   The inner flush does not rotate, but in the gap a put fills the memtable and rotates it: Flush then drops
   it, and its writes can no longer be read.
   */
  lemma OvertakenFlushLosesAWrite(blockSize: nat) returns (ss: seq<Live>, evs: seq<Event>)
    ensures Trace(ss, evs) && Reachable(Up(ss[0])) && ss[0].imm.Some? && ss[|evs|].inflight.None? && ss[|evs|].job.Idle?
    ensures evs == [TakeImm, BuildTable(blockSize), ListTable, ShowTable, DropImm, RemoveLog]
      + [BeginWrite(THIRD), EndWrite, Rotate]
    ensures !Right(RotatesAnyway(ss[|evs|]))
  {
    hide LiveInv, Trace, TwoWrites, Reachable, ShotOk, ShotFind, Right;
    TwoWritesIs();
    ss, evs := PutInTheGap(blockSize);
    var s := ss[|evs|];
    assert SECOND in [SECOND, THIRD];
    assert !NothingToLose(s.imm.value.run, s.active.run, s);
    WrongAtOnce(s);
  }

  /**
   Or another flush takes what that put rotated out, and has shown it when Flush rotates over it: nothing is
   lost by that, but the flush then clears the memtable that Flush has just rotated out, with its last write.
   */
  lemma FlushInProgressLosesAWrite(blockSize: nat) returns (ss: seq<Live>, evs: seq<Event>)
    ensures Trace(ss, evs) && Reachable(Up(ss[0])) && ss[0].imm.Some?
    ensures evs == [TakeImm, BuildTable(blockSize), ListTable, ShowTable, DropImm, RemoveLog]
      + [BeginWrite(THIRD), EndWrite, Rotate]
      + [TakeImm, BuildTable(blockSize), ListTable, ShowTable, BeginWrite(FOURTH), EndWrite]
    ensures var s := ss[|evs|];
      && s.inflight.None? && s.job.Shown? && ShotOk(s) && NothingToLose(ImmRun(s.imm), s.active.run, s)
      && Right(RotatesAnyway(s)) && CanDrop(RotatesAnyway(s)) && !Right(Drops(RotatesAnyway(s)))
  {
    hide LiveInv, Trace, TwoWrites, Reachable, ShotOk, ShotFind, Right, SavesImm, LiveEnabled, LiveNext, EndsWrite,
         BeginsWrite, NothingToLose, Put;
    TwoWritesIs();
    TwoWritesResting();
    ss, evs := PutInTheGap(blockSize);
    var t := ss[|evs|];
    ss, evs := SaveTrace(ss, evs, blockSize);
    var u := SavesImm(t, blockSize);
    SavesImmKeeps(t, blockSize);
    RowsThere(u);
    LiveLogs(u);
    FirstAlone();
    SavedFind(t, blockSize, FOURTH.key);
    AfterPut(u, FOURTH);
    ss, evs := WriteTrace(ss, evs, FOURTH);
    GapInv(ss, evs);
    var s := ss[|evs|];
    DropAfterRotation(s);
    SameShot(u, s, FOURTH.key);
    ShownIsAll(s, FOURTH.key);
    assert FOURTH in s.active.run;
  }
}
