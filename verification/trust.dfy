/**
 When recovery gives back every log in full: as long as only entries that recovery accepts are written, and
 no crash leaves a torn frame of the kind that recovery keeps.
 */
module Trust {
  import opened Bytes
  import opened Entries
  import opened Wal
  import opened Storage
  import opened DiskSteps
  import opened Machine
  import opened MachineSteps
  import opened Safety

  /** Recovery turns the log into one of whole frames. */
  ghost predicate Sound(content: seq<byte>) {
    Good(Replay(content)) && Recovered(content) == Frames(Replay(content))
  }

  ghost predicate AllSound(logs: seq<Log>) {
    forall i :: 0 <= i < |logs| ==> Sound(logs[i].content)
  }

  ghost predicate AllClean(logs: seq<Log>) {
    forall i :: 0 <= i < |logs| ==> Clean(logs[i].content)
  }

  /** No log is leaky, nor about to be, and none is an orphan. */
  ghost predicate Plain(s: State) {
    match s
    case Up(live) =>
      && live.leaky == {} && live.orphans == {} && AllClean(live.disk.logs)
      && (live.inflight.Some? ==> Loggable(live.inflight.value) && live.inflight.value.key != [])
    case Opening(rec) => AllSound(rec.disk.logs)
    case Down(disk, _) => AllSound(disk.logs)
  }

  /** The torn frame that a crash leaves is of the kind that recovery keeps. */
  ghost predicate LeavesKept(s: Live, written: nat) {
    && s.inflight.Some? && s.disk.logs != [] && written < |Frame(s.inflight.value)|
    && KeptTorn(Replay(LastContent(s.disk)), Frame(s.inflight.value)[..written], s.inflight.value)
  }

  /** A write that recovery accepts, a crash that leaves nothing it keeps, no unguarded rotation, or another step. */
  ghost predicate Careful(s: State, ev: Event) {
    match ev
    case RotateAnyway => false
    case BeginWrite(e) => Loggable(e)
    case Crash(written) => s.Up? ==> !LeavesKept(s.live, written)
    case _ => true
  }

  lemma CleanIsSound(content: seq<byte>)
    requires Clean(content)
    ensures Sound(content)
  {
    hide Frame, Frames, Acceptable, Replay, ValidLength, ReportOf, Recovered, KeptTorn, Loggable;
    var e := Entry([1], [], 0, OP_PUT);
    GoodIsLoggable(Replay(content));
    assert Torn([], e) by { assert Frame(e)[..0] == []; }
    NotKept(Replay(content), e);
    TornTailRecovery(Replay(content), [], e);
    assert Frames(Replay(content)) + [] == Frames(Replay(content));
  }

  lemma NotKept(es: seq<Entry>, e: Entry)
    ensures !KeptTorn(es, [], e)
  {
  }

  lemma RecoveredIsClean(content: seq<byte>)
    requires Sound(content)
    ensures Clean(Recovered(content)) && Sound(Recovered(content))
  {
    hide Recovered, Replay, Frames, Good;
    RecoveryIsIdempotent(content);
    CleanIsSound(Recovered(content));
  }

  lemma TornIsSound(content: seq<byte>, e: Entry, written: nat)
    requires Clean(content) && Loggable(e) && e.key != [] && written <= |Frame(e)|
    requires written < |Frame(e)| ==> !KeptTorn(Replay(content), Frame(e)[..written], e)
    ensures Sound(content + Frame(e)[..written])
  {
    hide Frame, Frames, Acceptable, Replay, ValidLength, ReportOf, Recovered, KeptTorn;
    if written == |Frame(e)| {
      assert Frame(e)[..written] == Frame(e);
      AppendFrame(content, e);
      CleanIsSound(content + Frame(e));
    } else {
      GoodIsLoggable(Replay(content));
      assert Torn(Frame(e)[..written], e);
      TornTailRecovery(Replay(content), Frame(e)[..written], e);
    }
  }

  // ----- Steps -----

  lemma EndWritePlain(s: Live)
    requires LogsHold(s) && CanEndWrite(s) && Plain(Up(s))
    ensures Plain(Up(EndsWrite(s)))
  {
    hide LogsHold, Clean, Loggable, Frame, EndsWrite, WithContent;
    var content, e := LastContent(s.disk), s.inflight.value;
    LastClean(s.disk);
    AppendFrame(content, e);
    EndedIs(s);
    EndedPlain(s);
    OthersClean(s.disk.logs, |s.disk.logs| - 1, content + Frame(e));
  }

  lemma LastClean(disk: Disk)
    requires AllClean(disk.logs) && disk.logs != []
    ensures Clean(LastContent(disk))
  {
    hide Clean;
  }

  lemma EndedPlain(s: Live)
    requires CanEndWrite(s) && s.leaky == {} && GivesBack(LastContent(s.disk), s.inflight.value)
    ensures EndsWrite(s).leaky == {} && EndsWrite(s).inflight.None?
  {
    hide GivesBack, Frame, WithContent, LastContent, Upsert.Put;
  }

  lemma OthersClean(logs: seq<Log>, i: nat, content: seq<byte>)
    requires AllClean(logs) && i < |logs| && Clean(content)
    ensures AllClean(WithContent(logs, i, content))
  {
    hide Clean;
  }

  lemma OthersSound(logs: seq<Log>, i: nat, content: seq<byte>)
    requires AllSound(logs) && i < |logs| && Sound(content)
    ensures AllSound(WithContent(logs, i, content))
  {
    hide Sound;
  }

  lemma AllCleanSound(logs: seq<Log>)
    requires AllClean(logs)
    ensures AllSound(logs)
  {
    hide Clean, Sound;
    forall i | 0 <= i < |logs|
      ensures Sound(logs[i].content)
    {
      CleanIsSound(logs[i].content);
    }
  }

  lemma CrashPlain(s: Live, written: nat)
    requires LiveInv(s) && CanCrash(s, written) && Plain(Up(s)) && !LeavesKept(s, written)
    ensures Plain(Down(DiskLeft(s, written), HistoryLeft(s, written)))
  {
    hide LiveInv, Clean, Sound, Frame, Loggable, KeptTorn, Good;
    AllCleanSound(s.disk.logs);
    if s.inflight.Some? {
      var e := s.inflight.value;
      assert Clean(LastContent(s.disk));
      TornIsSound(LastContent(s.disk), e, written);
      OthersSound(s.disk.logs, |s.disk.logs| - 1, LastContent(s.disk) + Frame(e)[..written]);
    }
  }

  lemma {:induction false} BesidesClean(logs: seq<Log>, ids: set<nat>)
    requires AllClean(logs)
    ensures AllClean(Besides(logs, ids))
  {
    hide Clean;
    if logs != [] {
      BesidesClean(logs[1..], ids);
    }
  }

  /** With no orphan a flush drops the memtable it took. */
  lemma DropPlain(s: Live)
    requires LiveInv(s) && CanDrop(s) && Plain(Up(s))
    ensures Plain(Up(Drops(s)))
  {
    LiveParts(s);
    JobTaken(s);
    TakenIds(s);
    hide LiveInv, AllClean, Loggable, TakenOk;
    assert ImmId(s.imm) - {s.job.mem.id} == {};
  }

  lemma LiveStepPlain(s: Live, ev: Event)
    requires LiveInv(s) && LiveEnabled(s, ev) && Plain(Up(s)) && Careful(Up(s), ev)
    ensures Plain(LiveNext(s, ev))
  {
    hide LiveInv, DiskOk, ShotOk, LogsHold, JobOk, Clean, Sound, CanCompact, EndsWrite, DiskLeft, HistoryLeft,
         CompactedLevels, Loggable, LeavesKept, Trusted, SafeToRotate;
    match ev
    case EndWrite =>
      LiveParts(s);
      EndWritePlain(s);
    case Rotate => EmptyLog();
    case DropImm => DropPlain(s);
    case RemoveLog => BesidesClean(s.disk.logs, {s.job.log});
    case Crash(written) => CrashPlain(s, written);
    case _ =>
  }

  lemma RecoveryStepPlain(s: Recovery, ev: Event)
    requires RecoveryInv(s) && RecoveryEnabled(s, ev) && Plain(Opening(s))
    ensures Plain(RecoveryNext(s, ev))
  {
    hide RecoveryInv, Clean, Sound, Replay, Upsert.PutAll, Recovered, Loaded;
    match ev
    case ReplayOldest =>
      RecoveredIsClean(s.disk.logs[0].content);
      OthersSound(s.disk.logs, 0, Recovered(s.disk.logs[0].content));
    case OpenLast => RecoveredIsClean(s.disk.logs[0].content);
    case OpenFresh => EmptyLog();
    case _ =>
  }

  lemma StartPlain(disk: Disk, hist: seq<Entry>, order: seq<Log>)
    requires AllSound(disk.logs) && CanStart(disk, order)
    ensures Plain(Opening(Starts(disk, hist, order)))
  {
    hide Sound, ByName;
    forall i | 0 <= i < |order|
      ensures Sound(order[i].content)
    {
      assert order[i] in multiset(disk.logs);
    }
  }

  lemma StepPlain(s: State, ev: Event)
    requires Inv(s) && Enabled(s, ev) && Plain(s) && Careful(s, ev)
    ensures Plain(Next(s, ev))
  {
    hide LiveInv, RecoveryInv, DownInv, LiveEnabled, LiveNext, RecoveryEnabled, RecoveryNext, CanStart, AllSound,
         AllClean;
    match s
    case Up(live) => LiveStepPlain(live, ev);
    case Opening(rec) => RecoveryStepPlain(rec, ev);
    case Down(disk, hist) => StartPlain(disk, hist, ev.order);
  }

  ghost predicate AllCareful(s: State, evs: seq<Event>)
    requires AllEnabled(s, evs)
    decreases |evs|
  {
    evs == [] || (Careful(s, evs[0]) && AllCareful(Next(s, evs[0]), evs[1..]))
  }

  lemma {:induction false} PlainAlong(s: State, evs: seq<Event>)
    requires Inv(s) && Plain(s) && AllEnabled(s, evs) && AllCareful(s, evs)
    ensures Inv(Execute(s, evs)) && Plain(Execute(s, evs))
    decreases |evs|
  {
    hide Inv, Plain, Enabled, Next, Careful;
    if evs != [] {
      StepKeeps(s, evs[0]);
      StepPlain(s, evs[0]);
      PlainAlong(Next(s, evs[0]), evs[1..]);
    }
  }

  lemma InitialPlain()
    ensures Inv(INITIAL) && Plain(INITIAL)
  {
    InitialInv();
  }

  /** Any part of the frame in flight, or nothing. */
  predicate PartOfFrame(s: Live, written: nat) {
    if s.inflight.Some? then written <= |Frame(s.inflight.value)| else written == 0
  }

  /**
   Along any run from an empty directory whose writes recovery accepts, whose crashes leave no torn frame that it
   keeps and which never rotates over an immutable memtable, recovery gives back every log in full; so at any point
   of the run at which the logs' names are in order, every crash is one that the crash theorems cover.
   */
  lemma CarefulRunsGiveBack(evs: seq<Event>)
    requires AllEnabled(INITIAL, evs) && AllCareful(INITIAL, evs)
    ensures var t := Execute(INITIAL, evs);
      && GivesBackAll(t)
      && (t.Up? && ByName(t.live.disk.logs) ==> forall written: nat :: PartOfFrame(t.live, written) ==>
        CanCrash(t.live, written))
  {
    hide Inv, Plain, AllEnabled, AllCareful, Execute, GivesBackAll, CanCrash, PartOfFrame, ByName;
    InitialPlain();
    PlainAlong(INITIAL, evs);
    var t := Execute(INITIAL, evs);
    PlainGivesBack(t);
    if t.Up? && ByName(t.live.disk.logs) {
      UpKeeps(t.live);
      forall written: nat | PartOfFrame(t.live, written)
        ensures CanCrash(t.live, written)
      {
        CrashCovered(t.live, written);
      }
    }
  }

  lemma PlainGivesBack(s: State)
    requires Plain(s)
    ensures GivesBackAll(s)
  {
    hide AllClean, AllSound, Loggable;
  }

  lemma CrashCovered(s: Live, written: nat)
    requires LiveInv(s) && Plain(Up(s)) && ByName(s.disk.logs) && PartOfFrame(s, written)
    ensures CanCrash(s, written)
  {
    LiveParts(s);
    LogsCount(s);
    hide LiveInv, DiskOk, ShotOk, LogsHold, JobOk, Refines, MemsOk, Clean, Frame, Loggable, ByName;
    LastClean(s.disk);
  }
}
