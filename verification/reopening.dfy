/**
 Crashing and opening again, end to end: what a crash leaves on disk, that recovery can always go on from
 there to an open engine, and what that engine answers (pkg/lsm/engine.go, `Open`).
 */
module Reopening {
  import opened Bytes
  import opened Entries
  import opened Upsert
  import opened Levels
  import opened Wal
  import opened Storage
  import opened Machine
  import opened MachineRecovery
  import opened Safety
  import opened Trust

  /** The disk as it was, but for the first bytes of the frame in flight at the end of the last log. */
  ghost predicate LeftBy(s: Live, written: nat, disk: Disk) {
    && disk.levels == s.disk.levels && disk.files == s.disk.files && disk.nextId == s.disk.nextId
    && if s.inflight.None? then disk.logs == s.disk.logs
       else
         && s.disk.logs != [] && written <= |Frame(s.inflight.value)|
         && var last := |s.disk.logs| - 1;
            && |disk.logs| == last + 1 && disk.logs[..last] == s.disk.logs[..last]
            && disk.logs[last].id == s.disk.logs[last].id
            && disk.logs[last].content == s.disk.logs[last].content + Frame(s.inflight.value)[..written]
  }

  lemma CrashLeaves(s: Live, written: nat)
    requires CanCrash(s, written)
    ensures LeftBy(s, written, DiskLeft(s, written))
  {
    hide ByName, Trusted, Clean, Frame;
  }

  /** From any disk that holds a map, some steps open the engine. */
  lemma DownOpens(disk: Disk, hist: seq<Entry>) returns (evs: seq<Event>)
    requires DownInv(disk, hist)
    ensures Opens(Down(disk, hist), evs)
  {
    hide DownInv, RecoveryInv, Opens, Represents, DiskOk, AllGood, ByName;
    Ordered(disk, hist);
    StartKeeps(disk, hist, disk.logs);
    var rest := RecoveryCompletes(Starts(disk, hist, disk.logs));
    OpensAfter(Down(disk, hist), Start(disk.logs), rest);
    evs := [Start(disk.logs)] + rest;
  }

  lemma Ordered(disk: Disk, hist: seq<Entry>)
    requires DownInv(disk, hist)
    ensures CanStart(disk, disk.logs)
  {
    hide DiskOk, Represents, AllGood;
  }

  /** Recovery may crash at any of its steps, which leaves its disk as it is, and can then start over. */
  lemma RecoveryCrashes(s: Recovery, written: nat) returns (evs: seq<Event>)
    requires RecoveryInv(s)
    ensures Enabled(Opening(s), Crash(written)) && Next(Opening(s), Crash(written)) == Down(s.disk, s.hist)
    ensures Opens(Down(s.disk, s.hist), evs)
  {
    hide Opens;
    evs := DownOpens(s.disk, s.hist);
  }

  /** The acknowledged writes, and the one in flight when its frame is on disk in full. */
  function Durable(s: Live, written: nat): seq<Entry> {
    if s.inflight.Some? && written == |Frame(s.inflight.value)| then s.hist + [s.inflight.value] else s.hist
  }

  /**
   At any point of a careful run at which the logs' names are in order, the process may be killed with any part
   of the frame in flight on disk; some steps then open the engine, and whichever do, it answers every lookup
   with the last durable write.
   */
  lemma CrashAndReopen(evs: seq<Event>, written: nat) returns (after: seq<Event>)
    requires AllEnabled(INITIAL, evs) && AllCareful(INITIAL, evs) && Execute(INITIAL, evs).Up?
    requires var s := Execute(INITIAL, evs).live; ByName(s.disk.logs) && PartOfFrame(s, written)
    ensures var s := Execute(INITIAL, evs).live;
      && Enabled(Up(s), Crash(written)) && Next(Up(s), Crash(written)).Down?
      && LeftBy(s, written, Next(Up(s), Crash(written)).disk) && Opens(Next(Up(s), Crash(written)), after)
    ensures var s := Execute(INITIAL, evs).live;
      forall more :: Opens(Next(Up(s), Crash(written)), more) ==>
        Answers(Execute(Next(Up(s), Crash(written)), more).live, Durable(s, written))
  {
    hide Inv, Execute, AllEnabled, AllCareful, StaysDown, Answers, LeftBy, Durable, Plain, CanCrash, PartOfFrame,
         ByName, Reachable, GivesBackAll, LiveNext;
    var s := Execute(INITIAL, evs).live;
    InitialPlain();
    PlainAlong(INITIAL, evs);
    CarefulRunsGiveBack(evs);
    CrashesTo(s, written);
    after := DownOpens(DiskLeft(s, written), HistoryLeft(s, written));
    forall more | Opens(Next(Up(s), Crash(written)), more)
      ensures Answers(Execute(Next(Up(s), Crash(written)), more).live, Durable(s, written))
    {
      ReopenedAnswers(s, written, more);
    }
  }

  /** Every lookup gives the last of these writes. */
  ghost predicate Answers(s: Live, hist: seq<Entry>) {
    && LevelsOk(s.shot.levels, s.shot.readers)
    && forall key: Key :: Visible(Lookup(s, key)) == Visible(LastOf(hist, key))
  }

  lemma CrashesTo(s: Live, written: nat)
    requires Inv(Up(s)) && CanCrash(s, written)
    ensures Enabled(Up(s), Crash(written))
    ensures Next(Up(s), Crash(written)) == Down(DiskLeft(s, written), HistoryLeft(s, written))
    ensures LeftBy(s, written, DiskLeft(s, written))
    ensures DownInv(DiskLeft(s, written), HistoryLeft(s, written))
  {
    hide LiveInv, CanCrash, DiskLeft, HistoryLeft, LeftBy, DownInv;
    CrashLeaves(s, written);
    CrashKeeps(s, written);
  }

  lemma ReopenedAnswers(s: Live, written: nat, more: seq<Event>)
    requires Inv(Up(s)) && Plain(Up(s)) && CanCrash(s, written)
    requires Opens(Down(DiskLeft(s, written), HistoryLeft(s, written)), more)
    ensures Answers(Execute(Down(DiskLeft(s, written), HistoryLeft(s, written)), more).live, Durable(s, written))
  {
    hide LiveInv, CanCrash, DiskLeft, Execute, AllEnabled, StaysDown, Lookup, LevelsOk, AllClean, Loggable;
    CrashLosesNothing(s, written, more);
    LookupsAre(Execute(Down(DiskLeft(s, written), HistoryLeft(s, written)), more).live);
  }
}
