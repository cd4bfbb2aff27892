/**
 The engine as a machine of atomic steps (pkg/lsm/engine.go): writes, rotation, flushing and
 compaction, each cut where another goroutine or a crash can come in between, then crashes and
 recovery. Nothing here is a lock; a step is enabled when the locks its code holds let it run.
 */
module Machine {
  import opened Bytes
  import opened Entries
  import opened Runs
  import opened Upsert
  import opened Wal
  import opened Levels
  import opened Storage
  import opened DiskSteps
  import opened Compaction
  import opened Compactor
  import opened CompactionView
  import opened TableFormat
  import LogNames

  /** A memtable and its log share an identifier. */
  datatype Mem = Mem(id: nat, run: seq<Entry>)

  /** What lookups read: the cached level lists and the open readers. */
  datatype Snapshot = Snapshot(levels: LevelLists, readers: Tables)

  /** What the holder of the flush lock is at. */
  datatype Job =
    | Idle
    | Taken(mem: Mem)               // a flush has read the immutable memtable
    | Built(mem: Mem, table: nat)   // what it took is written out
    | Listed(mem: Mem, table: nat)  // the manifest lists the table
    | Shown(mem: Mem)               // lookups read the table
    | Dropped(log: nat)             // the immutable memtable was cleared, the log of the flushed one is still there
    | Compacting(done: Compacted)   // the manifest has the compaction's edit
    | Unlinking(gone: set<nat>)     // lookups read the outputs, some input files are still there

  /** Where recovery is with the oldest log. */
  datatype Stage = Ready | Replayed(run: seq<Entry>) | Saved(table: nat) | Flushed

  /**
   A running engine; hist is every write that counts as having happened, in order. The leaky logs are those
   that recovery would not give back in full: something was appended to them that it refuses, or behind a
   torn frame that it keeps. The orphans are the logs whose memtable was dropped by something other than its
   own flush.
   */
  datatype Live = Live(disk: Disk, hist: seq<Entry>, active: Mem, imm: Option<Mem>, shot: Snapshot,
                       inflight: Option<Entry>, job: Job, leaky: set<nat>, orphans: set<nat>)

  /** An engine that is being opened. */
  datatype Recovery = Recovery(disk: Disk, hist: seq<Entry>, stage: Stage)

  datatype State = Up(live: Live) | Opening(rec: Recovery) | Down(disk: Disk, hist: seq<Entry>)

  datatype Event =
    | BeginWrite(e: Entry) | EndWrite | Rotate | RotateAnyway
    | TakeImm | BuildTable(blockSize: nat) | ListTable | ShowTable | SkipEmpty | DropImm | RemoveLog
    | Compact(done: Compacted, newestFirst: bool, target: nat, ids: nat) | ShowCompacted | Unlink(id: nat)
    | BurnId
    | Crash(written: nat)
    | Start(order: seq<Log>)
    | ReplayOldest | SaveOldest(blockSize: nat) | ListOldest | RemoveOldest | OpenLast | OpenFresh

  // ----- Parts of states -----

  function ImmRun(imm: Option<Mem>): seq<Entry> {
    if imm.Some? then imm.value.run else []
  }

  function ImmId(imm: Option<Mem>): set<nat> {
    if imm.Some? then {imm.value.id} else {}
  }

  function LastContent(disk: Disk): seq<byte>
    requires disk.logs != []
  {
    disk.logs[|disk.logs| - 1].content
  }

  /** The logs but those with such an identifier. */
  function Besides(logs: seq<Log>, ids: set<nat>): seq<Log> {
    if logs == [] then [] else (if logs[0].id in ids then [] else [logs[0]]) + Besides(logs[1..], ids)
  }

  ghost predicate ByName(logs: seq<Log>) {
    forall i, j :: 0 <= i < j < |logs| ==> Less(LogNames.LogName(logs[i].id), LogNames.LogName(logs[j].id))
  }

  function ListedIds(levels: LevelLists): set<nat> {
    set l, i | 0 <= l < |levels| && 0 <= i < |levels[l]| :: levels[l][i]
  }

  /** The readers opened for the tables the manifest lists. */
  function Loaded(disk: Disk): Tables {
    map id | id in disk.files && id in ListedIds(disk.levels) :: disk.files[id]
  }

  /** The bytes of a frame that a crash leaves behind a log. */
  function TornDisk(disk: Disk, e: Entry, written: nat): Disk
    requires disk.logs != [] && written <= |Frame(e)|
  {
    disk.(logs := WithContent(disk.logs, |disk.logs| - 1, LastContent(disk) + Frame(e)[..written]))
  }

  // ----- Steps while the engine is up -----

  /** Put and Delete: the frame is being appended; nothing is acknowledged yet. */
  predicate CanBeginWrite(s: Live, e: Entry) {
    s.inflight.None? && e.key != []
  }

  function BeginsWrite(s: Live, e: Entry): Live
    requires CanBeginWrite(s, e)
  {
    s.(inflight := Some(e))
  }

  /** The frame is durable, the memtable has the entry, the caller is told. */
  predicate CanEndWrite(s: Live) {
    s.inflight.Some? && s.disk.logs != []
  }

  ghost function EndsWrite(s: Live): Live
    requires CanEndWrite(s)
  {
    var e := s.inflight.value;
    s.(disk := TornDisk(s.disk, e, |Frame(e)|), hist := s.hist + [e],
       active := s.active.(run := Put(s.active.run, e)), inflight := None,
       leaky := if GivesBack(LastContent(s.disk), e) then s.leaky else s.leaky + {s.active.id})
  }

  /** Recovery will give back the entry appended to this log. */
  ghost predicate GivesBack(content: seq<byte>, e: Entry) {
    Clean(content) && Loggable(e)
  }

  /** rotateMemTable, where its callers have checked that there is no immutable memtable. */
  predicate CanRotate(s: Live) {
    s.inflight.None? && s.imm.None?
  }

  function Rotates(s: Live): Live
    requires CanRotate(s)
  {
    s.(disk := LogOpened(s.disk), imm := Some(s.active), active := Mem(s.disk.nextId, []))
  }

  /** rotateMemTable as it is: an immutable memtable that is still there is dropped, and nobody deletes its log. */
  function RotatesAnyway(s: Live): Live {
    s.(disk := LogOpened(s.disk), imm := Some(s.active), active := Mem(s.disk.nextId, []),
       orphans := s.orphans + ImmId(s.imm))
  }

  /** flushImmutable reads immMem under mu. */
  predicate CanTake(s: Live) {
    s.job.Idle? && s.imm.Some?
  }

  function Takes(s: Live): Live
    requires CanTake(s)
  {
    s.(job := Taken(s.imm.value))
  }

  /** flushMemTableDirect writes the table file; the step is followed when the file gives back the entries. */
  predicate CanBuild(s: Live) {
    s.job.Taken? && s.job.mem.run != []
  }

  function Builds(s: Live, blockSize: nat): Live
    requires CanBuild(s)
  {
    s.(disk := TableWritten(s.disk, Table(s.job.mem.run, blockSize)), job := Built(s.job.mem, s.disk.nextId))
  }

  /** flushMemTableDirect has nothing to write. */
  predicate CanSkip(s: Live) {
    s.job.Taken? && s.job.mem.run == []
  }

  function Skips(s: Live): Live
    requires CanSkip(s)
  {
    s.(job := Shown(s.job.mem))
  }

  /** The manifest logs the edit. */
  predicate CanList(s: Live) {
    s.job.Built? && |s.disk.levels| == ROWS
  }

  function Lists(s: Live): Live
    requires CanList(s)
  {
    s.(disk := TableListed(s.disk, s.job.table), job := Listed(s.job.mem, s.job.table))
  }

  /** The reader and the level lists are installed under readersMu. */
  predicate CanShow(s: Live) {
    s.job.Listed? && s.job.table in s.disk.files
  }

  function Shows(s: Live): Live
    requires CanShow(s)
  {
    s.(shot := Snapshot(s.disk.levels, s.shot.readers[s.job.table := s.disk.files[s.job.table]]),
       job := Shown(s.job.mem))
  }

  /** flushImmutable clears immMem under mu, whatever memtable that is by now. */
  predicate CanDrop(s: Live) {
    s.job.Shown? && s.inflight.None?
  }

  function Drops(s: Live): Live
    requires CanDrop(s)
  {
    s.(imm := None, job := Dropped(s.job.mem.id), orphans := s.orphans + (ImmId(s.imm) - {s.job.mem.id}))
  }

  /** flushImmutable deletes the log of the memtable it took. */
  predicate CanRemoveLog(s: Live) {
    s.job.Dropped?
  }

  function RemovesLog(s: Live): Live
    requires CanRemoveLog(s)
  {
    s.(disk := s.disk.(logs := Besides(s.disk.logs, {s.job.log})), job := Idle)
  }

  // ----- The rotation that does not look -----

  /** A flush is between taking the immutable memtable and clearing it. */
  predicate Flushing(job: Job) {
    job.Taken? || job.Built? || job.Listed? || job.Shown?
  }

  /** What lookups will find in the tables once the flush has shown what it took. */
  function NextFind(s: Live, key: Key): Option<Entry>
    requires Flushing(s.job) && LevelsOk(s.shot.levels, s.shot.readers)
  {
    Or(Find(s.job.mem.run, key), ShotFind(s, key))
  }

  /** The memtable shows nothing for its keys that the tables, or newer entries, do not. */
  ghost predicate NothingToLose(run: seq<Entry>, newer: seq<Entry>, s: Live)
    requires ShotOk(s)
  {
    forall e :: e in run ==> Find(newer, e.key).Some? || Visible(Some(e)) == Visible(ShotFind(s, e.key))
  }

  /** The memtable shows nothing for its keys that the flush in progress will not. */
  ghost predicate Repeats(run: seq<Entry>, s: Live)
    requires Flushing(s.job) && ShotOk(s)
  {
    forall e :: e in run ==> Visible(Some(e)) == Visible(NextFind(s, e.key))
  }

  /**
   Dropping the immutable memtable changes no answer; and if a flush is in progress, neither will its
   dropping the one that is active now.
   */
  ghost predicate SafeToRotate(s: Live)
    requires ShotOk(s)
  {
    s.imm.None? || (NothingToLose(s.imm.value.run, s.active.run, s) && (Flushing(s.job) ==> Repeats(s.active.run, s)))
  }

  /** The unguarded rotation, where it drops a memtable; FlushGuard shows what comes of the others. */
  ghost predicate CanRotateAnyway(s: Live) {
    s.inflight.None? && s.imm.Some? && ShotOk(s) && SafeToRotate(s)
  }

  /**
   A compaction of the tables lookups read, its level-0 inputs in either order, out of any level: those that
   are not harmless change answers, as CompactionView shows.
   */
  ghost predicate CanCompact(s: Live, done: Compacted, newestFirst: bool, target: nat, ids: nat) {
    && s.job.Idle? && LevelsOk(s.disk.levels, s.shot.readers)
    && CompactedBy(s.disk.levels, s.shot.readers, newestFirst, done, CompactedLevels(s, done), target)
    && Harmless(s.disk.levels, s.shot.readers, done.task)
    && forall id :: id in done.newTables ==> s.disk.nextId <= id < s.disk.nextId + ids
  }

  function CompactedLevels(s: Live, done: Compacted): LevelLists
  {
    Edited(s.disk.levels, Members(done.task.Inputs()), done.added, done.task.to)
  }

  function Compacts(s: Live, done: Compacted, ids: nat): Live
  {
    s.(disk := Disk(CompactedLevels(s, done), s.disk.files + done.newTables, s.disk.nextId + ids, s.disk.logs),
       job := Compacting(done))
  }

  /** Compact installs the new readers and the level lists under readersMu. */
  predicate CanShowCompacted(s: Live) {
    s.job.Compacting?
  }

  function ShowsCompacted(s: Live): Live
    requires CanShowCompacted(s)
  {
    s.(shot := Snapshot(s.disk.levels, TablesAfter(s.shot.readers, s.job.done)),
       job := LeftToUnlink(Members(s.job.done.task.Inputs())))
  }

  function LeftToUnlink(gone: set<nat>): Job {
    if gone == {} then Idle else Unlinking(gone)
  }

  /** One input file is unlinked. */
  predicate CanUnlink(s: Live, id: nat) {
    s.job.Unlinking? && id in s.job.gone
  }

  function Unlinks(s: Live, id: nat): Live
    requires CanUnlink(s, id)
  {
    s.(disk := s.disk.(files := s.disk.files - {id}), job := LeftToUnlink(s.job.gone - {id}))
  }

  /** An identifier is handed out and never used. */
  function BurnsId(s: Live): Live
  {
    s.(disk := s.disk.(nextId := s.disk.nextId + 1))
  }

  // ----- Crashes and recovery -----

  /** Recovery gives back every log in full, and every log belongs to a memtable or to a flush. */
  ghost predicate Trusted(s: Live) {
    forall i :: 0 <= i < |s.disk.logs| ==> s.disk.logs[i].id !in s.leaky && s.disk.logs[i].id !in s.orphans
  }

  /**
   Any part of the frame may have reached the file, unless that would append to a log that is not made of
   whole frames, or its lengths do not fit their fields. Crashes are followed while recovery gives back every
   log in full, none is an orphan, and their names are in the order of their identifiers; CrashGaps shows what
   the others can cost.
   */
  ghost predicate CanCrash(s: Live, written: nat) {
    && ByName(s.disk.logs) && Trusted(s)
    && if s.inflight.Some? then
         s.disk.logs != [] && written <= |Frame(s.inflight.value)|
         && (written > 0 ==> Clean(LastContent(s.disk)) && s.inflight.value.EncodedSize() < TWO32)
         && (written == |Frame(s.inflight.value)| ==> |s.inflight.value.key| < TWO16)
       else written == 0
  }

  ghost function DiskLeft(s: Live, written: nat): Disk
    requires CanCrash(s, written)
  {
    if s.inflight.Some? then TornDisk(s.disk, s.inflight.value, written) else s.disk
  }

  /** A write in flight has happened if its whole frame reached the file, and recovery accepts it. */
  ghost function HistoryLeft(s: Live, written: nat): seq<Entry>
    requires CanCrash(s, written)
  {
    if s.inflight.Some? && written == |Frame(s.inflight.value)| && Loggable(s.inflight.value)
    then s.hist + [s.inflight.value] else s.hist
  }

  /** Open lists the logs by file name. */
  ghost predicate CanStart(disk: Disk, order: seq<Log>) {
    multiset(order) == multiset(disk.logs) && ByName(order)
  }

  function Starts(disk: Disk, hist: seq<Entry>, order: seq<Log>): Recovery {
    Recovery(disk.(logs := order), hist, Ready)
  }

  /** recoverWAL replays the first of several logs. */
  predicate CanReplay(s: Recovery) {
    s.stage.Ready? && |s.disk.logs| >= 2
  }

  function Replays(s: Recovery): Recovery
    requires CanReplay(s)
  {
    var content := s.disk.logs[0].content;
    s.(disk := s.disk.(logs := WithContent(s.disk.logs, 0, Recovered(content))),
       stage := Replayed(PutAll(Replay(content))))
  }

  predicate CanSave(s: Recovery) {
    s.stage.Replayed? && s.stage.run != []
  }

  function Saves(s: Recovery, blockSize: nat): Recovery
    requires CanSave(s)
  {
    s.(disk := TableWritten(s.disk, Table(s.stage.run, blockSize)), stage := Saved(s.disk.nextId))
  }

  predicate CanListSaved(s: Recovery) {
    s.stage.Saved? && |s.disk.levels| == ROWS
  }

  function ListsSaved(s: Recovery): Recovery
    requires CanListSaved(s)
  {
    s.(disk := TableListed(s.disk, s.stage.table), stage := Flushed)
  }

  /** The replayed log is deleted, its entries being in a table, if it had any. */
  predicate CanRemoveOldest(s: Recovery) {
    (s.stage.Flushed? || (s.stage.Replayed? && s.stage.run == [])) && s.disk.logs != []
  }

  function RemovesOldest(s: Recovery): Recovery
    requires CanRemoveOldest(s)
  {
    s.(disk := s.disk.(logs := s.disk.logs[1..]), stage := Ready)
  }

  /** The last log is replayed into the active memtable and stays open. */
  predicate CanOpenLast(s: Recovery) {
    s.stage.Ready? && |s.disk.logs| == 1
  }

  function OpensLast(s: Recovery): Live
    requires CanOpenLast(s)
  {
    var log := s.disk.logs[0];
    var disk := s.disk.(logs := WithContent(s.disk.logs, 0, Recovered(log.content)));
    Live(disk, s.hist, Mem(log.id, PutAll(Replay(log.content))), None, Snapshot(disk.levels, Loaded(disk)), None, Idle,
         {}, {})
  }

  /** There was no log. */
  predicate CanOpenFresh(s: Recovery) {
    s.stage.Ready? && s.disk.logs == []
  }

  function OpensFresh(s: Recovery): Live
    requires CanOpenFresh(s)
  {
    var disk := LogOpened(s.disk);
    Live(disk, s.hist, Mem(s.disk.nextId, []), None, Snapshot(disk.levels, Loaded(disk)), None, Idle, {}, {})
  }

  // ----- The machine -----

  ghost predicate LiveEnabled(s: Live, ev: Event) {
    match ev
    case BeginWrite(e) => CanBeginWrite(s, e)
    case EndWrite => CanEndWrite(s)
    case Rotate => CanRotate(s)
    case RotateAnyway => CanRotateAnyway(s)
    case TakeImm => CanTake(s)
    case BuildTable(_) => CanBuild(s) && AllStorable(s.job.mem.run)
    case SkipEmpty => CanSkip(s)
    case ListTable => CanList(s)
    case ShowTable => CanShow(s)
    case DropImm => CanDrop(s)
    case RemoveLog => CanRemoveLog(s)
    case Compact(done, newestFirst, target, ids) => CanCompact(s, done, newestFirst, target, ids)
    case ShowCompacted => CanShowCompacted(s)
    case Unlink(id) => CanUnlink(s, id)
    case BurnId => true
    case Crash(written) => CanCrash(s, written)
    case _ => false
  }

  ghost function LiveNext(s: Live, ev: Event): State
    requires LiveEnabled(s, ev)
  {
    hide CanCompact, CanRotateAnyway;
    match ev
    case BeginWrite(e) => Up(BeginsWrite(s, e))
    case EndWrite => Up(EndsWrite(s))
    case Rotate => Up(Rotates(s))
    case RotateAnyway => Up(RotatesAnyway(s))
    case TakeImm => Up(Takes(s))
    case BuildTable(blockSize) => Up(Builds(s, blockSize))
    case SkipEmpty => Up(Skips(s))
    case ListTable => Up(Lists(s))
    case ShowTable => Up(Shows(s))
    case DropImm => Up(Drops(s))
    case RemoveLog => Up(RemovesLog(s))
    case Compact(done, _, _, ids) => Up(Compacts(s, done, ids))
    case ShowCompacted => Up(ShowsCompacted(s))
    case Unlink(id) => Up(Unlinks(s, id))
    case BurnId => Up(BurnsId(s))
    case Crash(written) => Down(DiskLeft(s, written), HistoryLeft(s, written))
  }

  ghost predicate RecoveryEnabled(s: Recovery, ev: Event) {
    match ev
    case ReplayOldest => CanReplay(s)
    case SaveOldest(_) => CanSave(s)
    case ListOldest => CanListSaved(s)
    case RemoveOldest => CanRemoveOldest(s)
    case OpenLast => CanOpenLast(s)
    case OpenFresh => CanOpenFresh(s)
    case Crash(_) => true
    case _ => false
  }

  ghost function RecoveryNext(s: Recovery, ev: Event): State
    requires RecoveryEnabled(s, ev)
  {
    match ev
    case ReplayOldest => Opening(Replays(s))
    case SaveOldest(blockSize) => Opening(Saves(s, blockSize))
    case ListOldest => Opening(ListsSaved(s))
    case RemoveOldest => Opening(RemovesOldest(s))
    case OpenLast => Up(OpensLast(s))
    case OpenFresh => Up(OpensFresh(s))
    case Crash(_) => Down(s.disk, s.hist)
  }

  ghost predicate Enabled(s: State, ev: Event) {
    match s
    case Up(live) => LiveEnabled(live, ev)
    case Opening(rec) => RecoveryEnabled(rec, ev)
    case Down(disk, _) => ev.Start? && CanStart(disk, ev.order)
  }

  ghost function Next(s: State, ev: Event): State
    requires Enabled(s, ev)
  {
    match s
    case Up(live) => LiveNext(live, ev)
    case Opening(rec) => RecoveryNext(rec, ev)
    case Down(disk, hist) => Opening(Starts(disk, hist, ev.order))
  }

  // ----- Lookup -----

  /** The memory phase of a lookup. */
  function MemFind(s: Live, key: Key): Option<Entry>
  {
    Or(Find(s.active.run, key), Find(ImmRun(s.imm), key))
  }

  /** The disk phase. */
  function ShotFind(s: Live, key: Key): Option<Entry>
    requires LevelsOk(s.shot.levels, s.shot.readers)
  {
    DiskFind(s.shot.levels, s.shot.readers, key)
  }

  /** Both phases at one moment. */
  function Lookup(s: Live, key: Key): Option<Entry>
    requires LevelsOk(s.shot.levels, s.shot.readers)
  {
    Or(MemFind(s, key), ShotFind(s, key))
  }

  // ----- The invariant -----

  ghost predicate Inv(s: State) {
    match s
    case Up(live) => LiveInv(live)
    case Opening(rec) => RecoveryInv(rec)
    case Down(disk, hist) => DownInv(disk, hist)
  }

  /** Recovery, by name, gives back the map of the history. */
  ghost predicate DownInv(disk: Disk, hist: seq<Entry>) {
    DiskOk(disk) && AllGood(disk.logs) && ByName(disk.logs) && Represents(disk, hist)
  }

  ghost predicate LiveInv(s: Live) {
    && DiskOk(s.disk) && ShotOk(s) && Refines(s)
    && MemsOk(s) && LogsHold(s) && JobOk(s)
    && (s.inflight.Some? ==> s.inflight.value.key != [])
    && HandedOut(s.leaky, s.disk.nextId) && HandedOut(s.orphans, s.disk.nextId)
  }

  ghost predicate HandedOut(ids: set<nat>, nextId: nat) {
    forall id :: id in ids ==> id < nextId
  }

  /** Lookups show the last write of every key. */
  ghost predicate Refines(s: Live)
    requires ShotOk(s)
  {
    forall key: Key :: Visible(Lookup(s, key)) == Visible(LastOf(s.hist, key))
  }

  ghost predicate MemsOk(s: Live) {
    Ascending(s.active.run) && Ascending(ImmRun(s.imm)) && (Flushing(s.job) ==> Ascending(s.job.mem.run))
  }

  /** The log, unless it is leaky, gives back the memtable. */
  ghost predicate HeldBy(log: Log, mem: Mem, leaky: set<nat>) {
    log.id == mem.id && (mem.id !in leaky ==> Good(Replay(log.content)) && mem.run == PutAll(Replay(log.content)))
  }

  function Count(b: bool): nat {
    if b then 1 else 0
  }

  /** The logs that are no orphans. */
  function OwnedLogs(s: Live): seq<Log> {
    Besides(s.disk.logs, s.orphans)
  }

  /**
   The logs, but for the orphans, are: the one of a dropped memtable, the one of the immutable memtable, the
   active one, which is the last of all.
   */
  ghost predicate LogsHold(s: Live) {
    && s.disk.logs != [] && s.disk.logs[|s.disk.logs| - 1].id !in s.orphans
    && LogsAre(OwnedLogs(s), s.active, s.imm, DroppedLog(s), s.leaky)
  }

  function DroppedLog(s: Live): Option<nat> {
    if s.job.Dropped? && s.job.log !in s.orphans then Some(s.job.log) else None
  }

  ghost predicate LogsAre(logs: seq<Log>, active: Mem, imm: Option<Mem>, dropped: Option<nat>, leaky: set<nat>) {
    var n := |logs|;
    && n == Count(dropped.Some?) + Count(imm.Some?) + 1
    && HeldBy(logs[n - 1], active, leaky)
    && (imm.Some? ==> HeldBy(logs[n - 2], imm.value, leaky))
    && (dropped.Some? ==> logs[0].id == dropped.value && (dropped.value !in leaky ==> Good(Replay(logs[0].content))))
  }

  ghost predicate ShotOk(s: Live)
  {
    LevelsOk(s.shot.levels, s.shot.readers) && FilesBounded(s.shot.readers, s.disk.nextId)
  }

  /** Lookups read what the manifest lists. */
  ghost predicate Current(s: Live)
  {
    s.shot.levels == s.disk.levels && SameListed(s.disk.levels, s.shot.readers, s.disk.files)
  }

  ghost predicate HoldsTaken(s: Live, id: nat)
    requires Flushing(s.job)
  {
    id in s.disk.files && s.disk.files[id].run == s.job.mem.run
  }

  /**
   The memtable a flush has taken is the immutable one, or was when it was taken. Once its table is shown, and
   once the immutable memtable of that moment is cleared, lookups will answer what they answer now.
   */
  ghost predicate TakenOk(s: Live)
    requires ShotOk(s) && Flushing(s.job)
  {
    && s.imm.Some? && (s.imm.value == s.job.mem || (s.job.mem.id in s.orphans && s.job.mem.id != s.imm.value.id))
    && forall key: Key ::
         && Visible(Or(MemFind(s, key), NextFind(s, key))) == Visible(Lookup(s, key))
         && Visible(Or(Find(s.active.run, key), NextFind(s, key))) == Visible(Lookup(s, key))
  }

  /** The listed tables show all the memtable holds. */
  ghost predicate AllSaved(disk: Disk, run: seq<Entry>)
    requires DiskOk(disk)
  {
    forall key: Key :: Find(run, key).Some? ==> DiskFind(disk.levels, disk.files, key) == Find(run, key)
  }

  ghost predicate JobOk(s: Live)
    requires DiskOk(s.disk) && LogsHold(s) && ShotOk(s)
  {
    match s.job
    case Idle => Current(s)
    case Taken(_) => Current(s) && TakenOk(s)
    case Built(_, id) => Current(s) && TakenOk(s) && HoldsTaken(s, id) && Unlisted(s.disk.levels, id)
    case Listed(_, id) =>
      && TakenOk(s) && HoldsTaken(s, id) && Unlisted(s.shot.levels, id) && s.disk.levels == Pushed(s.shot.levels, id)
      && SameListed(s.shot.levels, s.shot.readers, s.disk.files)
    case Shown(mem) => Current(s) && TakenOk(s) && AllSaved(s.disk, mem.run)
    case Dropped(log) =>
      && Current(s)
      && (DroppedLog(s).Some? && log !in s.leaky ==> Absorbed(s.disk, OwnedLogs(s)[0].content))
    case Compacting(done) => CompactingOk(s, done)
    case Unlinking(gone) => Current(s) && AllUnlisted(s.disk.levels, gone)
  }

  ghost predicate AllUnlisted(levels: LevelLists, gone: set<nat>) {
    forall id :: id in gone ==> Unlisted(levels, id)
  }

  /** The manifest is ahead of what lookups read by one compaction, which changed no answer. */
  ghost predicate CompactingOk(s: Live, done: Compacted)
    requires DiskOk(s.disk) && ShotOk(s)
  {
    var readers := TablesAfter(s.shot.readers, done);
    && LevelsOk(s.disk.levels, readers) && FilesBounded(readers, s.disk.nextId)
    && SameListed(s.disk.levels, readers, s.disk.files)
    && AllUnlisted(s.disk.levels, Members(done.task.Inputs()))
    && forall key: Key :: Visible(DiskFind(s.disk.levels, s.disk.files, key)) == Visible(ShotFind(s, key))
  }

  ghost predicate RecoveryInv(s: Recovery) {
    && DownInv(s.disk, s.hist)
    && match s.stage
       case Ready => true
       case Replayed(run) => |s.disk.logs| >= 2 && run == PutAll(Replay(s.disk.logs[0].content))
       case Saved(id) =>
         && |s.disk.logs| >= 2 && id in s.disk.files && Unlisted(s.disk.levels, id)
         && s.disk.files[id].run == PutAll(Replay(s.disk.logs[0].content))
       case Flushed => |s.disk.logs| >= 2 && Absorbed(s.disk, s.disk.logs[0].content)
  }

  const EMPTY_DISK := Disk([[], [], [], [], [], [], [], []], map[], 1, [])

  /** A directory with nothing in it. */
  const INITIAL := Down(EMPTY_DISK, [])

  // ----- Runs -----

  ghost predicate AllEnabled(s: State, evs: seq<Event>)
    decreases |evs|
  {
    evs == [] || (Enabled(s, evs[0]) && AllEnabled(Next(s, evs[0]), evs[1..]))
  }

  ghost function Execute(s: State, evs: seq<Event>): State
    requires AllEnabled(s, evs)
    decreases |evs|
  {
    if evs == [] then s else Execute(Next(s, evs[0]), evs[1..])
  }
}
