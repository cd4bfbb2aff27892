/** The write-ahead log: frames, appending and recovery (pkg/wal/wal.go, pkg/core/entry.go). */
module Wal {
  import opened Bytes
  import opened Entries
  import opened Hashing

  const MAX_RECORD_PAYLOAD: nat := 64 * 1024 * 1024

  /** [CRC32: 4B][PayloadLen: 4B][Payload] */
  function Frame(e: Entry): (f: seq<byte>)
    ensures |f| == 8 + e.EncodedSize()
  {
    PutUint(Crc32(Encoding(e)), 4) + PutUint(e.EncodedSize(), 4) + Encoding(e)
  }

  function Frames(es: seq<Entry>): seq<byte> {
    if es == [] then [] else Frame(es[0]) + Frames(es[1..])
  }

  /** Recovery gives the entry back: its lengths fit, and it is under the size recovery accepts. */
  predicate Loggable(e: Entry) {
    e.Encodable() && e.EncodedSize() <= MAX_RECORD_PAYLOAD
  }

  predicate AllLoggable(es: seq<Entry>) {
    forall e :: e in es ==> Loggable(e)
  }

  // ----- What recovery accepts -----

  /** The payload length declared at the front of s. */
  function Declared(s: seq<byte>): nat
    requires |s| >= 8
  {
    Uint(s[4..8])
  }

  /** s starts with a frame that recovery replays. */
  predicate Acceptable(s: seq<byte>) {
    && |s| >= 8
    && Declared(s) <= MAX_RECORD_PAYLOAD
    && 8 + Declared(s) <= |s|
    && Crc32(s[8..8 + Declared(s)]) == Uint(s[0..4])
    && DecodeEntry(s[8..8 + Declared(s)]).Ok?
  }

  function FrameLength(s: seq<byte>): (n: nat)
    requires Acceptable(s)
    ensures 8 <= n <= |s|
  {
    8 + Declared(s)
  }

  function FrameEntry(s: seq<byte>): Entry
    requires Acceptable(s)
  {
    DecodeEntry(s[8..FrameLength(s)]).value
  }

  /** The entries of the acceptable frames from the start of s on. */
  function Replay(s: seq<byte>): seq<Entry> {
    if !Acceptable(s) then [] else [FrameEntry(s)] + Replay(s[FrameLength(s)..])
  }

  /** Their total length. */
  function ValidLength(s: seq<byte>): (n: nat)
    ensures n <= |s|
  {
    if !Acceptable(s) then 0 else FrameLength(s) + ValidLength(s[FrameLength(s)..])
  }

  datatype Damage = NoDamage | TruncatedTail | BadLength | BadLengthMiddle | BadCrcTail | CorruptMiddle | DecodeError

  /** What recovery makes of the bytes that follow the last acceptable frame of a file. */
  function DamageOf(rest: seq<byte>, fileSize: nat): Damage {
    if rest == [] then NoDamage
    else if |rest| < 8 then TruncatedTail
    else if Declared(rest) > MAX_RECORD_PAYLOAD || Declared(rest) > fileSize then
      if |rest| <= 8 then BadLength else BadLengthMiddle
    else if |rest| < 8 + Declared(rest) then TruncatedTail
    else if Crc32(rest[8..8 + Declared(rest)]) != Uint(rest[0..4]) then
      if |rest| == 8 + Declared(rest) then BadCrcTail else CorruptMiddle
    else if DecodeEntry(rest[8..8 + Declared(rest)]).Err? then DecodeError
    else NoDamage
  }

  /** Damage is cut off only when nothing follows it. */
  predicate CutOff(rest: seq<byte>, fileSize: nat) {
    match DamageOf(rest, fileSize)
    case TruncatedTail | BadLength | BadCrcTail => true
    case DecodeError => |rest| == 8 + Declared(rest)
    case _ => false
  }

  datatype Report = Report(validRecords: nat, bytesRecovered: nat, damage: Damage, damageOffset: nat,
    fileTruncated: bool)

  function ReportOf(content: seq<byte>): Report {
    var n := ValidLength(content);
    var rest := content[n..];
    var d := DamageOf(rest, |content|);
    Report(|Replay(content)|, n, d, if d == NoDamage then 0 else n, CutOff(rest, |content|))
  }

  /** The file after recovery. */
  function Recovered(content: seq<byte>): seq<byte> {
    if ReportOf(content).fileTruncated then content[..ValidLength(content)] else content
  }

  // ----- Recovery -----

  class LogFile {
    var content: seq<byte>

    constructor (content: seq<byte>)
      ensures this.content == content
    {
      this.content := content;
    }
  }

  /**
   Reads frame by frame, replays the acceptable ones, and stops at the first that is not; damage with
   nothing after it is cut off the file.
   */
  method RecoverWithReport(file: LogFile) returns (report: Report, entries: seq<Entry>)
    modifies file
    ensures entries == Replay(old(file.content))
    ensures report == ReportOf(old(file.content))
    ensures file.content == Recovered(old(file.content))
  {
    hide Acceptable, DamageOf, CutOff, Replay, ValidLength, ReportOf, Recovered;
    var data := file.content;
    var fileSize := |data|;
    var lastValidOffset, validCount := 0, 0;
    entries := [];
    var damage := NoDamage;
    assert data[0..] == data;
    assert entries + Replay(data) == Replay(data);
    while true
      invariant file.content == data && 0 <= lastValidOffset <= fileSize && validCount == |entries|
      invariant Replay(data) == entries + Replay(data[lastValidOffset..])
      invariant ValidLength(data) == lastValidOffset + ValidLength(data[lastValidOffset..])
      decreases fileSize - lastValidOffset
    {
      var step := ReadFrame(data, lastValidOffset);
      if step.End? {
        EndReport(data, lastValidOffset, entries);
        damage := step.damage;
        if step.cutOff {
          file.content := data[..lastValidOffset];
        }
        var damageOffset := if damage == NoDamage then 0 else lastValidOffset;
        report := Report(validCount, lastValidOffset, damage, damageOffset, step.cutOff);
        return;
      }
      OneMoreReplayed(data, lastValidOffset, entries);
      entries := entries + [step.entry];
      validCount := validCount + 1;
      lastValidOffset := lastValidOffset + step.length;
    }
  }

  datatype Step = More(entry: Entry, length: nat) | End(damage: Damage, cutOff: bool)

  /** One turn of the loop: header, length check, payload, checksum, decoding, in that order. */
  method ReadFrame(data: seq<byte>, offset: nat) returns (step: Step)
    requires offset <= |data|
    ensures var rest := data[offset..];
      step == if Acceptable(rest) then More(FrameEntry(rest), FrameLength(rest))
              else End(DamageOf(rest, |data|), CutOff(rest, |data|))
  {
    var fileSize := |data|;
    var rest := data[offset..];
    if offset == fileSize {
      return End(NoDamage, false);
    }
    if offset + 8 > fileSize {
      return End(TruncatedTail, true);
    }
    var checksum := Uint(rest[0..4]);
    var payloadLen := Uint(rest[4..8]);
    hide Uint, DecodeEntry;
    if payloadLen > MAX_RECORD_PAYLOAD || payloadLen > fileSize {
      if offset + 8 >= fileSize {
        return End(BadLength, true);
      }
      return End(BadLengthMiddle, false);
    }
    if offset + 8 + payloadLen > fileSize {
      return End(TruncatedTail, true);
    }
    var payload := rest[8..8 + payloadLen];
    if Crc32(payload) != checksum {
      if offset + 8 + payloadLen >= fileSize {
        return End(BadCrcTail, true);
      }
      return End(CorruptMiddle, false);
    }
    var e := DecodeEntry(payload);
    if e.Err? {
      return End(DecodeError, offset + 8 + payloadLen >= fileSize);
    }
    return More(e.value, 8 + payloadLen);
  }

  lemma EndsHere(data: seq<byte>, offset: nat, entries: seq<Entry>)
    requires offset <= |data| && !Acceptable(data[offset..])
    ensures entries + Replay(data[offset..]) == entries && ValidLength(data[offset..]) == 0
  {
  }

  lemma EndReport(data: seq<byte>, offset: nat, entries: seq<Entry>)
    requires offset <= |data| && !Acceptable(data[offset..])
    requires Replay(data) == entries + Replay(data[offset..])
    requires ValidLength(data) == offset + ValidLength(data[offset..])
    ensures Replay(data) == entries && ValidLength(data) == offset
    ensures var d, cut := DamageOf(data[offset..], |data|), CutOff(data[offset..], |data|);
      && ReportOf(data) == Report(|entries|, offset, d, if d == NoDamage then 0 else offset, cut)
      && Recovered(data) == if cut then data[..offset] else data
  {
    EndsHere(data, offset, entries);
    hide Acceptable, DamageOf, CutOff, Replay, ValidLength;
  }

  lemma OneMoreReplayed(data: seq<byte>, offset: nat, entries: seq<Entry>)
    requires offset <= |data| && Acceptable(data[offset..])
    ensures var rest := data[offset..]; var next := data[offset + FrameLength(rest)..];
      && entries + Replay(rest) == entries + [FrameEntry(rest)] + Replay(next)
      && ValidLength(rest) == FrameLength(rest) + ValidLength(next)
  {
    hide Acceptable;
    var rest := data[offset..];
    assert rest[FrameLength(rest)..] == data[offset + FrameLength(rest)..];
  }

  // ----- The longest run of acceptable frames -----

  /** The first n bytes of s are acceptable frames, holding es. */
  ghost predicate FrameRun(s: seq<byte>, es: seq<Entry>, n: nat)
    decreases |es|
  {
    if es == [] then n == 0
    else
      && Acceptable(s) && FrameLength(s) <= n && es[0] == FrameEntry(s)
      && FrameRun(s[FrameLength(s)..], es[1..], n - FrameLength(s))
  }

  /** Recovery replays a run of acceptable frames that cannot be made longer. */
  lemma {:induction false} ReplaysRun(s: seq<byte>)
    ensures FrameRun(s, Replay(s), ValidLength(s))
    ensures !Acceptable(s[ValidLength(s)..])
    decreases |s|
  {
    hide Acceptable;
    if Acceptable(s) {
      var t := s[FrameLength(s)..];
      ReplaysRun(t);
      assert Replay(s)[1..] == Replay(t);
      assert t[ValidLength(t)..] == s[ValidLength(s)..];
    } else {
      assert s[0..] == s;
    }
  }

  /** Every other run of acceptable frames from offset 0 is a prefix of what is replayed. */
  lemma {:induction false} ReplaysLongestRun(s: seq<byte>, es: seq<Entry>, n: nat)
    requires FrameRun(s, es, n)
    ensures es <= Replay(s) && n <= ValidLength(s)
    decreases |es|
  {
    hide Acceptable;
    if es != [] {
      ReplaysLongestRun(s[FrameLength(s)..], es[1..], n - FrameLength(s));
    }
  }

  // ----- Written frames -----

  /** A frame within the recovery limit is accepted, as the entry that decoding makes of it. */
  lemma WrittenFrame(e: Entry, rest: seq<byte>)
    requires e.EncodedSize() <= MAX_RECORD_PAYLOAD
    ensures Acceptable(Frame(e) + rest)
    ensures FrameEntry(Frame(e) + rest) == Shortened(e) && FrameLength(Frame(e) + rest) == |Frame(e)|
    ensures (Frame(e) + rest)[|Frame(e)|..] == rest
    ensures Loggable(e) ==> Shortened(e) == e
  {
    FrameFields(e, rest);
    hide Frame, DecodeEntry, Crc32, PutUint, Uint, Shortened;
    assert Encoding(e) == Encoding(e) + [];
    DecodesAsShortened(e, []);
    ShortenedIffLong(e);
  }

  lemma FrameFields(e: Entry, rest: seq<byte>)
    requires e.EncodedSize() < TWO32
    ensures var s, n := Frame(e) + rest, e.EncodedSize();
      && Uint(s[0..4]) == Crc32(Encoding(e)) && Declared(s) == n
      && s[8..8 + n] == Encoding(e) && s[8 + n..] == rest
  {
    hide Crc32, PutUint, Uint;
    var s, n := Frame(e) + rest, e.EncodedSize();
    assert s[0..4] == PutUint(Crc32(Encoding(e)), 4) && s[4..8] == PutUint(n, 4);
    WidthValues();
    UintRoundTrip(Crc32(Encoding(e)), 4);
    UintRoundTrip(n, 4);
  }

  /** Frames that were written whole are replayed, in order, whatever follows them. */
  lemma {:induction false} ReplayFrames(es: seq<Entry>, rest: seq<byte>)
    requires AllLoggable(es)
    ensures Replay(Frames(es) + rest) == es + Replay(rest)
    ensures ValidLength(Frames(es) + rest) == |Frames(es)| + ValidLength(rest)
  {
    hide Acceptable, Frame;
    if es == [] {
      assert Frames(es) + rest == rest;
    } else {
      var tail := Frames(es[1..]) + rest;
      var s := Frame(es[0]) + tail;
      assert Frames(es) + rest == s;
      assert Loggable(es[0]);
      WrittenFrame(es[0], tail);
      assert Replay(s) == [es[0]] + Replay(tail) && ValidLength(s) == |Frame(es[0])| + ValidLength(tail);
      hide Replay, ValidLength;
      ReplayFrames(es[1..], rest);
      ConsConcat(es, Replay(rest));
    }
  }

  lemma ConsConcat(es: seq<Entry>, rest: seq<Entry>)
    requires es != []
    ensures [es[0]] + (es[1..] + rest) == es + rest
  {
  }

  lemma {:induction false} FramesConcat(a: seq<Entry>, b: seq<Entry>)
    ensures Frames(a + b) == Frames(a) + Frames(b)
  {
    hide Frame;
    if a == [] {
      assert a + b == b;
    } else {
      assert (a + b)[1..] == a[1..] + b;
      FramesConcat(a[1..], b);
    }
  }

  predicate TooLarge(e: Entry) {
    e.EncodedSize() > MAX_RECORD_PAYLOAD
  }

  /** An entry over the recovery limit is written but never replayed, nor is anything after it. */
  lemma OversizedNotAcceptable(e: Entry, rest: seq<byte>)
    requires TooLarge(e) && e.EncodedSize() < TWO32
    ensures !Acceptable(Frame(e) + rest)
  {
    hide Frame, DecodeEntry, Crc32, Uint;
    FrameFields(e, rest);
  }

  /** What recovery makes of written frames: it ends at the first that is too large, and shortens keys. */
  function AsReplayed(es: seq<Entry>): seq<Entry> {
    if es == [] || TooLarge(es[0]) then [] else [Shortened(es[0])] + AsReplayed(es[1..])
  }

  /** For any entries with lengths below 2^32. */
  lemma {:induction false} ReplayFramesOfAny(es: seq<Entry>)
    requires forall e :: e in es ==> e.EncodedSize() < TWO32
    ensures Replay(Frames(es)) == AsReplayed(es)
  {
    hide Acceptable, Frame, TooLarge, Shortened;
    if es == [] {
      ReplayNothing();
    } else {
      var e, tail := es[0], Frames(es[1..]);
      assert Frames(es) == Frame(e) + tail;
      ReplayFramesOfAny(es[1..]);
      hide Frames;
      OneFrameReplayed(e, tail);
    }
  }

  lemma OneFrameReplayed(e: Entry, tail: seq<byte>)
    requires e.EncodedSize() < TWO32
    ensures Replay(Frame(e) + tail) == if TooLarge(e) then [] else [Shortened(e)] + Replay(tail)
  {
    hide Acceptable, Frame, Shortened;
    if TooLarge(e) {
      OversizedNotAcceptable(e, tail);
    } else {
      WrittenFrame(e, tail);
    }
  }

  /** Recovery gives back what was written exactly when all of it can be logged. */
  lemma ReplayGivesBackExactly(es: seq<Entry>)
    requires forall e :: e in es ==> e.EncodedSize() < TWO32
    ensures Replay(Frames(es)) == es <==> AllLoggable(es)
  {
    ReplayFramesOfAny(es);
    AsReplayedSame(es);
  }

  lemma {:induction false} AsReplayedSame(es: seq<Entry>)
    requires forall e :: e in es ==> e.EncodedSize() < TWO32
    ensures AsReplayed(es) == es <==> AllLoggable(es)
  {
    hide Shortened;
    if es != [] {
      assert es == [es[0]] + es[1..] && es[0] in es;
      AsReplayedSame(es[1..]);
      ShortenedIffLong(es[0]);
    }
  }

  /**
   An entry with a longer key, within the recovery limit, is replayed under another key: a prefix of its
   own, empty when the length is a multiple of 2^16. Its value then starts inside the key.
   */
  lemma LongKeyReplays(e: Entry)
    requires |e.key| >= TWO16 && !TooLarge(e)
    ensures var k := |e.key| % TWO16;
      && Replay(Frame(e)) == [Entry(e.key[..k], (e.key + e.value)[k..k + |e.value|], e.timestamp, e.op)]
      && e.key[..k] != e.key
  {
    hide Frame, Acceptable, Replay, Shortened, Encoding;
    OneFrameReplayed(e, []);
    ReplayNothing();
    assert Frame(e) + [] == Frame(e);
    ShortenedLong(e);
  }

  lemma ShortenedLong(e: Entry)
    requires |e.key| >= TWO16 && |e.value| < TWO32
    ensures var k := |e.key| % TWO16;
      Shortened(e) == Entry(e.key[..k], (e.key + e.value)[k..k + |e.value|], e.timestamp, e.op) && e.key[..k] != e.key
  {
    var k := |e.key| % TWO16;
    assert (e.key + e.value)[..k] == e.key[..k] && |e.key[..k]| == k;
  }

  // ----- A torn tail -----

  /** The first bytes of a frame, but not all of it. */
  ghost predicate Torn(torn: seq<byte>, e: Entry) {
    |torn| < |Frame(e)| && torn == Frame(e)[..|torn|]
  }

  lemma TornDeclares(torn: seq<byte>, e: Entry, rest: seq<byte>)
    requires Torn(torn, e) && |torn| >= 8 && e.EncodedSize() < TWO32
    ensures Declared(torn + rest) == e.EncodedSize()
  {
    assert (torn + rest)[4..8] == Frame(e)[4..8] == PutUint(e.EncodedSize(), 4);
    WidthValues();
    UintRoundTrip(e.EncodedSize(), 4);
  }

  lemma TornNotAcceptable(torn: seq<byte>, e: Entry)
    requires Torn(torn, e) && e.EncodedSize() < TWO32
    ensures !Acceptable(torn) && Replay(torn) == [] && ValidLength(torn) == 0
  {
    if |torn| >= 8 {
      assert torn + [] == torn;
      TornDeclares(torn, e, []);
    }
  }

  /** The torn tail that recovery takes for damage in the middle: some payload, and a length beyond the file. */
  predicate KeptTorn(written: seq<Entry>, torn: seq<byte>, e: Entry) {
    |torn| > 8 && (e.EncodedSize() > MAX_RECORD_PAYLOAD || e.EncodedSize() > |Frames(written)| + |torn|)
  }

  /**
   After n written frames and a torn one, recovery replays exactly the n entries; it cuts the file back
   to them exactly when the torn frame is not one of the kept kind.
   */
  lemma TornTailRecovery(es: seq<Entry>, torn: seq<byte>, e: Entry)
    requires AllLoggable(es) && Torn(torn, e) && e.EncodedSize() < TWO32
    ensures var content := Frames(es) + torn;
      && Replay(content) == es && ValidLength(content) == |Frames(es)|
      && (torn != [] ==> (ReportOf(content).fileTruncated <==> !KeptTorn(es, torn, e)))
      && Recovered(content) == if KeptTorn(es, torn, e) then content else Frames(es)
  {
    var content := Frames(es) + torn;
    ReplayFrames(es, torn);
    TornNotAcceptable(torn, e);
    assert es + [] == es;
    assert content[|Frames(es)|..] == torn && content[..|Frames(es)|] == Frames(es);
    TornDamage(torn, e, |content|);
    hide Acceptable, DamageOf, CutOff, Frames;
    if torn == [] { assert content == Frames(es); }
  }

  lemma TornDamage(torn: seq<byte>, e: Entry, fileSize: nat)
    requires Torn(torn, e) && e.EncodedSize() < TWO32
    ensures CutOff(torn, fileSize) <==>
            torn != [] && !(|torn| > 8 && (e.EncodedSize() > MAX_RECORD_PAYLOAD || e.EncodedSize() > fileSize))
  {
    if |torn| >= 8 {
      assert torn + [] == torn;
      TornDeclares(torn, e, []);
    }
  }

  /** When the torn tail was cut off, what is appended afterwards is replayed after the old entries. */
  lemma AppendAfterTornTail(es: seq<Entry>, torn: seq<byte>, e: Entry, more: seq<Entry>)
    requires AllLoggable(es) && AllLoggable(more) && Torn(torn, e) && e.EncodedSize() < TWO32
    requires !KeptTorn(es, torn, e)
    ensures Replay(Recovered(Frames(es) + torn) + Frames(more)) == es + more
  {
    TornTailRecovery(es, torn, e);
    FramesConcat(es, more);
    ReplayFrames(es + more, []);
    hide Acceptable, Replay, Recovered, KeptTorn;
    assert Frames(es) + Frames(more) + [] == Frames(es + more) + [];
    assert Frames(es) + Frames(more) + [] == Frames(es) + Frames(more);
    ReplayNothing();
    assert es + more + [] == es + more;
  }

  lemma ReplayNothing()
    ensures Replay([]) == []
  {
  }

  /** What follows the whole frames is taken for the torn frame, filled up by later ones. */
  predicate TakenForWhole(e: Entry, rest: seq<byte>) {
    && !TooLarge(e) && |rest| >= |Frame(e)|
    && Crc32(rest[8..|Frame(e)|]) == Crc32(Encoding(e)) && DecodeEntry(rest[8..|Frame(e)|]).Ok?
  }

  /**
   When it was kept, what is appended afterwards fills up the torn frame. Nothing of it is replayed, although
   it was acknowledged, unless the file reaches the declared end and the checksum happens to fit; then an
   entry is replayed that is pieced together from both.
   */
  lemma AppendAfterKeptTorn(es: seq<Entry>, torn: seq<byte>, e: Entry, more: seq<Entry>)
    requires AllLoggable(es) && Torn(torn, e) && KeptTorn(es, torn, e) && e.EncodedSize() < TWO32
    ensures var rest := torn + Frames(more); var now := Replay(Recovered(Frames(es) + torn) + Frames(more));
      && (now == es <==> !TakenForWhole(e, rest))
      && (TakenForWhole(e, rest) ==>
            now == es + [DecodeEntry(rest[8..|Frame(e)|]).value] + Replay(rest[|Frame(e)|..]))
  {
    hide Frame, Frames, Replay, ValidLength, ReportOf, Recovered, Loggable, KeptTorn, Acceptable, DecodeEntry, Crc32;
    TornTailRecovery(es, torn, e);
    KeptTornHasHeader(es, torn, e);
    var rest := torn + Frames(more);
    assert Frames(es) + torn + Frames(more) == Frames(es) + rest;
    ReplayFrames(es, rest);
    ReplayOfFilled(torn, e, Frames(more));
    if TakenForWhole(e, rest) {
      var first, later := DecodeEntry(rest[8..|Frame(e)|]).value, Replay(rest[|Frame(e)|..]);
      assert es + ([first] + later) == es + [first] + later;
    } else {
      assert es + [] == es;
    }
  }

  lemma KeptTornHasHeader(es: seq<Entry>, torn: seq<byte>, e: Entry)
    requires KeptTorn(es, torn, e)
    ensures |torn| >= 8
  {
  }

  lemma ReplayOfFilled(torn: seq<byte>, e: Entry, rest: seq<byte>)
    requires Torn(torn, e) && |torn| >= 8 && e.EncodedSize() < TWO32
    ensures var s := torn + rest;
      Replay(s) == if TakenForWhole(e, s) then [DecodeEntry(s[8..|Frame(e)|]).value] + Replay(s[|Frame(e)|..]) else []
  {
    hide Frame, TakenForWhole, Replay, Acceptable, FrameEntry, FrameLength;
    TakenForWholeIs(torn, e, rest);
    ReplayFirst(torn + rest);
  }

  lemma ReplayFirst(s: seq<byte>)
    ensures Replay(s) == if Acceptable(s) then [FrameEntry(s)] + Replay(s[FrameLength(s)..]) else []
  {
    hide Acceptable, FrameEntry, FrameLength;
  }

  lemma TakenForWholeIs(torn: seq<byte>, e: Entry, rest: seq<byte>)
    requires Torn(torn, e) && |torn| >= 8 && e.EncodedSize() < TWO32
    ensures var s := torn + rest;
      && (Acceptable(s) <==> TakenForWhole(e, s))
      && (Acceptable(s) ==> FrameLength(s) == |Frame(e)| && FrameEntry(s) == DecodeEntry(s[8..|Frame(e)|]).value)
  {
    hide Frame, DecodeEntry, Crc32, Uint, PutUint;
    TornDeclares(torn, e, rest);
    TornChecksum(torn, e, rest);
  }

  lemma TornChecksum(torn: seq<byte>, e: Entry, rest: seq<byte>)
    requires Torn(torn, e) && |torn| >= 8
    ensures Uint((torn + rest)[0..4]) == Crc32(Encoding(e))
  {
    hide Crc32;
    assert (torn + rest)[0..4] == Frame(e)[0..4] == PutUint(Crc32(Encoding(e)), 4);
    WidthValues();
    UintRoundTrip(Crc32(Encoding(e)), 4);
  }

  /** The first write to a new log, torn after one payload byte: one such file. */
  lemma KeptTornExists()
    ensures var e := Entry([1], [], 0, OP_PUT); var torn := Frame(e)[..9];
      Torn(torn, e) && KeptTorn([], torn, e)
  {
  }

  /** On any bytes: recovering again replays the same entries and changes the file no further. */
  lemma RecoveryIsIdempotent(content: seq<byte>)
    ensures Replay(Recovered(content)) == Replay(content)
    ensures Recovered(Recovered(content)) == Recovered(content)
  {
    ValidPrefix(content);
    hide Acceptable, DamageOf, CutOff, Replay, ValidLength;
    var n := ValidLength(content);
    var cut := content[..n];
    if ReportOf(content).fileTruncated {
      assert cut[n..] == [] && cut[..n] == cut;
    }
  }

  /** The valid part of a file, on its own, is valid as a whole. */
  lemma {:induction false} ValidPrefix(s: seq<byte>)
    ensures var cut := s[..ValidLength(s)]; Replay(cut) == Replay(s) && ValidLength(cut) == ValidLength(s)
    decreases |s|
  {
    hide Acceptable, DecodeEntry;
    var cut := s[..ValidLength(s)];
    if Acceptable(s) {
      var n := FrameLength(s);
      var t := s[n..];
      ValidPrefix(t);
      SameFront(s, cut);
      assert cut[n..] == t[..ValidLength(t)];
    }
  }

  /** Acceptance depends on the frame's own bytes only. */
  lemma SameFront(s: seq<byte>, cut: seq<byte>)
    requires Acceptable(s) && FrameLength(s) <= |cut| <= |s| && cut == s[..|cut|]
    ensures Acceptable(cut) && FrameLength(cut) == FrameLength(s) && FrameEntry(cut) == FrameEntry(s)
  {
    hide Uint, Crc32, DecodeEntry;
    assert cut[4..8] == s[4..8] && cut[0..4] == s[0..4];
    assert cut[8..8 + Declared(s)] == s[8..8 + Declared(s)];
  }

  // ----- Writing -----

  class WAL {
    const id: nat
    const file: LogFile
    var bytesWritten: nat
    var closed: bool

    /** Opens the file for append. */
    constructor (id: nat, file: LogFile)
      ensures this.id == id && this.file == file && bytesWritten == |file.content| && !closed
    {
      this.id, this.file, bytesWritten, closed := id, file, |file.content|, false;
    }

    /** Appends one frame; under SyncAlways it is durable when the call returns. */
    method Write(e: Entry) returns (ok: bool)
      modifies this`bytesWritten, file
      ensures ok == !closed
      ensures file.content == if ok then old(file.content) + Frame(e) else old(file.content)
      ensures bytesWritten == old(bytesWritten) + |file.content| - |old(file.content)|
    {
      if closed {
        return false;
      }
      var scratch := new byte[1024](_ => 0);
      var buf, n := EncodeFrameTo(e, scratch);
      file.content := file.content + buf[..n];
      bytesWritten := bytesWritten + n;
      return true;
    }

    method Close()
      modifies this`closed
      ensures closed
    {
      closed := true;
    }
  }

  /** The frame, written into dst when it is large enough. */
  method EncodeFrameTo(e: Entry, dst: array<byte>) returns (buf: array<byte>, n: nat)
    modifies dst
    ensures n == 8 + e.EncodedSize() <= buf.Length && buf[..n] == Frame(e)
    ensures buf == dst || fresh(buf)
  {
    n := 8 + e.EncodedSize();
    if dst.Length >= n {
      buf := dst;
    } else {
      buf := new byte[n](_ => 0);
    }
    hide Crc32, Encoding, PutUint;
    PutEncoding(e, buf, 8);
    var payload := buf[8..n];
    assert payload == buf[..n][8..];
    assert payload == Encoding(e);
    PutFrameHeader(e, buf, payload);
    assert buf[..n] == buf[..8] + buf[8..n];
    assert buf[8..n] == payload;
  }

  method PutFrameHeader(e: Entry, buf: array<byte>, payload: seq<byte>)
    requires buf.Length >= 8
    modifies buf
    ensures buf[..8] == PutUint(Crc32(payload), 4) + PutUint(e.EncodedSize(), 4)
    ensures buf[8..] == old(buf[8..])
  {
    hide Crc32, PutUint;
    ghost var tail := buf[8..];
    PutField(buf, 0, Crc32(payload), 4);
    assert buf[8..] == buf[4..][4..];
    PutField(buf, 4, e.EncodedSize(), 4);
    assert buf[..4] + PutUint(e.EncodedSize(), 4) == buf[..8];
  }
}
