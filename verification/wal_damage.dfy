/**
 What recovery makes of a damaged log, in terms of the bytes of the file (pkg/wal/wal.go,
 `RecoverWithReport`): what stays in the file, and what is replayed now and after further appends.
 */
module WalDamage {
  import opened Bytes
  import opened Entries
  import opened Hashing
  import opened Wal

  /** One whole frame, of a length that recovery accepts, whose checksum is wrong or whose payload does not decode. */
  predicate BadFrame(f: seq<byte>) {
    && |f| >= 8 && Uint(f[4..8]) <= MAX_RECORD_PAYLOAD && |f| == 8 + Uint(f[4..8])
    && (Crc32(f[8..]) != Uint(f[0..4]) || DecodeEntry(f[8..]).Err?)
  }

  lemma BadNotAcceptable(f: seq<byte>, behind: seq<byte>)
    requires BadFrame(f)
    ensures !Acceptable(f + behind) && Replay(f + behind) == [] && ValidLength(f + behind) == 0
    ensures |f + behind| >= 8 && Declared(f + behind) == |f| - 8
  {
    hide Uint, Crc32, DecodeEntry;
    var s := f + behind;
    assert s[0..4] == f[0..4] && s[4..8] == f[4..8] && s[8..|f|] == f[8..];
  }

  /** Behind a run of acceptable frames the rest is replayed as if it stood alone. */
  lemma {:induction false} RunThen(s: seq<byte>, es: seq<Entry>, rest: seq<byte>)
    requires FrameRun(s, es, |s|)
    ensures Replay(s + rest) == es + Replay(rest) && ValidLength(s + rest) == |s| + ValidLength(rest)
    decreases |es|
  {
    hide Acceptable, FrameEntry, FrameLength;
    if es == [] {
      assert s + rest == rest && es + Replay(rest) == Replay(rest);
    } else {
      var n := FrameLength(s);
      FrontKept(s, rest);
      assert (s + rest)[n..] == s[n..] + rest;
      RunThen(s[n..], es[1..], rest);
      assert [es[0]] + (es[1..] + Replay(rest)) == es + Replay(rest);
    }
  }

  lemma FrontKept(s: seq<byte>, rest: seq<byte>)
    requires Acceptable(s)
    ensures Acceptable(s + rest) && FrameLength(s + rest) == FrameLength(s) && FrameEntry(s + rest) == FrameEntry(s)
  {
    hide Uint, Crc32, DecodeEntry;
    var t := s + rest;
    assert t[0..4] == s[0..4] && t[4..8] == s[4..8] && t[8..8 + Declared(s)] == s[8..8 + Declared(s)];
  }

  /** A bad frame at the end is cut off, so that later appends are replayed behind the entries before it. */
  lemma BadFrameAtEnd(valid: seq<byte>, es: seq<Entry>, f: seq<byte>, more: seq<Entry>)
    requires FrameRun(valid, es, |valid|) && BadFrame(f) && AllLoggable(more)
    ensures Recovered(valid + f) == valid && Replay(valid + f) == es
    ensures Replay(Recovered(valid + f) + Frames(more)) == es + more
  {
    hide FrameRun, Acceptable, Replay, ValidLength, Uint, Crc32, DecodeEntry, Frames;
    assert f + [] == f && es + [] == es;
    RunThen(valid, es, f);
    BadNotAcceptable(f, []);
    assert (valid + f)[|valid|..] == f && (valid + f)[..|valid|] == valid;
    RunThen(valid, es, Frames(more));
    ReplayFrames(more, []);
    ReplayNothing();
    assert Frames(more) + [] == Frames(more) && more + [] == more;
  }

  /** With anything behind it the file stays as it is, and nothing behind it, there now or appended, is replayed. */
  lemma BadFrameInMiddle(valid: seq<byte>, es: seq<Entry>, f: seq<byte>, behind: seq<byte>)
    requires FrameRun(valid, es, |valid|) && BadFrame(f) && behind != []
    ensures Recovered(valid + f + behind) == valid + f + behind && Replay(valid + f + behind) == es
  {
    hide FrameRun, Acceptable, Replay, ValidLength, Uint, Crc32, DecodeEntry;
    assert valid + f + behind == valid + (f + behind) && es + [] == es;
    RunThen(valid, es, f + behind);
    BadNotAcceptable(f, behind);
    assert (valid + (f + behind))[|valid|..] == f + behind;
    BadCrcOrPayload(f, behind);
  }

  lemma BadCrcOrPayload(f: seq<byte>, behind: seq<byte>)
    requires BadFrame(f)
    ensures var s := f + behind;
      && |s| >= 8 && 8 + Declared(s) <= |s|
      && (Crc32(s[8..8 + Declared(s)]) != Uint(s[0..4]) || DecodeEntry(s[8..8 + Declared(s)]).Err?)
  {
    hide Uint, Crc32, DecodeEntry;
    var s := f + behind;
    assert s[0..4] == f[0..4] && s[4..8] == f[4..8] && s[8..|f|] == f[8..];
  }

  /** Bytes behind the acceptable frames of a file are cut off exactly when they are at most a header or a frame. */
  lemma CutOffIs(rest: seq<byte>, fileSize: nat)
    requires !Acceptable(rest) && |rest| <= fileSize
    ensures CutOff(rest, fileSize) <==>
      rest != [] && (|rest| <= 8
        || (Uint(rest[4..8]) <= MAX_RECORD_PAYLOAD && Uint(rest[4..8]) <= fileSize && |rest| <= 8 + Uint(rest[4..8])))
  {
    hide Uint, Crc32, DecodeEntry;
  }

  /**
   On any bytes: what follows the acceptable frames is cut off exactly when it is no longer than a header, or
   its header declares a length within the limit and the file's size and nothing follows the frame so declared.
   Otherwise the file stays as it is.
   */
  lemma CutOffExactly(content: seq<byte>)
    ensures var n := ValidLength(content); var rest := content[n..];
      && (Recovered(content) != content <==>
            rest != [] && (|rest| <= 8
              || (Uint(rest[4..8]) <= MAX_RECORD_PAYLOAD && Uint(rest[4..8]) <= |content|
                && |rest| <= 8 + Uint(rest[4..8]))))
      && (Recovered(content) != content ==> Recovered(content) == content[..n])
  {
    hide Uint, Crc32, DecodeEntry, ValidLength, FrameRun, Replay, Acceptable, DamageOf, CutOff;
    ReplaysRun(content);
    CutOffIs(content[ValidLength(content)..], |content|);
    CutIsShorter(content, ValidLength(content));
  }

  /** What is said to be wrong with bytes that no acceptable frame starts. */
  lemma DamageExactly(rest: seq<byte>, fileSize: nat)
    requires !Acceptable(rest) && |rest| <= fileSize
    ensures var d := DamageOf(rest, fileSize);
      && (d == NoDamage <==> rest == [])
      && (d == BadCrcTail || d == CorruptMiddle <==>
            |rest| >= 8 && Uint(rest[4..8]) <= MAX_RECORD_PAYLOAD && 8 + Uint(rest[4..8]) <= |rest|
            && Crc32(rest[8..8 + Uint(rest[4..8])]) != Uint(rest[0..4]))
      && (d == DecodeError <==>
            |rest| >= 8 && Uint(rest[4..8]) <= MAX_RECORD_PAYLOAD && 8 + Uint(rest[4..8]) <= |rest|
            && Crc32(rest[8..8 + Uint(rest[4..8])]) == Uint(rest[0..4]))
      && (d == BadLength || d == BadLengthMiddle <==>
            |rest| >= 8 && (Uint(rest[4..8]) > MAX_RECORD_PAYLOAD || Uint(rest[4..8]) > fileSize))
  {
    hide Uint, Crc32, DecodeEntry;
  }

  /** What the report counts, and that it sees damage exactly when something is left over, at its start. */
  lemma ReportExactly(content: seq<byte>)
    ensures var r := ReportOf(content); var n := ValidLength(content); var rest := content[n..];
      && r.validRecords == |Replay(content)| && r.bytesRecovered == n
      && !Acceptable(rest) && r.damage == DamageOf(rest, |content|)
      && (r.damage == NoDamage <==> n == |content|) && r.damageOffset == (if n == |content| then 0 else n)
      && (r.fileTruncated <==> Recovered(content) != content)
      && (r.damage in {TruncatedTail, BadLength, BadCrcTail} ==> r.fileTruncated)
      && (r.damage in {NoDamage, BadLengthMiddle, CorruptMiddle} ==> !r.fileTruncated)
  {
    hide Uint, Crc32, DecodeEntry, ValidLength, FrameRun, Replay, Acceptable, DamageOf;
    ReplaysRun(content);
    DamageExactly(content[ValidLength(content)..], |content|);
    CutIsShorter(content, ValidLength(content));
    if CutOff(content[ValidLength(content)..], |content|) {
      assert ValidLength(content) != |content|;
    }
  }

  lemma CutIsShorter(content: seq<byte>, n: nat)
    requires n <= |content|
    ensures (content[..n] == content <==> n == |content|) && (content[n..] == [] <==> n == |content|)
  {
  }

  // ----- A byte changed on disk -----

  /** A frame with one byte of its checksum or payload changed is bad, whichever byte and whatever it became. */
  lemma FlippedIsBad(e: Entry, i: nat, x: byte)
    requires e.EncodedSize() <= MAX_RECORD_PAYLOAD && i < |Frame(e)| && (i < 4 || i >= 8) && x != Frame(e)[i]
    ensures BadFrame(Frame(e)[i := x])
  {
    var s := Frame(e);
    var f, n := s[i := x], e.EncodedSize();
    hide Frame, Uint, Crc32, DecodeEntry;
    assert s + [] == s;
    FrameFields(e, []);
    assert f[4..8] == s[4..8] && s[8..] == s[8..8 + n];
    if i < 4 {
      assert f[8..] == s[8..];
      OtherBytesOtherNumber(s[0..4], f[0..4], i);
    } else {
      var k := i - 8;
      var p := Encoding(e);
      assert s[8..] == p && f[0..4] == s[0..4];
      assert f[8..] == p[..k] + [x] + p[k + 1..] && p == p[..k] + [p[k]] + p[k + 1..];
      Crc32DetectsByte(p[..k], x, p[k], p[k + 1..]);
    }
  }

  lemma {:induction false} OtherBytesOtherNumber(a: seq<byte>, b: seq<byte>, i: nat)
    requires i < |a| == |b| && a[i] != b[i]
    ensures Uint(a) != Uint(b)
  {
    var n := |a| - 1;
    if i < n {
      OtherBytesOtherNumber(a[..n], b[..n], i);
    }
  }

  /**
   One byte of a written frame changed on disk, in its checksum or payload. In the last frame: recovery cuts that
   frame off, keeps all before it, and later appends are replayed. In an earlier one: the file stays as it is, and
   only what was written before that frame is ever replayed.
   */
  lemma FlippedByte(es: seq<Entry>, e: Entry, i: nat, x: byte, behind: seq<byte>, more: seq<Entry>)
    requires AllLoggable(es) && AllLoggable(more) && e.EncodedSize() <= MAX_RECORD_PAYLOAD
    requires i < |Frame(e)| && (i < 4 || i >= 8) && x != Frame(e)[i]
    ensures var content := Frames(es) + Frame(e)[i := x] + behind;
      && Replay(content) == es && Recovered(content) == (if behind == [] then Frames(es) else content)
      && Replay(Recovered(content) + Frames(more)) == if behind == [] then es + more else es
  {
    hide Frame, Frames, Acceptable, Replay, ValidLength, Recovered, BadFrame, FrameRun;
    FlippedIsBad(e, i, x);
    FramesAreRun(es);
    BadFrameAnywhere(Frames(es), es, Frame(e)[i := x], behind, more);
  }

  lemma BadFrameAnywhere(valid: seq<byte>, es: seq<Entry>, f: seq<byte>, behind: seq<byte>, more: seq<Entry>)
    requires FrameRun(valid, es, |valid|) && BadFrame(f) && AllLoggable(more)
    ensures var content := valid + f + behind;
      && Replay(content) == es && Recovered(content) == (if behind == [] then valid else content)
      && Replay(Recovered(content) + Frames(more)) == if behind == [] then es + more else es
  {
    hide Frames, Acceptable, Replay, ValidLength, Recovered, BadFrame, FrameRun;
    if behind == [] {
      assert valid + f + behind == valid + f;
      BadFrameAtEnd(valid, es, f, more);
    } else {
      BadFrameInMiddle(valid, es, f, behind);
      BadFrameInMiddle(valid, es, f, behind + Frames(more));
      assert valid + f + (behind + Frames(more)) == valid + f + behind + Frames(more);
    }
  }

  lemma FramesAreRun(es: seq<Entry>)
    requires AllLoggable(es)
    ensures FrameRun(Frames(es), es, |Frames(es)|)
  {
    hide Frames, Acceptable, FrameRun, Replay, ValidLength;
    ReplayFrames(es, []);
    ReplaysRun(Frames(es));
    assert Frames(es) + [] == Frames(es) && es + [] == es;
    ReplayNothing();
    NothingValid();
  }

  lemma NothingValid()
    ensures ValidLength([]) == 0
  {
  }
}
