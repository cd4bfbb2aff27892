/** Data blocks: length-prefixed entries and a checksum (pkg/sstable/block.go). */
module Block {
  import opened Bytes
  import opened Entries
  import opened Hashing

  function Framed(e: Entry): (f: seq<byte>)
    ensures |f| == 4 + e.EncodedSize()
  {
    PutUint(e.EncodedSize(), 4) + Encoding(e)
  }

  function Payload(es: seq<Entry>): seq<byte> {
    if es == [] then [] else Payload(es[..|es| - 1]) + Framed(es[|es| - 1])
  }

  function BlockBytes(es: seq<Entry>): seq<byte> {
    Payload(es) + PutUint(Crc32(Payload(es)), 4)
  }

  /** Each encoding fits the 4-byte length in front of it. */
  predicate Sized(es: seq<Entry>) {
    forall i :: 0 <= i < |es| ==> es[i].EncodedSize() < TWO32
  }

  method Encode(es: seq<Entry>) returns (data: seq<byte>)
    ensures data == BlockBytes(es)
  {
    var payload: seq<byte> := [];
    for i := 0 to |es|
      invariant payload == Payload(es[..i])
    {
      assert es[..i + 1][..i] == es[..i];
      payload := payload + PutUint(es[i].EncodedSize(), 4);
      payload := payload + Encoding(es[i]);
    }
    assert es[..|es|] == es;
    data := payload + PutUint(Crc32(payload), 4);
  }

  const CORRUPT := "sstable: corrupt data block"

  /** How many frames the payload is made of; None when it does not end with a frame. */
  function CountFrames(p: seq<byte>): Option<nat> {
    if p == [] then Some(0)
    else if |p| < 4 then None
    else
      var n := 4 + Uint(p[..4]);
      if n > |p| then None
      else
        var rest := CountFrames(p[n..]);
        if rest.None? then None else Some(1 + rest.value)
  }

  /** The entries of a payload that is made of whole frames; the first bad entry fails it. */
  function FillFrames(p: seq<byte>): Result<seq<Entry>>
    requires CountFrames(p).Some?
    decreases |p|
  {
    if p == [] then Ok([])
    else
      var n := 4 + Uint(p[..4]);
      Prepend(DecodeEntry(p[4..n]), FillFrames(p[n..]))
  }

  function ParseBlock(data: seq<byte>): Result<seq<Entry>> {
    if |data| < 4 then Err(CORRUPT)
    else
      var p := data[..|data| - 4];
      if Crc32(p) != Uint(data[|data| - 4..]) then Err("sstable: block CRC32 checksum mismatch")
      else if CountFrames(p).None? then Err(CORRUPT)
      else FillFrames(p)
  }

  /** Whatever a block was written from, no entry with a key of 2^16 bytes or more is read from it. */
  lemma ParsedKeysShort(data: seq<byte>)
    ensures ParseBlock(data).Ok? ==> forall e :: e in ParseBlock(data).value ==> |e.key| < TWO16
  {
    hide Crc32, FillFrames, CountFrames;
    if ParseBlock(data).Ok? {
      FilledKeysShort(data[..|data| - 4]);
    }
  }

  lemma {:induction false} FilledKeysShort(p: seq<byte>)
    requires CountFrames(p).Some?
    ensures FillFrames(p).Ok? ==> forall e :: e in FillFrames(p).value ==> |e.key| < TWO16
    decreases |p|
  {
    hide DecodeEntry, Uint;
    if p != [] {
      var n := 4 + Uint(p[..4]);
      DecodedKeyShort(p[4..n]);
      FilledKeysShort(p[n..]);
    }
  }

  /** The counting pass: None at the first frame that runs past the payload. */
  method CountPass(payload: seq<byte>) returns (count: Option<nat>)
    ensures count == CountFrames(payload)
  {
    hide Uint;
    var n, scanOff := 0, 0;
    while scanOff < |payload|
      invariant 0 <= scanOff <= |payload|
      invariant CountFrames(payload) ==
        (var r := CountFrames(payload[scanOff..]); if r.None? then None else Some(n + r.value))
    {
      if scanOff + 4 > |payload| {
        return None;
      }
      var entryLen := Uint(payload[scanOff..scanOff + 4]);
      assert payload[scanOff..][..4] == payload[scanOff..scanOff + 4];
      if scanOff + 4 + entryLen > |payload| {
        return None;
      }
      assert payload[scanOff..][4 + entryLen..] == payload[scanOff + 4 + entryLen..];
      scanOff := scanOff + (4 + entryLen);
      n := n + 1;
    }
    return Some(n);
  }

  /** One frame at `offset`, in terms of the whole payload. */
  lemma FrameAt(payload: seq<byte>, offset: nat)
    requires offset < |payload| && CountFrames(payload[offset..]).Some?
    ensures offset + 4 <= |payload|
    ensures var next := offset + 4 + Uint(payload[offset..offset + 4]);
      && next <= |payload| && CountFrames(payload[next..]).Some?
      && CountFrames(payload[offset..]).value == 1 + CountFrames(payload[next..]).value
      && FillFrames(payload[offset..]) ==
         Prepend(DecodeEntry(payload[offset + 4..next]), FillFrames(payload[next..]))
  {
    hide Uint, DecodeEntry;
    var rest := payload[offset..];
    var n := 4 + Uint(rest[..4]);
    assert rest[..4] == payload[offset..offset + 4];
    assert rest[4..n] == payload[offset + 4..offset + n];
    assert rest[n..] == payload[offset + n..];
  }

  /** The filling pass: the array of `count` entries is filled exactly. */
  method FillPass(payload: seq<byte>, count: nat) returns (r: Result<seq<Entry>>)
    requires CountFrames(payload) == Some(count)
    ensures r == FillFrames(payload)
    ensures r.Ok? ==> |r.value| == count
  {
    hide Uint, DecodeEntry;
    var entries := new Entry[count](_ => Entry([], [], 0, 0));
    var idx, offset := 0, 0;
    assert payload[0..] == payload;
    AfterEnds(entries[..0], FillFrames(payload));
    while offset < |payload|
      invariant 0 <= offset <= |payload| && 0 <= idx <= count
      invariant CountFrames(payload[offset..]) == Some(count - idx)
      invariant FillFrames(payload) == After(entries[..idx], FillFrames(payload[offset..]))
      decreases |payload| - offset
    {
      FrameAt(payload, offset);
      var entryLen := Uint(payload[offset..offset + 4]);
      offset := offset + 4;
      var e := DecodeEntry(payload[offset..offset + entryLen]);
      if e.Err? {
        return Err(e.error);
      }
      AfterOneMore(entries[..idx], e.value, FillFrames(payload[offset + entryLen..]));
      entries[idx] := e.value;
      assert entries[..idx + 1] == entries[..idx] + [e.value];
      idx := idx + 1;
      offset := offset + entryLen;
    }
    AfterEnds(entries[..idx], FillFrames(payload));
    assert entries[..] == entries[..idx];
    r := Ok(entries[..]);
  }

  method Decode(data: seq<byte>) returns (r: Result<seq<Entry>>)
    ensures r == ParseBlock(data)
  {
    if |data| < 4 {
      return Err(CORRUPT);
    }
    var payload := data[..|data| - 4];
    if Crc32(payload) != Uint(data[|data| - 4..]) {
      return Err("sstable: block CRC32 checksum mismatch");
    }
    var count := CountPass(payload);
    if count.None? {
      return Err(CORRUPT);
    }
    r := FillPass(payload, count.value);
  }

  // ----- Round trip -----

  lemma FrameFields(e: Entry, rest: seq<byte>)
    requires e.EncodedSize() < TWO32
    ensures var p := Framed(e) + rest; var n := 4 + e.EncodedSize();
      && Uint(p[..4]) == e.EncodedSize() && n <= |p| && p[n..] == rest
      && DecodeEntry(p[4..n]) == Ok(Shortened(e))
  {
    hide DecodeEntry, Uint, PutUint, Shortened, Encoding;
    var p := Framed(e) + rest;
    assert p[..4] == PutUint(e.EncodedSize(), 4);
    WidthValues();
    UintRoundTrip(e.EncodedSize(), 4);
    assert p[4..4 + e.EncodedSize()] == Encoding(e) == Encoding(e) + [];
    DecodesAsShortened(e, []);
  }

  lemma Regroup(a: seq<byte>, b: seq<byte>, c: seq<byte>)
    ensures a + b + c == a + (b + c)
  {
  }

  /** Payload, read from the front. */
  lemma {:induction false} PayloadFromFront(es: seq<Entry>)
    requires es != []
    ensures Payload(es) == Framed(es[0]) + Payload(es[1..])
  {
    hide Framed;
    var n := |es| - 1;
    if n == 0 {
      assert Payload(es[..0]) == [] && Payload(es[1..]) == [];
    } else {
      assert es[1..][..n - 1] == es[..n][1..];
      assert Payload(es) == Payload(es[..n]) + Framed(es[n]);
      assert Payload(es[1..]) == Payload(es[..n][1..]) + Framed(es[n]);
      hide Payload;
      PayloadFromFront(es[..n]);
      Regroup(Framed(es[0]), Payload(es[..n][1..]), Framed(es[n]));
    }
  }

  /** Each entry as it is read back. */
  function AllShortened(es: seq<Entry>): seq<Entry>
    requires Sized(es)
  {
    if es == [] then [] else [Shortened(es[0])] + AllShortened(es[1..])
  }

  lemma {:induction false} FramesReadBack(es: seq<Entry>)
    requires Sized(es)
    ensures CountFrames(Payload(es)) == Some(|es|)
    ensures FillFrames(Payload(es)) == Ok(AllShortened(es))
  {
    hide Uint, DecodeEntry, Framed, Shortened;
    if es != [] {
      PayloadFromFront(es);
      FrameFields(es[0], Payload(es[1..]));
      FramesReadBack(es[1..]);
    }
  }

  lemma {:induction false} ShortenedSame(es: seq<Entry>)
    requires Sized(es)
    ensures AllShortened(es) == es <==> forall e :: e in es ==> |e.key| < TWO16
  {
    hide Shortened;
    if es != [] {
      assert es == [es[0]] + es[1..] && es[0] in es;
      ShortenedIffLong(es[0]);
      ShortenedSame(es[1..]);
    }
  }

  /** Decoding a block gives back the entries that were encoded, exactly when their keys' lengths fit. */
  lemma {:induction false} BlockRoundTrip(es: seq<Entry>)
    requires Sized(es)
    ensures ParseBlock(BlockBytes(es)) == Ok(es) <==> forall e :: e in es ==> |e.key| < TWO16
  {
    var data := BlockBytes(es);
    var p := Payload(es);
    assert data[..|data| - 4] == p && data[|data| - 4..] == PutUint(Crc32(p), 4);
    hide AllShortened, Uint, PutUint, Crc32, CountFrames, FillFrames, Sized;
    WidthValues();
    UintRoundTrip(Crc32(p), 4);
    FramesReadBack(es);
    ShortenedSame(es);
  }
}
