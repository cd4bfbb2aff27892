/**
 Where each field of the formats lies, byte by byte: numbers are big-endian, digits decimal, and a
 list's items follow one another (pkg/core/entry.go, pkg/wal/wal.go, pkg/sstable).
 */
module Formats {
  import opened Bytes
  import opened Entries
  import opened Hashing
  import opened Decimal
  import opened Block
  import opened BlockIndex
  import opened Bloom
  import opened Wal
  import opened LogNames

  // ----- Numbers -----

  /** The most significant byte comes first. */
  lemma {:induction false} FieldByte(n: nat, w: nat, i: nat)
    requires i < w
    ensures PutUint(n, w)[i] == n / Pow256(w - 1 - i) % 256
  {
    if i < w - 1 {
      FieldByte(n / 256, w - 1, i);
      DividedTwice(n, 256, Pow256(w - 2 - i));
    }
  }

  /** Any bytes are the field of the number they are read as. */
  lemma {:induction false} FieldBack(s: seq<byte>)
    ensures PutUint(Uint(s), |s|) == s
  {
    if s != [] {
      FieldBack(s[..|s| - 1]);
    }
  }

  /** The digit of 10^(w - 1 - i). */
  lemma {:induction false} DigitAt(n: nat, w: nat, i: nat)
    requires i < w
    ensures Digits(n, w)[i] == 48 + n / Pow10(w - 1 - i) % 10
  {
    if i < w - 1 {
      DigitAt(n / 10, w - 1, i);
      DividedTwice(n, 10, Pow10(w - 2 - i));
    }
  }

  // ----- Entries and frames -----

  /** [Timestamp: 8B][Type: 1B][KeyLen: 2B][ValLen: 4B][Key][Value], the timestamp in two's complement. */
  lemma EntryFields(key: Key, value: seq<byte>, now: int64)
    ensures var d := Encoding(PutEntry(key, value, now));
            && d[0..8] == PutUint(if now < 0 then now + 0x1_0000_0000_0000_0000 else now, 8) && d[8] == 1
            && d[9..11] == PutUint(|key|, 2) && d[11..15] == PutUint(|value|, 4) && d[15..] == key + value
    ensures var d := Encoding(DeleteEntry(key, now));
            && d[0..8] == PutUint(if now < 0 then now + 0x1_0000_0000_0000_0000 else now, 8) && d[8] == 2
            && d[9..11] == PutUint(|key|, 2) && d[11..15] == PutUint(0, 4) && d[15..] == key
  {
    hide PutUint;
    var p, d := PutEntry(key, value, now), DeleteEntry(key, now);
    assert Encoding(p) == Header(p) + (key + value) && Encoding(d) == Header(d) + (key + []);
    HeaderFields(p, key + value);
    HeaderFields(d, key + []);
    assert key + [] == key;
  }

  lemma SliceOfSlice(d: seq<byte>, at: nat, b: seq<byte>, lo: nat, hi: nat)
    requires at + |b| <= |d| && d[at..at + |b|] == b && lo <= hi <= |b|
    ensures d[at + lo..at + hi] == b[lo..hi]
  {
    forall i | lo <= i < hi
      ensures d[at + i] == b[i]
    {
      assert d[at..at + |b|][i] == b[i];
    }
    assert d[at + lo..at + hi] == b[lo..hi];
  }

  lemma {:induction false} FrameAt(es: seq<Entry>, i: nat)
    requires i < |es|
    ensures var d, at, f := Frames(es), |Frames(es[..i])|, Frame(es[i]); at + |f| <= |d| && d[at..at + |f|] == f
  {
    hide Frame;
    if i > 0 {
      FrameAt(es[1..], i - 1);
      assert es[1..][..i - 1] == es[..i][1..];
    }
  }

  lemma FrameParts(e: Entry)
    ensures var f, n := Frame(e), e.EncodedSize();
      && f[0..4] == PutUint(Crc32(Encoding(e)), 4) && f[4..8] == PutUint(n, 4) && f[8..8 + n] == Encoding(e)
  {
    hide PutUint, Crc32, Encoding;
  }

  /** [CRC32: 4B][Length: 4B][Payload], one frame behind the other. */
  lemma FramesInOrder(es: seq<Entry>, i: nat)
    requires i < |es|
    ensures var d, at, n := Frames(es), |Frames(es[..i])|, es[i].EncodedSize();
            && at + 8 + n <= |d| && d[at + 8..at + 8 + n] == Encoding(es[i])
            && d[at..at + 4] == PutUint(Crc32(Encoding(es[i])), 4) && d[at + 4..at + 8] == PutUint(n, 4)
  {
    hide PutUint, Crc32, Encoding, Frames, Frame;
    FrameAt(es, i);
    FrameParts(es[i]);
    var d, at, f, n := Frames(es), |Frames(es[..i])|, Frame(es[i]), es[i].EncodedSize();
    SliceOfSlice(d, at, f, 0, 4);
    SliceOfSlice(d, at, f, 4, 8);
    SliceOfSlice(d, at, f, 8, 8 + n);
  }

  // ----- Tables -----

  /** A block is its records, each behind its length in four bytes, and then their checksum. */
  lemma BlockFields(es: seq<Entry>, i: nat)
    requires i < |es|
    ensures var d, at, n := BlockBytes(es), |Payload(es[..i])|, es[i].EncodedSize();
            && at + 4 + n <= |d| - 4
            && d[at..at + 4] == PutUint(n, 4) && d[at + 4..at + 4 + n] == Encoding(es[i])
            && d[|d| - 4..] == PutUint(Crc32(d[..|d| - 4]), 4)
  {
    hide PutUint, Crc32, Encoding;
    var d := BlockBytes(es);
    assert d[..|d| - 4] == Payload(es) && d[|d| - 4..] == PutUint(Crc32(Payload(es)), 4);
    PayloadFields(es, i);
  }

  lemma {:induction false} RecordAt(es: seq<Entry>, i: nat)
    requires i < |es|
    ensures var d, at, f := Payload(es), |Payload(es[..i])|, Framed(es[i]); at + |f| <= |d| && d[at..at + |f|] == f
  {
    hide Framed;
    var m := |es| - 1;
    if i < m {
      RecordAt(es[..m], i);
      assert es[..m][..i] == es[..i];
    }
  }

  lemma FramedParts(e: Entry)
    ensures var f, n := Framed(e), e.EncodedSize(); f[0..4] == PutUint(n, 4) && f[4..4 + n] == Encoding(e)
  {
    hide PutUint, Encoding;
  }

  lemma PayloadFields(es: seq<Entry>, i: nat)
    requires i < |es|
    ensures var d, at, n := Payload(es), |Payload(es[..i])|, es[i].EncodedSize();
            && at + 4 + n <= |d| && d[at..at + 4] == PutUint(n, 4) && d[at + 4..at + 4 + n] == Encoding(es[i])
  {
    hide PutUint, Encoding, Payload, Framed;
    RecordAt(es, i);
    FramedParts(es[i]);
    var d, at, f, n := Payload(es), |Payload(es[..i])|, Framed(es[i]), es[i].EncodedSize();
    SliceOfSlice(d, at, f, 0, 4);
    SliceOfSlice(d, at, f, 4, 4 + n);
  }

  /** A block with one byte changed, whichever and to whatever, is refused. */
  lemma ChangedBlockRefused(es: seq<Entry>, i: nat, x: byte)
    requires i < |BlockBytes(es)| && x != BlockBytes(es)[i]
    ensures ParseBlock(BlockBytes(es)[i := x]) == Err("sstable: block CRC32 checksum mismatch")
  {
    hide Crc32, Uint, PutUint, Payload, CountFrames, FillFrames;
    var d, p := BlockBytes(es), Payload(es);
    var f, n := d[i := x], |p|;
    assert |d| == n + 4 && d[..n] == p && d[n..] == PutUint(Crc32(p), 4);
    WidthValues();
    UintRoundTrip(Crc32(p), 4);
    if i < n {
      assert f[n..] == d[n..] && f[..n] == p[..i] + [x] + p[i + 1..] && p == p[..i] + [p[i]] + p[i + 1..];
      Crc32DetectsByte(p[..i], x, p[i], p[i + 1..]);
    } else {
      assert f[..n] == p && f[n..] == d[n..][i - n := x];
      FieldBack(f[n..]);
      FieldBack(d[n..]);
    }
  }

  /** The number of index entries in four bytes, and then for each [KeyLen: 2B][Key][Offset: 8B][Length: 4B]. */
  lemma IndexFields(es: seq<IndexEntry>, i: nat)
    requires i < |es|
    ensures var d, at, k := IndexBytes(es), 4 + |EntriesBytes(es[..i])|, |es[i].key|;
            && d[0..4] == PutUint(|es|, 4) && at + k + 14 <= |d|
            && d[at..at + 2] == PutUint(k, 2) && d[at + 2..at + 2 + k] == es[i].key
            && d[at + 2 + k..at + 10 + k] == PutUint(es[i].offset, 8)
            && d[at + 10 + k..at + 14 + k] == PutUint(es[i].length, 4)
  {
    hide PutUint, EntryBytes, IndexBytes, EntriesBytes;
    IndexEntryAt(es, i);
    EntryBytesFields(es[i]);
    var d, at, b := IndexBytes(es), 4 + |EntriesBytes(es[..i])|, EntryBytes(es[i]);
    var k := |es[i].key|;
    SliceOfSlice(d, at, b, 0, 2);
    SliceOfSlice(d, at, b, 2, 2 + k);
    SliceOfSlice(d, at, b, 2 + k, 10 + k);
    SliceOfSlice(d, at, b, 10 + k, 14 + k);
  }

  lemma IndexEntryAt(es: seq<IndexEntry>, i: nat)
    requires i < |es|
    ensures var d, at, b := IndexBytes(es), 4 + |EntriesBytes(es[..i])|, EntryBytes(es[i]);
      at + |b| <= |d| && d[0..4] == PutUint(|es|, 4) && d[at..at + |b|] == b
  {
    hide PutUint, EntryBytes, EntriesBytes;
    EntriesFields(es, i);
  }

  lemma EntryBytesFields(e: IndexEntry)
    ensures var b, k := EntryBytes(e), |e.key|;
            && b[0..2] == PutUint(k, 2) && b[2..2 + k] == e.key
            && b[2 + k..10 + k] == PutUint(e.offset, 8) && b[10 + k..14 + k] == PutUint(e.length, 4)
  {
    hide PutUint;
  }

  lemma {:induction false} EntriesFields(es: seq<IndexEntry>, i: nat)
    requires i < |es|
    ensures var d, at, b := EntriesBytes(es), |EntriesBytes(es[..i])|, EntryBytes(es[i]);
            at + |b| <= |d| && d[at..at + |b|] == b
  {
    hide EntryBytes;
    var m := |es| - 1;
    if i < m {
      EntriesFields(es[..m], i);
      assert es[..m][..i] == es[..i];
    }
  }

  /** [Bits: 8B][K: 4B][Bitmap length: 4B][Bitmap] */
  lemma FilterFields(f: Filter)
    ensures var d := FilterBytes(f);
            && d[0..8] == PutUint(f.bits, 8) && d[8..12] == PutUint(f.k, 4)
            && d[12..16] == PutUint(|f.bitmap|, 4) && d[16..] == f.bitmap
  {
    hide PutUint;
  }

  // ----- Log names -----

  /** "wal_%06d.log" */
  lemma LogNameSpelled(id: nat, i: nat)
    requires id < 1000000 && i < 6
    ensures var s := LogName(id);
            && |s| == 14 && s[..4] == [119, 97, 108, 95] && s[10..] == [46, 108, 111, 103]
            && s[4 + i] == 48 + id / Pow10(5 - i) % 10
  {
    WidthWithin(id, 6);
    DigitAt(id, 6, i);
  }
}
