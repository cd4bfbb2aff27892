/** Entries of the store and their byte encoding (pkg/core/entry.go). */
module Entries {
  import opened Bytes

  datatype Option<+T> = None | Some(value: T)

  datatype Result<+T> = Ok(value: T) | Err(error: string)

  /** The result of reading one item and then the rest: the first error wins. */
  function Prepend<T>(item: Result<T>, rest: Result<seq<T>>): Result<seq<T>> {
    if item.Err? then Err(item.error) else if rest.Err? then rest else Ok([item.value] + rest.value)
  }

  /** The result once `done` has already been read. */
  function After<T>(done: seq<T>, rest: Result<seq<T>>): Result<seq<T>> {
    if rest.Err? then rest else Ok(done + rest.value)
  }

  lemma AfterOneMore<T>(done: seq<T>, item: T, rest: Result<seq<T>>)
    ensures After(done, Prepend(Ok(item), rest)) == After(done + [item], rest)
  {
    if rest.Ok? {
      assert done + ([item] + rest.value) == done + [item] + rest.value;
    }
  }

  lemma AfterEnds<T>(done: seq<T>, rest: Result<seq<T>>)
    ensures After([], rest) == rest && After(done, Ok([])) == Ok(done)
  {
    assert done + [] == done;
    if rest.Ok? {
      assert [] + rest.value == rest.value;
    }
  }

  type int64 = t: int | 0 - TWO63 <= t < TWO63

  const OP_PUT: byte := 1
  const OP_DELETE: byte := 2

  /** One operation on a key. A nil value and an empty value are both []. */
  datatype Entry = Entry(key: Key, value: seq<byte>, timestamp: int64, op: byte) {
    predicate IsTombstone() {
      op == OP_DELETE
    }

    function Size(): nat {
      |key| + |value| + 16
    }

    function EncodedSize(): nat {
      15 + |key| + |value|
    }

    /** The lengths fit their 2-byte and 4-byte fields. */
    predicate Encodable() {
      |key| < TWO16 && |value| < TWO32
    }

    /** A key, whose length fits its field, and a value that leaves room in a 4-byte block length. */
    predicate Storable() {
      0 < |key| < TWO16 && |value| < TWO31
    }
  }

  function PutEntry(key: Key, value: seq<byte>, now: int64): Entry {
    Entry(key, value, now, OP_PUT)
  }

  function DeleteEntry(key: Key, now: int64): Entry {
    Entry(key, [], now, OP_DELETE)
  }

  /** What a reader sees of a lookup: a tombstone and a missing key are both absent. */
  function Visible(found: Option<Entry>): Option<seq<byte>> {
    if found.Some? && !found.value.IsTombstone() then Some(found.value.value) else None
  }

  /** uint64(ts): two's complement. */
  function FromInt64(t: int64): (n: nat)
    ensures n < TWO64
  {
    if t >= 0 then t else t + TWO64
  }

  function ToInt64(n: nat): int64
    requires n < TWO64
  {
    if n < TWO63 then n else n - TWO64
  }

  function Header(e: Entry): (h: seq<byte>)
    ensures |h| == 15
  {
    PutUint(FromInt64(e.timestamp), 8) + [e.op] + PutUint(|e.key|, 2) + PutUint(|e.value|, 4)
  }

  /** [Timestamp: 8B][Type: 1B][KeyLen: 2B][ValLen: 4B][Key][Value] */
  function Encoding(e: Entry): (d: seq<byte>)
    ensures |d| == e.EncodedSize()
  {
    Header(e) + e.key + e.value
  }

  function DecodeEntry(data: seq<byte>): Result<Entry> {
    if |data| < 15 then Err("insufficient buffer for entry header") else
    UintBound(data[0..8]); WidthValues();
    var ts := ToInt64(Uint(data[0..8]));
    var kLen := Uint(data[9..11]);
    var vLen := Uint(data[11..15]);
    if |data| < 15 + kLen + vLen then Err("buffer corrupted or truncated")
    else Ok(Entry(data[15..15 + kLen], data[15 + kLen..15 + kLen + vLen], ts, data[8]))
  }

  /** Two bytes are what a key's length is read from. */
  lemma DecodedKeyShort(data: seq<byte>)
    ensures DecodeEntry(data).Ok? ==> |DecodeEntry(data).value.key| < TWO16
  {
    hide Uint;
    if DecodeEntry(data).Ok? {
      UintBound(data[9..11]);
      WidthValues();
    }
  }

  lemma HeaderFields(e: Entry, rest: seq<byte>)
    ensures var d := Header(e) + rest;
            && d[0..8] == PutUint(FromInt64(e.timestamp), 8)
            && d[8] == e.op
            && d[9..11] == PutUint(|e.key|, 2)
            && d[11..15] == PutUint(|e.value|, 4)
            && d[15..] == rest
  {}

  lemma BodySlices(h: seq<byte>, body: seq<byte>, k: nat, v: nat, rest: seq<byte>)
    requires |h| == 15 && k + v <= |body|
    ensures var d := h + body + rest;
            d[15..15 + k] == body[..k] && d[15 + k..15 + k + v] == body[k..k + v]
  {}

  /** What decoding makes of an encoding: the two bytes of the key's length say how much of key and value is the key. */
  function Shortened(e: Entry): Entry
    requires |e.value| < TWO32
  {
    var body, k := e.key + e.value, |e.key| % TWO16;
    Entry(body[..k], body[k..k + |e.value|], e.timestamp, e.op)
  }

  lemma ShortenedIffLong(e: Entry)
    requires |e.value| < TWO32
    ensures Shortened(e) == e <==> |e.key| < TWO16
  {
    if |e.key| < TWO16 {
      var body := e.key + e.value;
      assert body[..|e.key|] == e.key && body[|e.key|..|e.key| + |e.value|] == e.value;
    } else {
      assert |Shortened(e).key| < TWO16;
    }
  }

  lemma EncodingIs(e: Entry, rest: seq<byte>)
    ensures Encoding(e) + rest == Header(e) + (e.key + e.value) + rest
  {
    hide Header;
    assert Header(e) + e.key + e.value == Header(e) + (e.key + e.value);
  }

  /** For any key, whatever bytes follow the encoding. */
  lemma DecodesAsShortened(e: Entry, rest: seq<byte>)
    requires |e.value| < TWO32
    ensures DecodeEntry(Encoding(e) + rest) == Ok(Shortened(e))
  {
    hide Uint, PutUint, Header, Encoding, FromInt64, DecodeEntry, ToInt64;
    EncodedFields(e, rest);
    LengthFields(e);
    EncodingIs(e, rest);
    FromShortened(Header(e), e, rest);
    TimestampBack(e.timestamp);
  }

  lemma FromShortened(h: seq<byte>, e: Entry, rest: seq<byte>)
    requires |h| == 15 && |e.value| < TWO32
    requires var d := h + (e.key + e.value) + rest;
      && Uint(d[0..8]) == FromInt64(e.timestamp) && d[8] == e.op
      && Uint(d[9..11]) == |e.key| % TWO16 && Uint(d[11..15]) == |e.value|
    ensures DecodeEntry(h + (e.key + e.value) + rest) ==
      Ok(Shortened(e).(timestamp := ToInt64(FromInt64(e.timestamp))))
  {
    hide Uint, FromInt64, DecodeEntry, ToInt64;
    var k := |e.key| % TWO16;
    BodySlices(h, e.key + e.value, k, |e.value|, rest);
    DecodedFields(h + (e.key + e.value) + rest, FromInt64(e.timestamp), k, |e.value|);
  }

  lemma TimestampBack(t: int64)
    ensures ToInt64(FromInt64(t)) == t
  {
  }

  lemma EncodedFields(e: Entry, rest: seq<byte>)
    ensures var d := Encoding(e) + rest;
            && d[0..8] == PutUint(FromInt64(e.timestamp), 8)
            && d[8] == e.op
            && d[9..11] == PutUint(|e.key|, 2)
            && d[11..15] == PutUint(|e.value|, 4)
  {
    hide Header, PutUint;
    assert Encoding(e) + rest == Header(e) + (e.key + e.value + rest);
    HeaderFields(e, e.key + e.value + rest);
  }

  /** Decoding, given the values of the fields. */
  lemma DecodedFields(data: seq<byte>, ts: nat, kLen: nat, vLen: nat)
    requires |data| >= 15 + kLen + vLen && ts < TWO64
    requires Uint(data[0..8]) == ts && Uint(data[9..11]) == kLen && Uint(data[11..15]) == vLen
    ensures DecodeEntry(data) ==
      Ok(Entry(data[15..15 + kLen], data[15 + kLen..15 + kLen + vLen], ToInt64(ts), data[8]))
  {
    hide Uint;
  }

  lemma LengthFields(e: Entry)
    requires |e.value| < TWO32
    ensures Uint(PutUint(FromInt64(e.timestamp), 8)) == FromInt64(e.timestamp)
    ensures Uint(PutUint(|e.key|, 2)) == |e.key| % TWO16
    ensures Uint(PutUint(|e.value|, 4)) == |e.value|
  {
    WidthValues();
    UintRoundTrip(FromInt64(e.timestamp), 8);
    TwoBytesWrap(|e.key|);
    UintRoundTrip(|e.value|, 4);
  }

  lemma TwoBytesWrap(n: nat)
    ensures Uint(PutUint(n, 2)) == n % TWO16
  {
    var hi, lo := n / 256 % 256, n % 256;
    assert PutUint(n, 2) == [hi, lo] by {
      assert PutUint(n / 256, 1) == [hi];
    }
    assert Uint([hi]) == hi by {
      assert [hi][..0] == [];
    }
    assert [hi, lo][..1] == [hi];
  }

  /** Decoding gives back what was encoded, whatever bytes follow the encoding, exactly when the key's length fits. */
  lemma DecodeEntryRoundTrip(e: Entry, rest: seq<byte>)
    requires |e.value| < TWO32
    ensures DecodeEntry(Encoding(e) + rest) == Ok(e) <==> e.Encodable()
  {
    hide DecodeEntry, Encoding, Shortened;
    DecodesAsShortened(e, rest);
    ShortenedIffLong(e);
  }

  /** `binary.BigEndian.PutUintN(buf[at:], n)`, most significant byte first. */
  method PutField(buf: array<byte>, at: nat, n: nat, w: nat)
    requires at + w <= buf.Length
    modifies buf
    ensures buf[..at + w] == old(buf[..at]) + PutUint(n, w)
    ensures buf[at + w..] == old(buf[at + w..])
  {
    var i, rest := w, n;
    ghost var was := buf[..];
    while i > 0
      invariant 0 <= i <= w
      invariant buf[..at + i] == was[..at + i]
      invariant PutUint(n, w) == PutUint(rest, i) + buf[at + i..at + w]
      invariant buf[at + w..] == was[at + w..]
    {
      buf[at + i - 1] := rest % 256;
      assert buf[at + i - 1..at + w] == [rest % 256] + buf[at + i..at + w];
      rest, i := rest / 256, i - 1;
    }
    assert buf[..at + w] == buf[..at] + buf[at..at + w];
  }

  /** `copy(buf[at:], s)` */
  method CopyInto(buf: array<byte>, at: nat, s: seq<byte>)
    requires at + |s| <= buf.Length
    modifies buf
    ensures buf[..at + |s|] == old(buf[..at]) + s
    ensures buf[at + |s|..] == old(buf[at + |s|..])
  {
    for i := 0 to |s|
      invariant buf[..at + i] == old(buf[..at]) + s[..i]
      invariant buf[at + |s|..] == old(buf[at + |s|..])
    {
      buf[at + i] := s[i];
      assert buf[..at + (i + 1)] == buf[..at + i] + [s[i]];
    }
  }

  /** The fixed 15 bytes of an encoding. */
  method PutHeader(e: Entry, buf: array<byte>, at: nat)
    requires at + 15 <= buf.Length
    modifies buf
    ensures buf[..at + 15] == old(buf[..at]) + Header(e)
  {
    hide PutUint, FromInt64;
    ghost var was := buf[..at];
    PutField(buf, at, FromInt64(e.timestamp), 8);
    ghost var ts := buf[..at + 8];
    buf[at + 8] := e.op;
    assert buf[..at + 9] == ts + [e.op];
    PutField(buf, at + 9, |e.key|, 2);
    PutField(buf, at + 11, |e.value|, 4);
    HeaderInOrder(was, e);
  }

  lemma HeaderInOrder(before: seq<byte>, e: Entry)
    ensures before + PutUint(FromInt64(e.timestamp), 8) + [e.op] + PutUint(|e.key|, 2) + PutUint(|e.value|, 4)
         == before + Header(e)
  {
    hide PutUint, FromInt64;
  }

  method PutEncoding(e: Entry, buf: array<byte>, at: nat)
    requires at + e.EncodedSize() <= buf.Length
    modifies buf
    ensures buf[..at + e.EncodedSize()] == old(buf[..at]) + Encoding(e)
  {
    PutHeader(e, buf, at);
    CopyInto(buf, at + 15, e.key);
    CopyInto(buf, at + 15 + |e.key|, e.value);
  }

  /** The first n bytes of the result are the encoding; dst itself is reused when it is large enough. */
  method EncodeTo(e: Entry, dst: array<byte>) returns (buf: array<byte>, n: nat)
    modifies dst
    ensures n == e.EncodedSize() <= buf.Length
    ensures buf[..n] == Encoding(e)
    ensures if dst.Length >= n then buf == dst else fresh(buf) && dst[..] == old(dst[..])
  {
    n := e.EncodedSize();
    if dst.Length >= n {
      buf := dst;
    } else {
      buf := new byte[n](_ => 0);
    }
    PutEncoding(e, buf, 0);
  }
}
