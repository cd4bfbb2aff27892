/** The sparse index: the first key and the place of each block (pkg/sstable/sparse_index.go). */
module BlockIndex {
  import opened Bytes
  import opened Entries

  datatype IndexEntry = IndexEntry(key: Key, offset: nat, length: nat) {
    predicate Encodable() {
      |key| < TWO16 && offset < TWO64 && length < TWO32
    }
  }

  function EntryBytes(e: IndexEntry): (b: seq<byte>)
    ensures |b| == |e.key| + 14
  {
    PutUint(|e.key|, 2) + e.key + PutUint(e.offset, 8) + PutUint(e.length, 4)
  }

  function EntriesBytes(es: seq<IndexEntry>): seq<byte> {
    if es == [] then [] else EntriesBytes(es[..|es| - 1]) + EntryBytes(es[|es| - 1])
  }

  /** [Count: 4B] then for each entry [KeyLen: 2B][Key][Offset: 8B][Length: 4B] */
  function IndexBytes(es: seq<IndexEntry>): seq<byte> {
    PutUint(|es|, 4) + EntriesBytes(es)
  }

  /** `count` entries from the front of s. */
  function ParseEntries(s: seq<byte>, count: nat): Result<seq<IndexEntry>>
    decreases count
  {
    if count == 0 then Ok([])
    else if |s| < 2 then Err("sparse index corrupted at key length")
    else
      var kLen := Uint(s[..2]);
      if 2 + kLen + 12 > |s| then Err("sparse index corrupted at entry")
      else
        var e := IndexEntry(s[2..2 + kLen], Uint(s[2 + kLen..10 + kLen]), Uint(s[10 + kLen..14 + kLen]));
        Prepend(Ok(e), ParseEntries(s[14 + kLen..], count - 1))
  }

  function ParseIndex(data: seq<byte>): Result<seq<IndexEntry>> {
    if |data| < 4 then Err("sparse index data too short")
    else ParseEntries(data[4..], Uint(data[0..4]))
  }

  /** The entry at `offset`, in terms of the whole file. */
  lemma EntryAt(data: seq<byte>, offset: nat, count: nat)
    requires offset + 2 <= |data| && count > 0
    ensures var at := offset + 2 + Uint(data[offset..offset + 2]);
      ParseEntries(data[offset..], count) ==
        if at + 12 > |data| then Err("sparse index corrupted at entry")
        else
          var e := IndexEntry(data[offset + 2..at], Uint(data[at..at + 8]), Uint(data[at + 8..at + 12]));
          Prepend(Ok(e), ParseEntries(data[at + 12..], count - 1))
  {
    hide Uint;
    var s := data[offset..];
    var k := Uint(s[..2]);
    assert s[..2] == data[offset..offset + 2];
    if 2 + k + 12 <= |s| {
      assert s[2..2 + k] == data[offset + 2..offset + 2 + k];
      assert s[2 + k..10 + k] == data[offset + 2 + k..offset + 10 + k];
      assert s[10 + k..14 + k] == data[offset + 10 + k..offset + 14 + k];
      assert s[14 + k..] == data[offset + 14 + k..];
    }
  }

  method Decode(data: seq<byte>) returns (r: Result<seq<IndexEntry>>)
    ensures r == ParseIndex(data)
  {
    hide Uint;
    if |data| < 4 {
      return Err("sparse index data too short");
    }
    var count := Uint(data[0..4]);
    var entries: seq<IndexEntry> := [];
    var offset := 4;
    AfterEnds(entries, ParseIndex(data));
    for i := 0 to count
      invariant 4 <= offset <= |data|
      invariant ParseIndex(data) == After(entries, ParseEntries(data[offset..], count - i))
    {
      if offset + 2 > |data| {
        return Err("sparse index corrupted at key length");
      }
      EntryAt(data, offset, count - i);
      var kLen := Uint(data[offset..offset + 2]);
      offset := offset + 2;
      if offset + kLen + 12 > |data| {
        return Err("sparse index corrupted at entry");
      }
      var key := data[offset..offset + kLen];
      offset := offset + kLen;
      var e := IndexEntry(key, Uint(data[offset..offset + 8]), Uint(data[offset + 8..offset + 12]));
      offset := offset + 12;
      AfterOneMore(entries, e, ParseEntries(data[offset..], count - i - 1));
      entries := entries + [e];
    }
    AfterEnds(entries, ParseIndex(data));
    r := Ok(entries);
  }

  // ----- Round trip -----

  lemma EntryFields(e: IndexEntry, rest: seq<byte>)
    requires e.Encodable()
    ensures var s := EntryBytes(e) + rest; var k := |e.key|;
      && Uint(s[..2]) == k && s[2..2 + k] == e.key
      && Uint(s[2 + k..10 + k]) == e.offset && Uint(s[10 + k..14 + k]) == e.length
      && s[14 + k..] == rest
  {
    var s, k := EntryBytes(e) + rest, |e.key|;
    assert s[..2] == PutUint(k, 2);
    assert s[2 + k..10 + k] == PutUint(e.offset, 8);
    assert s[10 + k..14 + k] == PutUint(e.length, 4);
    WidthValues();
    UintRoundTrip(k, 2);
    UintRoundTrip(e.offset, 8);
    UintRoundTrip(e.length, 4);
  }

  lemma Regroup(a: seq<byte>, b: seq<byte>, c: seq<byte>)
    ensures a + b + c == a + (b + c)
  {
  }

  lemma {:induction false} EntriesFromFront(es: seq<IndexEntry>)
    requires es != []
    ensures EntriesBytes(es) == EntryBytes(es[0]) + EntriesBytes(es[1..])
  {
    hide EntryBytes;
    var n := |es| - 1;
    if n == 0 {
      assert EntriesBytes(es[..0]) == [] && EntriesBytes(es[1..]) == [];
    } else {
      assert es[1..][..n - 1] == es[..n][1..];
      assert EntriesBytes(es) == EntriesBytes(es[..n]) + EntryBytes(es[n]);
      assert EntriesBytes(es[1..]) == EntriesBytes(es[..n][1..]) + EntryBytes(es[n]);
      hide EntriesBytes;
      EntriesFromFront(es[..n]);
      Regroup(EntryBytes(es[0]), EntriesBytes(es[..n][1..]), EntryBytes(es[n]));
    }
  }

  lemma {:induction false} EntriesRoundTrip(es: seq<IndexEntry>)
    requires forall e :: e in es ==> e.Encodable()
    ensures ParseEntries(EntriesBytes(es), |es|) == Ok(es)
  {
    if es != [] {
      EntriesFromFront(es);
      EntryFields(es[0], EntriesBytes(es[1..]));
      EntriesRoundTrip(es[1..]);
      assert es == [es[0]] + es[1..];
    }
  }

  /** Decoding an index gives back the entries that were encoded. */
  lemma IndexRoundTrip(es: seq<IndexEntry>)
    requires |es| < TWO32 && forall e :: e in es ==> e.Encodable()
    ensures ParseIndex(IndexBytes(es)) == Ok(es)
  {
    var data := IndexBytes(es);
    assert data[0..4] == PutUint(|es|, 4) && data[4..] == EntriesBytes(es);
    WidthValues();
    UintRoundTrip(|es|, 4);
    EntriesRoundTrip(es);
  }

  // ----- The index in memory -----

  ghost predicate Sorted(es: seq<IndexEntry>) {
    forall i, j :: 0 <= i < j < |es| ==> Less(es[i].key, es[j].key)
  }

  class SparseIndex {
    var entries: seq<IndexEntry>

    constructor (es: seq<IndexEntry>)
      ensures entries == es
    {
      entries := es;
    }

    method Add(key: Key, offset: nat, length: nat)
      modifies this
      ensures entries == old(entries) + [IndexEntry(key, offset, length)]
    {
      entries := entries + [IndexEntry(key, offset, length)];
    }

    /** In an index in order, the last block whose first key is at most `key`; none when every block starts above it. */
    method FindCandidateBlock(key: Key) returns (block: Option<IndexEntry>, ghost at: int)
      ensures -1 <= at < |entries|
      ensures block == if at == -1 then None else Some(entries[at])
      ensures Sorted(entries) ==> forall i :: 0 <= i < |entries| ==> (i <= at <==> AtMost(entries[i].key, key))
      ensures Sorted(entries) ==> (block.None? <==> forall e :: e in entries ==> Less(key, e.key))
      ensures Sorted(entries) && block.Some? ==>
        AtMost(block.value.key, key) && forall e :: e in entries && AtMost(e.key, key) ==>
          AtMost(e.key, block.value.key)
    {
      var low, high, bestIdx := 0, |entries| - 1, -1;
      LessIsStrictOrder();
      while low <= high
        invariant 0 <= low && bestIdx == low - 1 && low - 1 <= high < |entries|
        invariant Sorted(entries) ==> forall i :: 0 <= i < low ==> AtMost(entries[i].key, key)
        invariant Sorted(entries) ==> forall i :: high < i < |entries| ==> Less(key, entries[i].key)
      {
        var mid := (low + high) / 2;
        if AtMost(entries[mid].key, key) {
          bestIdx := mid;
          low := mid + 1;
        } else {
          high := mid - 1;
        }
      }
      at := bestIdx;
      block := if bestIdx == -1 then None else Some(entries[bestIdx]);
    }

    method Encode() returns (buf: seq<byte>)
      ensures buf == IndexBytes(entries)
    {
      buf := PutUint(|entries|, 4);
      for i := 0 to |entries|
        invariant buf == PutUint(|entries|, 4) + EntriesBytes(entries[..i])
      {
        ghost var was := buf;
        assert entries[..i + 1][..i] == entries[..i];
        buf := buf + PutUint(|entries[i].key|, 2);
        buf := buf + entries[i].key;
        buf := buf + (PutUint(entries[i].offset, 8) + PutUint(entries[i].length, 4));
        assert buf == was + EntryBytes(entries[i]);
      }
      assert entries[..|entries|] == entries;
    }
  }
}
