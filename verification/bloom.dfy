/** The Bloom filter of a table (pkg/sstable/bloom.go). */
module Bloom {
  import opened Bytes
  import opened Entries
  import opened Hashing

  datatype Filter = Filter(bitmap: seq<byte>, bits: nat, k: nat) {
    /** What the constructor guarantees: every index falls into the bitmap. */
    predicate Sized() {
      bits == 8 * |bitmap| && bits > 0
    }
  }

  /** The i-th bit of a key; the sum is taken in 64 bits. */
  function Index(key: Key, i: nat, bits: nat): (j: nat)
    requires bits > 0
    ensures j < bits
  {
    var (h1, h2) := DoubleHash(key);
    (h1 + i * h2) % TWO64 % bits
  }

  /** With at most 30 hash functions the 64-bit sum does not wrap around. */
  lemma IndexDoesNotOverflow(key: Key, i: nat, bits: nat)
    requires bits > 0 && i < 30
    ensures var (h1, h2) := DoubleHash(key);
      h1 + i * h2 < TWO64 && Index(key, i, bits) == (h1 + i * h2) % bits
  {
    hide DoubleHash;
    var (h1, h2) := DoubleHash(key);
    SumFits(h1, h2, i);
    SmallMod(h1 + i * h2, TWO64);
  }

  lemma SmallMod(x: nat, n: nat)
    requires x < n
    ensures x % n == x
  {
  }

  lemma SumFits(h1: nat, h2: nat, i: nat)
    requires h1 < TWO32 && h2 < TWO32 && i < 30
    ensures h1 + i * h2 < TWO64
  {
    assert i * h2 <= 30 * TWO32;
  }

  predicate BitAt(bitmap: seq<byte>, j: nat)
    requires j / 8 < |bitmap|
  {
    Bit(bitmap[j / 8], j % 8)
  }

  function SetBit(bitmap: seq<byte>, j: nat): (r: seq<byte>)
    requires j / 8 < |bitmap|
    ensures |r| == |bitmap|
  {
    SetBitIsByte(bitmap[j / 8], j % 8);
    bitmap[j / 8 := Or(bitmap[j / 8], Pow2(j % 8))]
  }

  lemma SetBitIsByte(b: byte, j: nat)
    requires j < 8
    ensures Or(b, Pow2(j)) < 256
  {
    Pow2Values();
    Pow2Grows(j, 8);
    OrBound(b, Pow2(j), 8);
  }

  lemma SetBitSets(bitmap: seq<byte>, j: nat, q: nat)
    requires j / 8 < |bitmap| && q / 8 < |bitmap|
    ensures BitAt(SetBit(bitmap, j), q) <==> BitAt(bitmap, q) || q == j
  {
    if q / 8 == j / 8 {
      BitOfOr(bitmap[j / 8], Pow2(j % 8), q % 8);
      BitOfPow2(j % 8, q % 8);
    }
  }

  /** The filter after the first n bits of the key have been set. */
  function SetIndexes(f: Filter, key: Key, n: nat): (r: Filter)
    requires f.Sized()
    ensures r.Sized() && r.bits == f.bits && r.k == f.k
  {
    if n == 0 then f
    else
      var g := SetIndexes(f, key, n - 1);
      g.(bitmap := SetBit(g.bitmap, Index(key, n - 1, f.bits)))
  }

  function AddKey(f: Filter, key: Key): (r: Filter)
    requires f.Sized()
    ensures r.Sized() && r.bits == f.bits && r.k == f.k
  {
    SetIndexes(f, key, f.k)
  }

  function AddKeys(f: Filter, keys: seq<Key>): (r: Filter)
    requires f.Sized()
    ensures r.Sized() && r.bits == f.bits && r.k == f.k
  {
    if keys == [] then f else AddKey(AddKeys(f, keys[..|keys| - 1]), keys[|keys| - 1])
  }

  predicate MayHold(f: Filter, key: Key)
    requires f.bits == 0 || f.bitmap == [] || f.Sized()
  {
    f.bits == 0 || f.bitmap == [] || forall i :: 0 <= i < f.k ==> BitAt(f.bitmap, Index(key, i, f.bits))
  }

  /** Exactly the bits of the key are set in addition. */
  lemma {:induction false} SetIndexesBits(f: Filter, key: Key, n: nat, q: nat)
    requires f.Sized() && q < f.bits
    ensures BitAt(SetIndexes(f, key, n).bitmap, q) <==>
            BitAt(f.bitmap, q) || exists i :: 0 <= i < n && Index(key, i, f.bits) == q
  {
    if n > 0 {
      SetIndexesBits(f, key, n - 1, q);
      SetBitSets(SetIndexes(f, key, n - 1).bitmap, Index(key, n - 1, f.bits), q);
    }
  }

  /** Once set, a bit stays set over any further keys. */
  lemma {:induction false} BitsStaySet(f: Filter, keys: seq<Key>, q: nat)
    requires f.Sized() && q < f.bits && BitAt(f.bitmap, q)
    ensures BitAt(AddKeys(f, keys).bitmap, q)
  {
    if keys != [] {
      BitsStaySet(f, keys[..|keys| - 1], q);
      SetIndexesBits(AddKeys(f, keys[..|keys| - 1]), keys[|keys| - 1], f.k, q);
    }
  }

  /** One of the first k bits of one of the keys is bit q. */
  ghost predicate Probed(keys: seq<Key>, k: nat, bits: nat, q: nat)
    requires bits > 0
  {
    exists key, i: nat :: key in keys && i < k && Index(key, i, bits) == q
  }

  /** Exactly the bits of the keys added are set. */
  lemma {:induction false} AddKeysBits(f: Filter, keys: seq<Key>, q: nat)
    requires f.Sized() && q < f.bits
    ensures BitAt(AddKeys(f, keys).bitmap, q) <==> BitAt(f.bitmap, q) || Probed(keys, f.k, f.bits, q)
  {
    hide Index;
    if keys != [] {
      var n := |keys| - 1;
      AddKeysBits(f, keys[..n], q);
      SetIndexesBits(AddKeys(f, keys[..n]), keys[n], f.k, q);
      assert keys == keys[..n] + [keys[n]];
    }
  }

  /** Built from an empty bitmap, a filter may hold exactly the keys all of whose bits are bits of keys added. */
  lemma HeldExactly(f: Filter, keys: seq<Key>, key: Key)
    requires f.Sized() && forall j :: 0 <= j < |f.bitmap| ==> f.bitmap[j] == 0
    ensures MayHold(AddKeys(f, keys), key) <==>
      forall i :: 0 <= i < f.k ==> Probed(keys, f.k, f.bits, Index(key, i, f.bits))
  {
    hide Index, Probed, AddKeys;
    forall i | 0 <= i < f.k
      ensures BitAt(AddKeys(f, keys).bitmap, Index(key, i, f.bits)) <==>
        Probed(keys, f.k, f.bits, Index(key, i, f.bits))
    {
      var q := Index(key, i, f.bits);
      AddKeysBits(f, keys, q);
      NoBitOfZero(q % 8);
    }
  }

  /** No false negatives: a key that was added at any point of the run may be held. */
  lemma {:induction false} NoFalseNegatives(f: Filter, keys: seq<Key>, key: Key)
    requires f.Sized() && key in keys
    ensures MayHold(AddKeys(f, keys), key)
  {
    var was, last := AddKeys(f, keys[..|keys| - 1]), keys[|keys| - 1];
    if key in keys[..|keys| - 1] {
      NoFalseNegatives(f, keys[..|keys| - 1], key);
    }
    forall i | 0 <= i < f.k
      ensures BitAt(AddKeys(f, keys).bitmap, Index(key, i, f.bits))
    {
      SetIndexesBits(was, last, f.k, Index(key, i, f.bits));
    }
  }

  // ----- Encoding -----

  /** [Bits: 8B][K: 4B][Bitmap length: 4B][Bitmap bytes] */
  function FilterBytes(f: Filter): seq<byte> {
    PutUint(f.bits, 8) + PutUint(f.k, 4) + PutUint(|f.bitmap|, 4) + f.bitmap
  }

  function ParseFilter(data: seq<byte>): Result<Filter> {
    if |data| < 16 then Err("bloom filter buffer too short")
    else
      var bLen := Uint(data[12..16]);
      if |data| < 16 + bLen then Err("bloom filter payload truncated")
      else Ok(Filter(data[16..16 + bLen], Uint(data[0..8]), Uint(data[8..12])))
  }

  lemma FilterRoundTrip(f: Filter)
    requires f.bits < TWO64 && f.k < TWO32 && |f.bitmap| < TWO32
    ensures ParseFilter(FilterBytes(f)) == Ok(f)
  {
    var d := FilterBytes(f);
    assert d[0..8] == PutUint(f.bits, 8) && d[8..12] == PutUint(f.k, 4);
    assert d[12..16] == PutUint(|f.bitmap|, 4) && d[16..16 + |f.bitmap|] == f.bitmap;
    WidthValues();
    UintRoundTrip(f.bits, 8);
    UintRoundTrip(f.k, 4);
    UintRoundTrip(|f.bitmap|, 4);
  }

  // ----- The filter in memory -----

  class BloomFilter {
    const bitmap: array<byte>
    const bits: nat
    const k: nat

    ghost function Value(): (f: Filter)
      reads bitmap
    {
      Filter(bitmap[..], bits, k)
    }

    /** A filter of the given content, the empty one when the bitmap is all zero. */
    constructor (f: Filter)
      ensures Value() == f && fresh(bitmap)
    {
      var b := new byte[|f.bitmap|](i requires 0 <= i < |f.bitmap| => f.bitmap[i]);
      bitmap, bits, k := b, f.bits, f.k;
      new;
      assert bitmap[..] == f.bitmap;
    }

    method Add(key: Key)
      requires Value().Sized()
      modifies bitmap
      ensures Value() == AddKey(old(Value()), key)
    {
      hide DoubleHash, Or, Pow2, Index;
      ghost var was := Value();
      for i := 0 to k
        invariant Value() == SetIndexes(was, key, i)
      {
        var idx := Index(key, i, bits);
        SetBitIsByte(bitmap[idx / 8], idx % 8);
        ghost var now := bitmap[..];
        bitmap[idx / 8] := Or(bitmap[idx / 8], Pow2(idx % 8));
        assert bitmap[..] == SetBit(now, idx);
      }
    }

    method MayContain(key: Key) returns (r: bool)
      requires bits == 0 || bitmap.Length == 0 || Value().Sized()
      ensures r == MayHold(Value(), key)
    {
      if bits == 0 || bitmap.Length == 0 {
        return true;
      }
      for i := 0 to k
        invariant forall x :: 0 <= x < i ==> BitAt(bitmap[..], Index(key, x, bits))
      {
        var idx := Index(key, i, bits);
        AndTestsBit(bitmap[idx / 8], idx % 8);
        if And(bitmap[idx / 8], Pow2(idx % 8)) == 0 {
          assert !BitAt(bitmap[..], Index(key, i, bits));
          return false;
        }
      }
      return true;
    }
  }
}
