/** Reading an SSTable: point lookup, iteration and seek (pkg/sstable/reader.go). */
module Reader {
  import opened Bytes
  import opened Entries
  import opened Runs
  import opened Cuts
  import Block
  import Builder
  import opened BlockIndex
  import opened Bloom
  import opened TableFormat

  class SSTableReader {
    const meta: Metadata
    const index: SparseIndex
    const bloom: BloomFilter
    const data: seq<byte>
    var closed: bool
    var bypassBloom: bool

    constructor (files: Files, entries: seq<IndexEntry>, filter: Filter)
      ensures meta == files.meta && data == files.data && !closed && !bypassBloom
      ensures index.entries == entries && bloom.Value() == filter
      ensures fresh(index) && fresh(bloom.bitmap)
    {
      meta, data, closed, bypassBloom := files.meta, files.data, false, false;
      var ix := new SparseIndex(entries);
      var bf := new BloomFilter(filter);
      index, bloom := ix, bf;
    }

    /** The reader is over the files of a table built from `run`. */
    ghost predicate Over(run: seq<Entry>, blockSize: nat)
      reads this, index, bloom.bitmap
    {
      && TableRun(run) && run != []
      && IndexDescribes(data, index.entries, BlocksOf(run, blockSize))
      && meta.minKey == run[0].key && meta.maxKey == run[|run| - 1].key
      && bloom.Value().Sized() && (forall e :: e in run ==> MayHold(bloom.Value(), e.key))
    }

    /** The bytes that an index entry points at; an error when they run past the end of the file. */
    method ReadBlock(e: IndexEntry) returns (r: Result<seq<Entry>>)
      ensures r == if e.offset + e.length > |data| then Err("EOF")
                   else Block.ParseBlock(data[e.offset..e.offset + e.length])
    {
      if e.offset + e.length > |data| {
        return Err("EOF");
      }
      r := Block.Decode(data[e.offset..e.offset + e.length]);
    }

    /**
     The lookup finds exactly the entry the table was built with, or nothing, whether or not the
     Bloom filter is asked. Whatever the files, it never finds a key of 2^16 bytes or more.
     */
    method Get(key: Key, ghost run: seq<Entry>, ghost blockSize: nat) returns (r: Result<Option<Entry>>)
      requires bloom.Value().Sized()
      ensures Over(run, blockSize) ==> r == if closed then Err("database is closed") else Ok(Find(run, key))
      ensures r.Ok? && r.value.Some? ==> r.value.value.key == key && |key| < TWO16
    {
      if closed {
        return Err("database is closed");
      }
      hide Over, Less, MayHold, BloomFilter.Value, Filter.Sized, TableRun;
      Misses(run, blockSize, key);
      if |meta.minKey| > 0 && Less(key, meta.minKey) {
        return Ok(None);
      }
      if |meta.maxKey| > 0 && Less(meta.maxKey, key) {
        return Ok(None);
      }
      if !bypassBloom {
        var may := bloom.MayContain(key);
        if !may {
          return Ok(None);
        }
      }
      r := Lookup(key, run, blockSize);
    }

    /** What the bounds and the filter rule out. */
    lemma Misses(run: seq<Entry>, blockSize: nat, key: Key)
      ensures Over(run, blockSize) ==>
        && TableRun(run) && IndexDescribes(data, index.entries, BlocksOf(run, blockSize))
        && (Less(key, meta.minKey) || Less(meta.maxKey, key) || !MayHold(bloom.Value(), key) ==> Find(run, key).None?)
    {
      hide IndexDescribes, MayHold, BloomFilter.Value, Filter.Sized, TableRun, Less;
      if Over(run, blockSize) {
        OutOfBounds(run, key);
        if !MayHold(bloom.Value(), key) {
          FindNone(run, key);
        }
      }
    }

    /** Lookup once range and filter have let the key through. */
    method Lookup(key: Key, ghost run: seq<Entry>, ghost blockSize: nat) returns (r: Result<Option<Entry>>)
      ensures TableRun(run) && IndexDescribes(data, index.entries, BlocksOf(run, blockSize)) ==> r == Ok(Find(run, key))
      ensures r.Ok? && r.value.Some? ==> r.value.value.key == key && |key| < TWO16
    {
      hide Block.ParseBlock, BlocksOf, Less, Sorted, TableRun, IndexDescribes;
      var entry, at := index.FindCandidateBlock(key);
      ReadsRun(key, run, blockSize, entry, at);
      if entry.None? {
        return Ok(None);
      }
      var block := ReadBlock(entry.value);
      if block.Ok? {
        Block.ParsedKeysShort(data[entry.value.offset..entry.value.offset + entry.value.length]);
        FoundIn(block.value, key);
      }
      r := FindInRead(block, key);
    }

    /** The candidate's block is the one that can hold the key. */
    lemma ReadsRun(key: Key, run: seq<Entry>, blockSize: nat, entry: Option<IndexEntry>, at: int)
      requires -1 <= at < |index.entries| && entry == if at == -1 then None else Some(index.entries[at])
      requires Sorted(index.entries) ==>
        forall i :: 0 <= i < |index.entries| ==> (i <= at <==> AtMost(index.entries[i].key, key))
      ensures TableRun(run) && IndexDescribes(data, index.entries, BlocksOf(run, blockSize)) ==>
        if entry.None? then Find(run, key) == None
        else
          var e := entry.value;
          && e.offset + e.length <= |data|
          && var block := Block.ParseBlock(data[e.offset..e.offset + e.length]);
             block.Ok? && Find(block.value, key) == Find(run, key)
    {
      hide Block.ParseBlock, BlocksOf, Less, Sorted, TableRun, OrderedPieces;
      if TableRun(run) && IndexDescribes(data, index.entries, BlocksOf(run, blockSize)) {
        var blocks := BlocksOf(run, blockSize);
        BlocksOfRun(run, blockSize);
        DescribedSorted(data, index.entries, blocks);
        OneBlockCanHold(blocks, at, key);
        assert at >= 0 ==> Described(data, index.entries[at], blocks[at]);
      }
    }

    method FindInRead(block: Result<seq<Entry>>, key: Key) returns (r: Result<Option<Entry>>)
      ensures r == if block.Err? then Err(block.error) else Ok(Find(block.value, key))
    {
      if block.Err? {
        return Err(block.error);
      }
      var found := FindInBlock(block.value, key);
      return Ok(found);
    }

    method FindInBlock(es: seq<Entry>, key: Key) returns (found: Option<Entry>)
      ensures found == Find(es, key)
    {
      for i := 0 to |es|
        invariant Find(es, key) == Find(es[i..], key)
      {
        if es[i].key == key {
          return Some(es[i]);
        }
        assert es[i..][1..] == es[i + 1..];
      }
      return None;
    }
  }

  lemma FoundIn(es: seq<Entry>, key: Key)
    ensures Find(es, key).Some? ==> Find(es, key).value in es && Find(es, key).value.key == key
  {
  }

  /** Each index entry gives the first key of its block and the place its bytes are at. */
  ghost predicate IndexDescribes(data: seq<byte>, entries: seq<IndexEntry>, blocks: seq<seq<Entry>>) {
    && |entries| == |blocks|
    && (forall i :: 0 <= i < |blocks| ==> Described(data, entries[i], blocks[i]))
    && (forall i, j :: 0 <= j < i < |blocks| ==> entries[j].offset != entries[i].offset)
  }

  ghost predicate Described(data: seq<byte>, e: IndexEntry, block: seq<Entry>) {
    && block != [] && e.key == block[0].key && e.offset + e.length <= |data|
    && Block.ParseBlock(data[e.offset..e.offset + e.length]) == Ok(block)
  }

  lemma BlocksOfRun(run: seq<Entry>, blockSize: nat)
    requires TableRun(run)
    ensures Flatten(BlocksOf(run, blockSize)) == run && OrderedPieces(BlocksOf(run, blockSize))
  {
    PiecesProperties(run, blockSize);
    PiecesOrdered(BlocksOf(run, blockSize));
  }

  lemma DescribedSorted(data: seq<byte>, entries: seq<IndexEntry>, blocks: seq<seq<Entry>>)
    requires IndexDescribes(data, entries, blocks) && OrderedPieces(blocks)
    ensures Sorted(entries)
  {
    forall i, j | 0 <= i < j < |entries|
      ensures Less(entries[i].key, entries[j].key)
    {
      assert Described(data, entries[i], blocks[i]) && Described(data, entries[j], blocks[j]);
      assert blocks[i][0] in blocks[i] && blocks[j][0] in blocks[j];
    }
  }

  lemma OutOfBounds(run: seq<Entry>, key: Key)
    requires TableRun(run) && run != []
    ensures Less(key, run[0].key) ==> Find(run, key).None?
    ensures Less(run[|run| - 1].key, key) ==> Find(run, key).None?
  {
    if Less(key, run[0].key) {
      FindBelow(run, key);
    }
    if Less(run[|run| - 1].key, key) {
      FindNone(run, key);
      forall e | e in run
        ensures e.key != key
      {
        var i :| 0 <= i < |run| && run[i] == e;
        LessIsStrictOrder();
        assert i < |run| - 1 ==> Less(run[i].key, run[|run| - 1].key);
      }
    }
  }

  // ----- Iteration -----

  class SSTableIterator {
    const reader: SSTableReader
    var blockIdx: nat
    var entryIdx: nat
    var currBlock: Option<seq<Entry>>

    /** What the iterator is over: the blocks of the table. */
    ghost const blocks: seq<seq<Entry>>

    ghost predicate Valid()
      reads this, reader.index
    {
      && IndexDescribes(reader.data, reader.index.entries, blocks)
      && (currBlock.Some? ==>
            blockIdx < |blocks| && currBlock.value == blocks[blockIdx] && entryIdx < |currBlock.value|)
    }

    /** What the iterator has still to show. */
    ghost function Rest(): seq<Entry>
      reads this, reader.index
      requires Valid()
    {
      if currBlock.None? then [] else currBlock.value[entryIdx..] + Flatten(blocks[blockIdx + 1..])
    }

    constructor (reader: SSTableReader, ghost blocks: seq<seq<Entry>>)
      requires IndexDescribes(reader.data, reader.index.entries, blocks)
      ensures Valid() && this.reader == reader && this.blocks == blocks
      ensures Rest() == Flatten(blocks)
    {
      this.reader, this.blocks := reader, blocks;
      blockIdx, entryIdx, currBlock := 0, 0, None;
      new;
      var ok := LoadBlock(0);
      assert blocks[0..] == blocks;
    }

    /** Loads block idx and stands on its first entry; past the last block nothing is left. */
    method LoadBlock(idx: nat) returns (ok: bool)
      requires IndexDescribes(reader.data, reader.index.entries, blocks) && idx <= |blocks|
      modifies this
      ensures Valid() && Rest() == Flatten(blocks[idx..])
      ensures ok == (idx < |blocks|) == currBlock.Some?
      ensures ok ==> blockIdx == idx && entryIdx == 0
    {
      hide IndexDescribes, Block.ParseBlock, Flatten;
      BlockThere(idx);
      if idx >= |reader.index.entries| {
        currBlock := None;
        return false;
      }
      var block := reader.ReadBlock(reader.index.entries[idx]);
      currBlock := Some(block.value);
      blockIdx, entryIdx := idx, 0;
      assert block.value[0..] == block.value;
      return true;
    }

    /** What the index says of block idx, and what is left from there on. */
    lemma BlockThere(idx: nat)
      requires IndexDescribes(reader.data, reader.index.entries, blocks) && idx <= |blocks|
      ensures |reader.index.entries| == |blocks|
      ensures idx == |blocks| ==> Flatten(blocks[idx..]) == []
      ensures idx < |blocks| ==>
        var e := reader.index.entries[idx];
        && e.offset + e.length <= |reader.data| && blocks[idx] != []
        && Block.ParseBlock(reader.data[e.offset..e.offset + e.length]) == Ok(blocks[idx])
        && Flatten(blocks[idx..]) == blocks[idx] + Flatten(blocks[idx + 1..])
    {
      hide Block.ParseBlock;
      if idx < |blocks| {
        assert Described(reader.data, reader.index.entries[idx], blocks[idx]);
        assert blocks[idx..][1..] == blocks[idx + 1..];
      }
    }

    predicate AtEntry()
      reads this
    {
      currBlock.Some? && entryIdx < |currBlock.value|
    }

    /** The entry it stands on: the first of those left, nothing when none is. */
    method Entry() returns (e: Option<Entry>)
      requires Valid()
      ensures e == if Rest() == [] then None else Some(Rest()[0])
      ensures AtEntry() <==> Rest() != []
    {
      return if AtEntry() then Some(currBlock.value[entryIdx]) else None;
    }

    /** The iterator moves by one entry, into the next block when it has to. */
    method Next()
      requires Valid()
      modifies this
      ensures Valid()
      ensures Rest() == if old(Rest()) == [] then [] else old(Rest())[1..]
    {
      hide IndexDescribes, Flatten;
      if !AtEntry() {
        return;
      }
      RestWithoutFirst();
      if entryIdx + 1 >= |currBlock.value| {
        var ok := LoadBlock(blockIdx + 1);
      } else {
        entryIdx := entryIdx + 1;
      }
    }

    lemma RestWithoutFirst()
      requires Valid() && AtEntry()
      ensures Rest() != [] && Rest()[1..] == currBlock.value[entryIdx + 1..] + Flatten(blocks[blockIdx + 1..])
      ensures entryIdx + 1 == |currBlock.value| ==> Rest()[1..] == Flatten(blocks[blockIdx + 1..])
    {
    }

    /** The position in the index of the block the binary search found. */
    method StartBlock(target: Key) returns (start: nat)
      requires Valid() && Sorted(reader.index.entries)
      ensures start <= |blocks| && (start == |blocks| ==> blocks == [])
      ensures start > 0 ==> AtMost(blocks[start][0].key, target)
    {
      hide Block.ParseBlock, Less, Sorted;
      var entry, at := reader.index.FindCandidateBlock(target);
      start := 0;
      if entry.Some? {
        assert Described(reader.data, entry.value, blocks[at]);
        for i := 0 to |reader.index.entries|
          invariant i <= at
        {
          if reader.index.entries[i].offset == entry.value.offset {
            return i;
          }
        }
      }
    }

    /** Exactly the entries at or above target are left, wherever the iterator stood before. */
    method Seek(target: Key)
      requires Valid() && TableRun(Flatten(blocks)) && OrderedPieces(blocks)
      modifies this
      ensures Valid() && Rest() == From(Flatten(blocks), target)
    {
      hide Less, TableRun, IndexDescribes, OrderedPieces, Flatten, From, Sorted;
      DescribedSorted(reader.data, reader.index.entries, blocks);
      var start := StartBlock(target);
      SkipBlocks(blocks, start, target);
      NothingAfterLast(target);
      for b := start to |reader.index.entries|
        invariant From(Flatten(blocks), target) == From(Flatten(blocks[b..]), target)
      {
        var found := SeekInBlock(b, target);
        if found {
          return;
        }
      }
      currBlock := None;
    }

    lemma NothingAfterLast(target: Key)
      requires Valid()
      ensures |reader.index.entries| == |blocks|
      ensures From(Flatten(blocks[|blocks|..]), target) == []
    {
    }

    method SeekInBlock(b: nat, target: Key) returns (found: bool)
      requires IndexDescribes(reader.data, reader.index.entries, blocks) && b < |blocks|
      modifies this
      ensures if found then Valid() && Rest() == From(Flatten(blocks[b..]), target)
              else From(Flatten(blocks[b..]), target) == From(Flatten(blocks[b + 1..]), target)
    {
      hide IndexDescribes, Flatten, From, Less, AtMost, Block.ParseBlock;
      BlockThere(b);
      var ok := LoadBlock(b);
      var e := FirstAtLeast(currBlock.value, target);
      FromConcat(blocks[b], Flatten(blocks[b + 1..]), target, e);
      found := e < |currBlock.value|;
      if found {
        entryIdx := e;
      }
    }
  }

  /** An iterator over a table shows the run the table was built from. */
  method NewIterator(reader: SSTableReader, ghost run: seq<Entry>, ghost blockSize: nat)
    returns (r: Result<SSTableIterator>)
    requires reader.Over(run, blockSize)
    ensures r.Err? == reader.closed
    ensures r.Ok? ==> fresh(r.value) && r.value.Valid() && r.value.blocks == BlocksOf(run, blockSize)
    ensures r.Ok? ==> r.value.Rest() == run == Flatten(r.value.blocks) && OrderedPieces(r.value.blocks)
  {
    if reader.closed {
      return Err("database is closed");
    }
    BlocksOfRun(run, blockSize);
    hide *;
    var it := new SSTableIterator(reader, BlocksOf(run, blockSize));
    return Ok(it);
  }

  method FirstAtLeast(es: seq<Entry>, target: Key) returns (e: nat)
    ensures e <= |es| && (forall i :: 0 <= i < e ==> Less(es[i].key, target))
    ensures e < |es| ==> AtMost(target, es[e].key)
  {
    for i := 0 to |es|
      invariant forall j :: 0 <= j < i ==> Less(es[j].key, target)
    {
      if !Less(es[i].key, target) {
        return i;
      }
    }
    return |es|;
  }

  lemma {:induction false} FromConcat(a: seq<Entry>, b: seq<Entry>, target: Key, e: nat)
    requires e <= |a| && (forall i :: 0 <= i < e ==> Less(a[i].key, target))
    requires e < |a| ==> AtMost(target, a[e].key)
    ensures From(a + b, target) == if e < |a| then a[e..] + b else From(b, target)
  {
    if a == [] {
      assert a + b == b;
    } else {
      assert (a + b)[0] == a[0] && (a + b)[1..] == a[1..] + b;
      if e == 0 {
        assert a[0..] + b == a + b;
      } else {
        assert Less(a[0].key, target);
        FromConcat(a[1..], b, target, e - 1);
        if e < |a| { assert a[1..][e - 1..] == a[e..]; }
      }
    }
  }

  /** Every block before one that starts at or below the target lies below the target. */
  lemma {:induction false} SkipBlocks(blocks: seq<seq<Entry>>, start: nat, target: Key)
    requires OrderedPieces(blocks) && start <= |blocks|
    requires start == |blocks| ==> blocks == []
    requires start > 0 ==> AtMost(blocks[start][0].key, target)
    ensures From(Flatten(blocks), target) == From(Flatten(blocks[start..]), target)
  {
    if start > 0 {
      assert blocks[start][0] in blocks[start];
      forall i | 0 <= i < |blocks[0]|
        ensures Less(blocks[0][i].key, target)
      {
        assert blocks[0][i] in blocks[0];
        LessIsStrictOrder();
      }
      FromConcat(blocks[0], Flatten(blocks[1..]), target, |blocks[0]|);
      SkipBlocks(blocks[1..], start - 1, target);
      assert blocks[1..][start - 1..] == blocks[start..];
    }
  }

  // ----- Opening what was built -----

  method OpenReader(files: Files) returns (r: Result<SSTableReader>)
    ensures r.Ok? <==> ParseIndex(files.index).Ok? && ParseFilter(files.filter).Ok?
    ensures r.Ok? ==> && fresh(r.value) && fresh(r.value.bloom.bitmap) && fresh(r.value.index)
                      && r.value.meta == files.meta && r.value.data == files.data && !r.value.closed
                      && r.value.index.entries == ParseIndex(files.index).value
                      && r.value.bloom.Value() == ParseFilter(files.filter).value
  {
    var index := BlockIndex.Decode(files.index);
    if index.Err? {
      return Err("corrupt sparse index");
    }
    var filter := ParseFilter(files.filter);
    if filter.Err? {
      return Err("corrupt bloom filter");
    }
    var reader := new SSTableReader(files, index.value, filter.value);
    return Ok(reader);
  }

  lemma {:induction false} OffsetsDiffer(blocks: seq<seq<Entry>>, i: nat, j: nat)
    requires i < j < |blocks|
    ensures |DataOf(blocks[..i])| < |DataOf(blocks[..j])|
  {
    assert blocks[..j][..j - 1] == blocks[..j - 1];
    assert |Block.BlockBytes(blocks[j - 1])| >= 4;
    if i < j - 1 {
      OffsetsDiffer(blocks, i, j - 1);
    }
  }

  lemma StorableReadsBack(block: seq<Entry>)
    requires AllStorable(block)
    ensures Block.ParseBlock(Block.BlockBytes(block)) == Ok(block)
  {
    hide Block.ParseBlock, Block.BlockBytes;
    assert forall i :: 0 <= i < |block| ==> block[i] in block;
    Block.BlockRoundTrip(block);
  }

  lemma BlockDescribed(blocks: seq<seq<Entry>>, i: nat)
    requires i < |blocks| && ShortBlocks(blocks) && NoneEmpty(blocks) && AllStorable(blocks[i])
    ensures Described(DataOf(blocks), IndexOf(blocks)[i], blocks[i])
  {
    hide Block.ParseBlock, Block.BlockBytes, IndexOf, DataOf, AllStorable;
    StorableReadsBack(blocks[i]);
    IndexAt(blocks, i);
  }

  lemma DistinctOffsets(blocks: seq<seq<Entry>>)
    requires ShortBlocks(blocks)
    ensures forall i, j :: 0 <= j < i < |blocks| ==> IndexOf(blocks)[j].offset != IndexOf(blocks)[i].offset
  {
    hide Block.BlockBytes, IndexOf, DataOf;
    forall i: nat, j: nat | j < i < |blocks|
      ensures IndexOf(blocks)[j].offset != IndexOf(blocks)[i].offset
    {
      IndexAt(blocks, i);
      IndexAt(blocks, j);
      OffsetsDiffer(blocks, j, i);
    }
  }

  /** What the lengths and contents of blocks have to be for them to be read back. */
  ghost predicate Readable(blocks: seq<seq<Entry>>) {
    && ShortBlocks(blocks) && NoneEmpty(blocks) && |blocks| < TWO32 && |DataOf(blocks)| < TWO64
    && forall i :: 0 <= i < |blocks| ==> AllStorable(blocks[i])
  }

  lemma BuiltBlocksReadable(run: seq<Entry>, blockSize: nat, empty: Filter)
    requires TableRun(run) && Fits(run, blockSize, empty)
    ensures Readable(BlocksOf(run, blockSize))
  {
    hide Block.BlockBytes, DataOf;
    var blocks := BlocksOf(run, blockSize);
    BlocksOfRun(run, blockSize);
    forall i | 0 <= i < |blocks|
      ensures AllStorable(blocks[i])
    {
      InFlatten(blocks, i);
    }
  }

  lemma ReadableDescribed(blocks: seq<seq<Entry>>)
    requires Readable(blocks)
    ensures IndexDescribes(DataOf(blocks), IndexOf(blocks), blocks)
  {
    hide Described, Block.BlockBytes, AllStorable, IndexOf, DataOf;
    DistinctOffsets(blocks);
    forall i: nat | i < |blocks|
      ensures Described(DataOf(blocks), IndexOf(blocks)[i], blocks[i])
    {
      BlockDescribed(blocks, i);
    }
  }

  lemma IndexEncodable(blocks: seq<seq<Entry>>)
    requires Readable(blocks)
    ensures ParseIndex(IndexBytes(IndexOf(blocks))) == Ok(IndexOf(blocks))
  {
    hide IndexBytes, ParseIndex, Block.BlockBytes, DataOf, IndexOf;
    forall e | e in IndexOf(blocks)
      ensures e.Encodable()
    {
      var i :| 0 <= i < |IndexOf(blocks)| && IndexOf(blocks)[i] == e;
      IndexAt(blocks, i);
      assert blocks[i][0] in blocks[i];
    }
    IndexRoundTrip(IndexOf(blocks));
  }

  /**
   Whatever the block size, 4096 standing in for one that is not positive, a table that is built opens, and
   reads as the run it was built from, if that fits its files.
   */
  method BuildAndOpen(run: seq<Entry>, blockSize: int, empty: Filter) returns (r: Result<SSTableReader>)
    requires empty.Sized() && empty.bits < TWO64 && empty.k < TWO32 && |empty.bitmap| < TWO32
    ensures r.Ok? ==> fresh(r.value) && !r.value.closed && r.value.bloom.Value().Sized()
    ensures var size := if blockSize <= 0 then 4096 else blockSize;
      TableRun(run) && run != [] && Fits(run, size, empty) ==> r.Ok? && r.value.Over(run, size)
  {
    hide ParseIndex, IndexBytes, ParseFilter, FilterBytes, DataOf, IndexOf, IndexDescribes, TableRun, Fits, AddKeys,
         KeysOf;
    ghost var size := if blockSize <= 0 then 4096 else blockSize;
    FilterRoundTrip(AddKeys(empty, KeysOf(run)));
    var files := Builder.Build(run, blockSize, empty);
    r := OpenReader(files);
    if TableRun(run) && run != [] && Fits(run, size, empty) {
      BuiltBlocksReadable(run, size, empty);
      IndexEncodable(BlocksOf(run, size));
      ReadableDescribed(BlocksOf(run, size));
      KeyBounds(run);
      ReaderHoldsKeys(run, empty);
    }
  }

  lemma ReaderHoldsKeys(run: seq<Entry>, empty: Filter)
    requires empty.Sized()
    ensures forall e :: e in run ==> MayHold(AddKeys(empty, KeysOf(run)), e.key)
  {
    hide MayHold, AddKeys;
    forall e | e in run
      ensures MayHold(AddKeys(empty, KeysOf(run)), e.key)
    {
      var i :| 0 <= i < |run| && run[i] == e;
      assert KeysOf(run)[i] in KeysOf(run);
      NoFalseNegatives(empty, KeysOf(run), e.key);
    }
  }
}
