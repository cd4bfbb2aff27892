/** The SSTable builder (pkg/sstable/builder.go). */
module Builder {
  import opened Bytes
  import opened Entries
  import opened Cuts
  import Block
  import opened BlockIndex
  import opened Bloom
  import opened TableFormat

  class SSTableBuilder {
    const blockSize: nat
    var data: seq<byte>
    var dataOffset: nat
    var currBlock: seq<Entry>
    var currBlockLen: nat
    const index: SparseIndex
    const bloom: BloomFilter
    var minKey: Key
    var maxKey: Key
    var entryCount: nat
    var closed: bool

    /** The entries added so far, and the filter before the first of them. */
    ghost var added: seq<Entry>
    ghost const empty: Filter

    /** What has been written is made of the closed blocks of the entries added, the rest is pending. */
    ghost predicate Valid()
      reads this`data, this`dataOffset, this`currBlock, this`currBlockLen
      reads this`minKey, this`maxKey, this`entryCount, this`added
      reads index, bloom.bitmap
    {
      && empty.Sized()
      && Written(Cut(added, blockSize).0)
      && currBlock == Cut(added, blockSize).1 && currBlockLen == SumSize(currBlock)
      && bloom.Value() == AddKeys(empty, KeysOf(added))
      && minKey == LeastKey(added) && maxKey == GreatestKey(added) && entryCount == |added|
    }

    ghost predicate Written(blocks: seq<seq<Entry>>)
      reads this`data, this`dataOffset, index
    {
      data == DataOf(blocks) && dataOffset == OffsetAfter(blocks) && index.entries == IndexOf(blocks)
    }

    /** A block size that is not positive stands for 4096; the filter is sized by the caller. */
    constructor (blockSize: int, empty: Filter)
      requires empty.Sized()
      ensures Valid() && !closed && added == [] && this.empty == empty
      ensures this.blockSize == if blockSize <= 0 then 4096 else blockSize
      ensures fresh(index) && fresh(bloom.bitmap)
    {
      this.blockSize := if blockSize <= 0 then 4096 else blockSize;
      data, dataOffset, currBlock, currBlockLen := [], 0, [], 0;
      var ix := new SparseIndex([]);
      var bf := new BloomFilter(empty);
      index, bloom := ix, bf;
      minKey, maxKey, entryCount, closed := [], [], 0, false;
      this.added, this.empty := [], empty;
    }

    method Add(entry: Entry) returns (ok: bool)
      requires Valid()
      modifies this, index, bloom.bitmap
      ensures Valid() && closed == old(closed) && ok == !closed
      ensures added == if ok then old(added) + [entry] else old(added)
    {
      hide Written, AddKey, AddKeys, KeysOf, LeastKey, GreatestKey, SumSize, Cut, Less, BloomFilter.Value, Filter.Sized;
      if closed {
        return false;
      }
      OneMore(added, entry);
      WidenBounds(entry.key);
      bloom.Add(entry.key);
      ghost var blocks := Cut(added, blockSize).0;
      currBlock := currBlock + [entry];
      currBlockLen := currBlockLen + entry.Size();
      entryCount := entryCount + 1;
      added := added + [entry];
      if currBlockLen >= blockSize {
        FlushBlock(blocks);
      }
      return true;
    }

    method WidenBounds(key: Key)
      modifies this`minKey, this`maxKey
      ensures minKey == if |old(minKey)| == 0 || Less(key, old(minKey)) then key else old(minKey)
      ensures maxKey == if |old(maxKey)| == 0 || Less(old(maxKey), key) then key else old(maxKey)
    {
      if |minKey| == 0 || Less(key, minKey) {
        minKey := key;
      }
      if |maxKey| == 0 || Less(maxKey, key) {
        maxKey := key;
      }
    }

    /** What one more entry does to everything the builder keeps about the entries. */
    lemma OneMore(was: seq<Entry>, e: Entry)
      requires empty.Sized()
      ensures SumSize([]) == 0
      ensures var s := was + [e]; var piece := Cut(was, blockSize).1 + [e];
        && AddKeys(empty, KeysOf(s)) == AddKey(AddKeys(empty, KeysOf(was)), e.key)
        && LeastKey(s) == (if |LeastKey(was)| == 0 || Less(e.key, LeastKey(was)) then e.key else LeastKey(was))
        && GreatestKey(s) ==
           (if |GreatestKey(was)| == 0 || Less(GreatestKey(was), e.key) then e.key else GreatestKey(was))
        && SumSize(piece) == SumSize(Cut(was, blockSize).1) + e.Size()
        && Cut(s, blockSize) ==
           if SumSize(piece) >= blockSize then (Cut(was, blockSize).0 + [piece], []) else (Cut(was, blockSize).0, piece)
    {
      hide AddKey, Less;
      assert (was + [e])[..|was|] == was;
      assert KeysOf(was + [e])[..|was|] == KeysOf(was);
      assert (Cut(was, blockSize).1 + [e])[..|Cut(was, blockSize).1|] == Cut(was, blockSize).1;
    }

    /** What one more block does to what is written. */
    lemma OneMoreBlock(blocks: seq<seq<Entry>>, block: seq<Entry>)
      requires block != []
      ensures var all := blocks + [block];
        && DataOf(all) == DataOf(blocks) + Block.BlockBytes(block)
        && OffsetAfter(all) == OffsetAfter(blocks) + |Block.BlockBytes(block)| % TWO32
        && IndexOf(all) == IndexOf(blocks)
          + [IndexEntry(block[0].key, OffsetAfter(blocks), |Block.BlockBytes(block)| % TWO32)]
    {
      hide Block.BlockBytes;
      assert (blocks + [block])[..|blocks|] == blocks;
    }

    /** Encodes the pending block, records it in the index and writes it out. */
    method FlushBlock(ghost blocks: seq<seq<Entry>>)
      requires Written(blocks)
      modifies this`data, this`dataOffset, this`currBlock, this`currBlockLen, index
      ensures Written(if old(currBlock) == [] then blocks else blocks + [old(currBlock)])
      ensures currBlock == [] && (old(currBlock) != [] || old(currBlockLen) == 0 ==> currBlockLen == 0)
    {
      if |currBlock| == 0 {
        return;
      }
      OneMoreBlock(blocks, currBlock);
      hide DataOf, OffsetAfter, IndexOf, Block.BlockBytes;
      var payload := Block.Encode(currBlock);
      var length := |payload| % TWO32;
      index.Add(currBlock[0].key, dataOffset, length);
      data := data + payload;
      dataOffset := dataOffset + length;
      currBlock := [];
      currBlockLen := 0;
    }

    /** The files, once all blocks are written. */
    method Assembled(ghost blocks: seq<seq<Entry>>) returns (files: Files)
      requires Written(blocks)
      ensures files == Files(DataOf(blocks), IndexBytes(IndexOf(blocks)), FilterBytes(bloom.Value()),
                             Metadata(entryCount, OffsetAfter(blocks), minKey, maxKey))
    {
      hide DataOf, IndexOf, OffsetAfter, IndexBytes, FilterBytes;
      var indexBytes := index.Encode();
      var filterBytes := FilterBytes(Filter(bloom.bitmap[..], bloom.bits, bloom.k));
      files := Files(data, indexBytes, filterBytes, Metadata(entryCount, dataOffset, minKey, maxKey));
    }

    /** The closed blocks, and the pending one if it holds anything. */
    lemma AllPieces()
      requires Valid()
      ensures BlocksOf(added, blockSize) ==
        if currBlock == [] then Cut(added, blockSize).0 else Cut(added, blockSize).0 + [currBlock]
    {
      hide Written, AddKeys, KeysOf, LeastKey, GreatestKey, SumSize, Cut, BloomFilter.Value, Filter.Sized;
    }

    /** The files of the table: exactly those of the entries added, whatever the block size. */
    method Finish() returns (files: Option<Files>)
      requires Valid()
      modifies this, index
      ensures closed && files.None? == old(closed)
      ensures files.Some? ==> files.value == FilesOf(old(added), blockSize, empty)
    {
      if closed {
        return None;
      }
      hide Valid, FilesOf;
      closed := true;
      var r := WriteOut();
      files := Some(r);
    }

    method WriteOut() returns (files: Files)
      requires Valid()
      modifies this`data, this`dataOffset, this`currBlock, this`currBlockLen, index
      ensures files == FilesOf(added, blockSize, empty)
    {
      AllPieces();
      hide Cut, BlocksOf, DataOf, IndexOf, OffsetAfter, IndexBytes, FilterBytes, AddKeys, KeysOf, LeastKey,
           GreatestKey, SumSize, Filter.Sized, Written, BloomFilter.Value;
      ghost var blocks := BlocksOf(added, blockSize);
      FlushBlock(Cut(added, blockSize).0);
      assert Written(blocks);
      files := Assembled(blocks);
    }
  }

  /** Builds a table from a run, as a flush does. */
  method Build(run: seq<Entry>, blockSize: int, empty: Filter) returns (files: Files)
    requires empty.Sized()
    ensures files == FilesOf(run, if blockSize <= 0 then 4096 else blockSize, empty)
  {
    hide SSTableBuilder.Valid, FilesOf;
    var b := new SSTableBuilder(blockSize, empty);
    for i := 0 to |run|
      invariant b.Valid() && !b.closed && b.added == run[..i]
      invariant fresh(b) && fresh(b.index) && fresh(b.bloom.bitmap)
    {
      var ok := b.Add(run[i]);
    }
    assert run[..|run|] == run;
    var r := b.Finish();
    files := r.value;
  }
}
