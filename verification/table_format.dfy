/** What the files of an SSTable hold, as functions of the run they were built from. */
module TableFormat {
  import opened Bytes
  import opened Entries
  import opened Runs
  import opened Cuts
  import opened Block
  import opened BlockIndex
  import opened Bloom

  datatype Metadata = Metadata(entryCount: nat, dataSize: nat, minKey: Key, maxKey: Key)

  datatype Files = Files(data: seq<byte>, index: seq<byte>, filter: seq<byte>, meta: Metadata)

  function DataOf(blocks: seq<seq<Entry>>): seq<byte> {
    if blocks == [] then [] else DataOf(blocks[..|blocks| - 1]) + BlockBytes(blocks[|blocks| - 1])
  }

  predicate NoneEmpty(blocks: seq<seq<Entry>>) {
    forall i :: 0 <= i < |blocks| ==> blocks[i] != []
  }

  /** Where the next block goes, as the builder counts: each length is truncated to 32 bits. */
  function OffsetAfter(blocks: seq<seq<Entry>>): nat {
    if blocks == [] then 0
    else OffsetAfter(blocks[..|blocks| - 1]) + |BlockBytes(blocks[|blocks| - 1])| % TWO32
  }

  function FirstKey(block: seq<Entry>): Key {
    if block == [] then [] else block[0].key
  }

  function IndexOf(blocks: seq<seq<Entry>>): (r: seq<IndexEntry>)
    ensures |r| == |blocks|
  {
    if blocks == [] then []
    else
      var before, last := blocks[..|blocks| - 1], blocks[|blocks| - 1];
      IndexOf(before) + [IndexEntry(FirstKey(last), OffsetAfter(before), |BlockBytes(last)| % TWO32)]
  }

  function KeysOf(s: seq<Entry>): (r: seq<Key>)
    ensures |r| == |s| && forall i :: 0 <= i < |s| ==> r[i] == s[i].key
  {
    if s == [] then [] else KeysOf(s[..|s| - 1]) + [s[|s| - 1].key]
  }

  /** The builder's running minimum; an empty key counts as none yet. */
  function LeastKey(s: seq<Entry>): Key {
    if s == [] then []
    else
      var m, k := LeastKey(s[..|s| - 1]), s[|s| - 1].key;
      if |m| == 0 || Less(k, m) then k else m
  }

  function GreatestKey(s: seq<Entry>): Key {
    if s == [] then []
    else
      var m, k := GreatestKey(s[..|s| - 1]), s[|s| - 1].key;
      if |m| == 0 || Less(m, k) then k else m
  }

  /** A run a table can be built from: strictly ascending, with lengths that can be stored. */
  ghost predicate TableRun(run: seq<Entry>) {
    Ascending(run) && AllStorable(run)
  }

  ghost predicate AllStorable(s: seq<Entry>) {
    forall e :: e in s ==> e.Storable()
  }

  lemma {:induction false} KeyBounds(s: seq<Entry>)
    requires TableRun(s) && s != []
    ensures LeastKey(s) == s[0].key && GreatestKey(s) == s[|s| - 1].key
  {
    assert s[0] in s && s[|s| - 1] in s;
    if |s| > 1 {
      KeyBounds(s[..|s| - 1]);
      LessAsymmetric(s[0].key, s[|s| - 1].key);
    }
  }

  function BlocksOf(run: seq<Entry>, blockSize: nat): (r: seq<seq<Entry>>)
    ensures NoneEmpty(r)
  {
    PiecesProperties(run, blockSize);
    Pieces(run, blockSize)
  }

  function DataSize(run: seq<Entry>, blockSize: nat): nat {
    OffsetAfter(BlocksOf(run, blockSize))
  }

  function FilesOf(run: seq<Entry>, blockSize: nat, empty: Filter): Files
    requires empty.Sized()
  {
    var blocks := BlocksOf(run, blockSize);
    Files(
      DataOf(blocks),
      IndexBytes(IndexOf(blocks)),
      FilterBytes(AddKeys(empty, KeysOf(run))),
      Metadata(|run|, OffsetAfter(blocks), LeastKey(run), GreatestKey(run)))
  }

  predicate ShortBlocks(blocks: seq<seq<Entry>>) {
    forall i :: 0 <= i < |blocks| ==> |BlockBytes(blocks[i])| < TWO32
  }

  /** The lengths of what is built fit the fields they are stored in. */
  ghost predicate Fits(run: seq<Entry>, blockSize: nat, empty: Filter) {
    var blocks := BlocksOf(run, blockSize);
    && |blocks| < TWO32 && |DataOf(blocks)| < TWO64 && ShortBlocks(blocks)
    && empty.Sized() && empty.bits < TWO64 && empty.k < TWO32 && |empty.bitmap| < TWO32
  }

  // ----- What fits -----

  lemma {:induction false} PayloadBound(es: seq<Entry>)
    requires AllStorable(es)
    ensures 16 * |Payload(es)| <= 19 * SumSize(es)
  {
    hide Framed;
    if es != [] {
      var n := |es| - 1;
      assert es[n] in es;
      PayloadBound(es[..n]);
    }
  }

  /** All but the last entry of a block lie below the block size. */
  lemma BlockBound(block: seq<Entry>, blockSize: nat)
    requires AllStorable(block) && (block != [] ==> SumSize(block[..|block| - 1]) <= blockSize)
    requires blockSize <= MAX_BLOCK_SIZE
    ensures |BlockBytes(block)| < TWO32
  {
    hide Payload;
    PayloadBound(block);
    if block != [] {
      assert block[|block| - 1] in block;
    }
  }

  lemma {:induction false} FewPieces(pieces: seq<seq<Entry>>)
    requires forall i :: 0 <= i < |pieces| ==> pieces[i] != []
    ensures |pieces| <= |Flatten(pieces)|
  {
    if pieces != [] {
      FewPieces(pieces[1..]);
    }
  }

  lemma {:induction false} DataBound(blocks: seq<seq<Entry>>)
    requires ShortBlocks(blocks)
    ensures |DataOf(blocks)| <= |blocks| * TWO32
  {
    hide BlockBytes;
    if blocks != [] {
      DataBound(blocks[..|blocks| - 1]);
    }
  }

  /** Blocks up to 2^30 bytes leave room for one more entry of any storable length. */
  const MAX_BLOCK_SIZE: nat := 0x4000_0000

  lemma ShortPieces(run: seq<Entry>, blockSize: nat)
    requires AllStorable(run) && blockSize <= MAX_BLOCK_SIZE
    ensures ShortBlocks(BlocksOf(run, blockSize))
  {
    hide BlockBytes, SumSize, Pieces;
    var blocks := BlocksOf(run, blockSize);
    PiecesBelow(run, blockSize);
    PiecesProperties(run, blockSize);
    forall i | 0 <= i < |blocks|
      ensures |BlockBytes(blocks[i])| < TWO32
    {
      InFlatten(blocks, i);
      BlockBound(blocks[i], blockSize);
    }
  }

  /** Any run of fewer than 2^32 storable entries fits its files. */
  lemma RunFits(run: seq<Entry>, blockSize: nat, empty: Filter)
    requires TableRun(run) && |run| < TWO32 && blockSize <= MAX_BLOCK_SIZE
    requires empty.Sized() && empty.bits < TWO64 && empty.k < TWO32 && |empty.bitmap| < TWO32
    ensures Fits(run, blockSize, empty)
  {
    hide BlockBytes, DataOf, Pieces, Flatten;
    var blocks := BlocksOf(run, blockSize);
    ShortPieces(run, blockSize);
    PiecesProperties(run, blockSize);
    FewPieces(blocks);
    DataBound(blocks);
  }

  // ----- Finding a block -----

  lemma {:induction false} OffsetsExact(blocks: seq<seq<Entry>>)
    requires ShortBlocks(blocks)
    ensures OffsetAfter(blocks) == |DataOf(blocks)|
  {
    hide BlockBytes;
    if blocks != [] {
      OffsetsExact(blocks[..|blocks| - 1]);
    }
  }

  /** The index entry of block i names its first key and the place where its bytes are. */
  lemma {:induction false} IndexAt(blocks: seq<seq<Entry>>, i: nat)
    requires i < |blocks| && ShortBlocks(blocks)
    ensures var e := IndexOf(blocks)[i];
      && e.key == FirstKey(blocks[i]) && e.length == |BlockBytes(blocks[i])|
      && e.offset == |DataOf(blocks[..i])| && e.offset + e.length <= |DataOf(blocks)|
      && DataOf(blocks)[e.offset..e.offset + e.length] == BlockBytes(blocks[i])
  {
    hide BlockBytes;
    var n := |blocks| - 1;
    OffsetsExact(blocks[..n]);
    if i == n {
      assert DataOf(blocks) == DataOf(blocks[..n]) + BlockBytes(blocks[n]);
    } else {
      IndexAt(blocks[..n], i);
      assert blocks[..n][..i] == blocks[..i];
      var d, e := DataOf(blocks[..n]), IndexOf(blocks)[i];
      assert DataOf(blocks)[e.offset..e.offset + e.length] == d[e.offset..e.offset + e.length];
    }
  }

  lemma {:induction false} FindOnlyIn(blocks: seq<seq<Entry>>, at: nat, k: Key)
    requires at < |blocks|
    requires forall i :: 0 <= i < |blocks| && i != at ==> Find(blocks[i], k).None?
    ensures FindFirst(blocks, k) == Find(blocks[at], k)
  {
    if at > 0 {
      FindOnlyIn(blocks[1..], at - 1, k);
    } else {
      FindNowhere(blocks[1..], k);
    }
  }

  lemma {:induction false} FindNowhere(blocks: seq<seq<Entry>>, k: Key)
    requires forall i :: 0 <= i < |blocks| ==> Find(blocks[i], k).None?
    ensures FindFirst(blocks, k).None?
  {
    if blocks != [] {
      FindNowhere(blocks[1..], k);
    }
  }

  /** Besides the files a table carries the number of its entries, the size of its data, and its first and last key. */
  lemma MetadataDescribes(run: seq<Entry>, blockSize: nat, empty: Filter)
    requires TableRun(run) && run != [] && Fits(run, blockSize, empty)
    ensures var files := FilesOf(run, blockSize, empty);
      && files.meta == Metadata(|run|, |files.data|, run[0].key, run[|run| - 1].key)
      && DataSize(run, blockSize) == |files.data|
  {
    hide DataOf, OffsetAfter, LeastKey, GreatestKey, BlocksOf;
    KeyBounds(run);
    OffsetsExact(BlocksOf(run, blockSize));
  }

  /** Only the last block that starts at or below k can hold k. */
  lemma OneBlockCanHold(blocks: seq<seq<Entry>>, at: int, k: Key)
    requires OrderedPieces(blocks) && -1 <= at < |blocks|
    requires forall i :: 0 <= i < |blocks| ==> (i <= at <==> AtMost(blocks[i][0].key, k))
    ensures Find(Flatten(blocks), k) == if at == -1 then None else Find(blocks[at], k)
  {
    forall i | 0 <= i < |blocks| && i != at
      ensures Find(blocks[i], k).None?
    {
      LessIsStrictOrder();
      if i > at {
        FindBelow(blocks[i], k);
      } else {
        assert blocks[at][0] in blocks[at];
        assert forall e :: e in blocks[i] ==> Less(e.key, blocks[at][0].key);
        FindNone(blocks[i], k);
      }
    }
    FindInPieces(blocks, k);
    if at == -1 {
      FindNowhere(blocks, k);
    } else {
      FindOnlyIn(blocks, at, k);
    }
  }
}
