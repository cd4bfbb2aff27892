/** The tables of the machine, as files: what the machine looks up in a table's run, the reader finds in its bytes. */
module TableFiles {
  import opened Bytes
  import opened Entries
  import opened Runs
  import opened Levels
  import opened Bloom
  import opened TableFormat
  import opened Machine
  import opened Safety
  import Reader

  /** A filter whose sizes fit their fields. */
  predicate FilterFits(f: Filter) {
    f.Sized() && f.bits < TWO64 && f.k < TWO32 && |f.bitmap| < TWO32
  }

  /** In every reachable state each table file of fewer than 2^32 entries fits its fields, for block sizes to 2^30. */
  lemma {:induction false} EveryTableFits(s: State, id: nat, empty: Filter)
    requires Reachable(s) && id in DiskIn(s).files && FilterFits(empty)
    requires |DiskIn(s).files[id].run| < TWO32 && DiskIn(s).files[id].blockSize <= MAX_BLOCK_SIZE
    ensures var t := DiskIn(s).files[id]; t.run != [] && TableRun(t.run) && Fits(t.run, t.blockSize, empty)
  {
    hide Reachable, Inv, Storage.Represents, GivesBackAll, Fits, TableFormat.TableRun;
    ReachableInv(s);
    DiskInIsOk(s);
    var t := DiskIn(s).files[id];
    assert t.Ok();
    RunFits(t.run, t.blockSize, empty);
  }

  /** The lengths that the builder stores fit their fields. */
  ghost predicate Writable(run: seq<Entry>, blockSize: nat, empty: Filter) {
    && Ascending(run) && run != [] && Fits(run, blockSize, empty)
    && forall e :: e in run ==> e.key != [] && |e.value| < TWO31
  }

  /**
   A run written out, opened and asked for a key. If all its keys are shorter than 2^16 bytes, the answer is the
   run's; a longer key is never found, so where there is one, the answer for it is not the run's.
   */
  method BuildAndAsk(run: seq<Entry>, blockSize: nat, empty: Filter, key: Key) returns (r: Result<Option<Entry>>)
    requires blockSize > 0 && FilterFits(empty) && Writable(run, blockSize, empty)
    ensures (forall e :: e in run ==> |e.key| < TWO16) ==> r == Ok(Find(run, key))
    ensures |key| >= TWO16 ==> r.Err? || r.value.None?
    ensures (exists e :: e in run && e.key == key && |key| >= TWO16) ==> r != Ok(Find(run, key))
  {
    hide Fits, Reader.SSTableReader.Over, Ascending, Filter.Sized, BloomFilter.Value;
    WhenShort(run);
    LongIsThere(run, key);
    var reader := Reader.BuildAndOpen(run, blockSize, empty);
    if reader.Err? {
      return Err(reader.error);
    }
    r := reader.value.Get(key, run, blockSize);
  }

  lemma WhenShort(run: seq<Entry>)
    requires Ascending(run) && forall e :: e in run ==> e.key != [] && |e.value| < TWO31
    ensures (forall e :: e in run ==> |e.key| < TWO16) ==> TableFormat.TableRun(run)
  {
    hide Ascending;
  }

  lemma LongIsThere(run: seq<Entry>, key: Key)
    requires Ascending(run)
    ensures (exists e :: e in run && e.key == key) ==> Find(run, key).Some?
  {
    hide Ascending;
    if e :| e in run && e.key == key {
      FindMember(run, e);
    }
  }

  /** A listed table written out block by block, opened and asked for a key gives what the machine finds in it. */
  method ReadListed(ghost s: State, ghost id: nat, t: Table, empty: Filter, key: Key) returns (r: Result<Option<Entry>>)
    requires Reachable(s) && id in DiskIn(s).files && t == DiskIn(s).files[id] && FilterFits(empty)
    requires |t.run| < TWO32 && 0 < t.blockSize <= MAX_BLOCK_SIZE
    ensures r == Ok(Find(t.run, key))
  {
    EveryTableFits(s, id, empty);
    hide Reachable, Fits, Reader.SSTableReader.Over, Ascending, Filter.Sized, BloomFilter.Value;
    r := BuildAndAsk(t.run, t.blockSize, empty, key);
  }
}
