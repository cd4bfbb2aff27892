/** A memtable: a skip list with an identifier and a size limit (pkg/memtable/memtable.go). */
module MemTables {
  import opened Bytes
  import opened Entries
  import opened Runs
  import opened Cursors
  import opened SkipLists
  import Upsert

  class MemTable {
    const id: nat
    const list: SkipList
    const maxBytes: nat

    /** The objects it is made of. */
    ghost var Repr: set<object>

    ghost predicate Valid()
      reads this, Repr
    {
      && this in Repr && list in Repr && (forall n :: n in list.chain ==> n in Repr)
      && list.Valid() && maxBytes > 0
    }

    /** The entries, in key order. */
    ghost function Run(): seq<Entry>
      reads list
    {
      list.entries
    }

    /** A limit that is not positive stands for 4 MiB. */
    constructor (id: nat, maxBytes: int)
      ensures this.id == id && this.maxBytes == if maxBytes <= 0 then 4 * 1024 * 1024 else maxBytes
      ensures Valid() && Run() == [] && list.bytes == 0 && fresh(Repr)
    {
      this.id, this.maxBytes := id, if maxBytes <= 0 then 4 * 1024 * 1024 else maxBytes;
      list := new SkipList();
      new;
      Repr := {this, list} + set n | n in list.chain;
    }

    /** The height is drawn at random. */
    method Put(entry: Entry)
      requires Valid()
      modifies Repr
      ensures Valid() && Run() == Upsert.Put(old(Run()), entry)
      ensures var was := Find(old(Run()), entry.key);
        if was.Some? then list.bytes == old(list.bytes) + |entry.value| - |was.value.value|
        else exists h: nat :: 1 <= h <= 20 && list.bytes == old(list.bytes) + |entry.key| + |entry.value| + 48 + 8 * h
      ensures fresh(Repr - old(Repr))
    {
      var h: nat :| 1 <= h <= MAX_HEIGHT;
      hide SkipList.Valid, Upsert.Put;
      list.Put(entry, h);
      Repr := Repr + set n | n in list.chain;
    }

    method Get(key: Key) returns (r: Option<Entry>)
      requires Valid()
      ensures r == Find(Run(), key)
    {
      r := list.Get(key);
    }

    predicate ShouldFlush()
      reads list
    {
      list.bytes >= maxBytes
    }

    /** The number of entries is the length the list keeps. */
    predicate Empty()
      reads list
    {
      list.length == 0
    }

    lemma EmptyIs()
      requires Valid()
      ensures Empty() <==> Run() == []
    {
    }

    method NewIterator() returns (c: Cursor)
      requires Valid()
      ensures fresh(c) && c.Ok() && c.entries == Run() && c.idx == 0
    {
      c := list.NewIterator();
    }
  }
}
