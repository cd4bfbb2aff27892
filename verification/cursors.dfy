/**
 A forward iterator over one run: the iterator of the skip list (pkg/memtable/skiplist.go), which
 holds a snapshot of the entries and an index.
 */
module Cursors {
  import opened Bytes
  import opened Entries
  import opened Runs

  class Cursor {
    const entries: seq<Entry>
    var idx: nat

    ghost predicate Ok()
      reads this
    {
      idx <= |entries| && Ascending(entries)
    }

    /** What the iterator has still to show, the current entry first. */
    ghost function Rest(): seq<Entry>
      reads this
      requires Ok()
    {
      entries[idx..]
    }

    constructor (entries: seq<Entry>)
      requires Ascending(entries)
      ensures Ok() && this.entries == entries && idx == 0 && Rest() == entries
    {
      this.entries, idx := entries, 0;
    }

    predicate Valid()
      reads this
    {
      idx < |entries|
    }

    function Current(): Entry
      reads this
      requires Valid()
    {
      entries[idx]
    }

    /** The current key; nil, the empty string, when the iterator is exhausted. */
    function Key(): Key
      reads this
    {
      if Valid() then entries[idx].key else []
    }

    method Next()
      requires Ok()
      modifies this
      ensures Ok()
      ensures Rest() == if old(Rest()) == [] then [] else old(Rest())[1..]
    {
      if Valid() {
        idx := idx + 1;
      }
    }

    /** Binary search: exactly the entries at or above target are left, from wherever it stood. */
    method Seek(target: Key)
      requires Ok()
      modifies this
      ensures Ok() && Rest() == From(entries, target)
    {
      var low: int, high: int, ans := 0, |entries| - 1, |entries|;
      while low <= high
        invariant 0 <= low <= ans <= |entries| && high == ans - 1
        invariant forall i :: 0 <= i < low ==> Less(entries[i].key, target)
        invariant forall i :: ans <= i < |entries| ==> !Less(entries[i].key, target)
      {
        var mid := (low + high) / 2;
        LessIsStrictOrder();
        if !Less(entries[mid].key, target) {
          ans := mid;
          high := mid - 1;
        } else {
          low := mid + 1;
        }
      }
      idx := ans;
      FromAt(entries, target, ans);
    }
  }
}
