/** Putting an entry into a run: the memtable as a map (pkg/memtable/skiplist.go). */
module Upsert {
  import opened Bytes
  import opened Entries
  import opened Runs

  /** The run with e in the place of the entry of its key, or inserted where it belongs. */
  function Put(s: seq<Entry>, e: Entry): seq<Entry> {
    if s == [] then [e]
    else if Less(s[0].key, e.key) then [s[0]] + Put(s[1..], e)
    else if s[0].key == e.key then [e] + s[1..]
    else [e] + s
  }

  /** The first n entries lie below the key, the others do not. */
  ghost predicate SplitsAt(s: seq<Entry>, n: nat, key: Key) {
    && n <= |s|
    && (forall i :: 0 <= i < n ==> Less(s[i].key, key))
    && (forall i :: n <= i < |s| ==> AtMost(key, s[i].key))
  }

  lemma {:induction false} PutAt(s: seq<Entry>, n: nat, e: Entry)
    requires SplitsAt(s, n, e.key)
    ensures Put(s, e) == if n < |s| && s[n].key == e.key then s[n := e] else s[..n] + [e] + s[n..]
  {
    if n > 0 {
      assert Less(s[0].key, e.key);
      assert Put(s, e) == [s[0]] + Put(s[1..], e);
      PutAt(s[1..], n - 1, e);
      assert n < |s| ==> s[1..][n - 1] == s[n];
      hide Put, Less;
      BehindHead(s, n, e);
    } else if s != [] {
      assert !Less(s[0].key, e.key);
      assert s[..0] + [e] + s[0..] == [e] + s;
      assert [e] + s[1..] == s[0 := e];
    }
  }

  lemma BehindHead(s: seq<Entry>, n: nat, e: Entry)
    requires 0 < n <= |s|
    ensures n < |s| ==> [s[0]] + s[1..][n - 1 := e] == s[n := e]
    ensures [s[0]] + (s[1..][..n - 1] + [e] + s[1..][n - 1..]) == s[..n] + [e] + s[n..]
  {
    assert s[1..][n - 1..] == s[n..];
    assert [s[0]] + s[1..][..n - 1] == s[..n];
  }

  lemma {:induction false} PutHead(s: seq<Entry>, e: Entry)
    ensures Put(s, e) != [] && (Put(s, e)[0] == e || (s != [] && Put(s, e)[0] == s[0]))
  {
  }

  /** Putting keeps the run ascending, and changes the lookup of its own key only. */
  lemma {:induction false} PutIsMapUpdate(s: seq<Entry>, e: Entry)
    requires Ascending(s)
    ensures Ascending(Put(s, e))
    ensures forall k: Key :: Find(Put(s, e), k) == if k == e.key then Some(e) else Find(s, k)
  {
    if s == [] {
      forall k: Key
        ensures Find([e], k) == if k == e.key then Some(e) else None
      {
        assert [e][1..] == [];
      }
    } else if Less(s[0].key, e.key) {
      PutIsMapUpdate(s[1..], e);
      PutHead(s[1..], e);
      AscendingCons(s[0], Put(s[1..], e));
      LessAsymmetric(s[0].key, e.key);
      forall k: Key
        ensures Find(Put(s, e), k) == if k == e.key then Some(e) else Find(s, k)
      {
        assert Put(s, e)[1..] == Put(s[1..], e);
        assert Find(Put(s[1..], e), k) == if k == e.key then Some(e) else Find(s[1..], k);
      }
    } else if s[0].key == e.key {
      AscendingCons(e, s[1..]);
      forall k: Key
        ensures Find(Put(s, e), k) == if k == e.key then Some(e) else Find(s, k)
      {
        assert ([e] + s[1..])[1..] == s[1..];
      }
    } else {
      LessTotal(s[0].key, e.key);
      AscendingCons(e, s);
      forall k: Key
        ensures Find(Put(s, e), k) == if k == e.key then Some(e) else Find(s, k)
      {
        assert ([e] + s)[1..] == s;
      }
    }
  }

  /** The run after all entries of a log, in order. */
  function PutAll(log: seq<Entry>): seq<Entry> {
    if log == [] then [] else Put(PutAll(log[..|log| - 1]), log[|log| - 1])
  }

  /** The last entry of the log with key k. */
  function LastOf(log: seq<Entry>, k: Key): Option<Entry> {
    if log == [] then None
    else if log[|log| - 1].key == k then Some(log[|log| - 1])
    else LastOf(log[..|log| - 1], k)
  }

  /** The map that a history of writes describes. */
  function MapOf(hist: seq<Entry>): map<Key, seq<byte>> {
    if hist == [] then map[]
    else
      var m, e := MapOf(hist[..|hist| - 1]), hist[|hist| - 1];
      if e.op == OP_DELETE then m - {e.key} else m[e.key := e.value]
  }

  /** It has a key exactly when the key's last write is no tombstone, and then that write's value. */
  lemma {:induction false} MapIsLastWrites(hist: seq<Entry>, k: Key)
    ensures k in MapOf(hist) <==> LastOf(hist, k).Some? && LastOf(hist, k).value.op != OP_DELETE
    ensures k in MapOf(hist) ==> MapOf(hist)[k] == LastOf(hist, k).value.value
    ensures Visible(LastOf(hist, k)) == if k in MapOf(hist) then Some(MapOf(hist)[k]) else None
  {
    if hist != [] {
      MapIsLastWrites(hist[..|hist| - 1], k);
    }
  }

  /** Replaying a log gives the last write of each key. */
  lemma {:induction false} PutAllIsLastWrite(log: seq<Entry>)
    ensures Ascending(PutAll(log))
    ensures forall k: Key :: Find(PutAll(log), k) == LastOf(log, k)
  {
    if log != [] {
      PutAllIsLastWrite(log[..|log| - 1]);
      PutIsMapUpdate(PutAll(log[..|log| - 1]), log[|log| - 1]);
      forall k: Key
        ensures Find(PutAll(log), k) == LastOf(log, k)
      {
        assert Find(PutAll(log[..|log| - 1]), k) == LastOf(log[..|log| - 1], k);
      }
    }
  }
}
