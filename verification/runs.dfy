/**
 Runs: strictly ascending lists of entries, the content of a memtable or of an SSTable, and what
 it means to look a key up in one run, in a stack of runs, and in their merge.
 */
module Runs {
  import opened Bytes
  import opened Entries

  ghost predicate Ascending(s: seq<Entry>) {
    forall i, j :: 0 <= i < j < |s| ==> Less(s[i].key, s[j].key)
  }

  /** The first entry of s with key k. */
  function Find(s: seq<Entry>, k: Key): (r: Option<Entry>)
    ensures r.Some? ==> r.value in s && r.value.key == k
  {
    if s == [] then None else if s[0].key == k then Some(s[0]) else Find(s[1..], k)
  }

  /** The runs are searched in order: an earlier run hides a later one. */
  function FindFirst(runs: seq<seq<Entry>>, k: Key): (r: Option<Entry>)
    ensures r.Some? ==> r.value.key == k
  {
    if runs == [] then None
    else if Find(runs[0], k).Some? then Find(runs[0], k)
    else FindFirst(runs[1..], k)
  }

  ghost predicate AllAscending(runs: seq<seq<Entry>>) {
    forall r :: r in runs ==> Ascending(r)
  }

  function Or(a: Option<Entry>, b: Option<Entry>): Option<Entry> {
    if a.Some? then a else b
  }

  // ----- Lookup in one run -----

  lemma {:induction false} FindNone(s: seq<Entry>, k: Key)
    ensures Find(s, k).None? <==> forall e :: e in s ==> e.key != k
  {
    if s != [] {
      FindNone(s[1..], k);
      assert s == [s[0]] + s[1..];
    }
  }

  lemma {:induction false} FindAt(s: seq<Entry>, i: nat)
    requires Ascending(s) && i < |s|
    ensures Find(s, s[i].key) == Some(s[i])
  {
    if i > 0 {
      LessAsymmetric(s[0].key, s[i].key);
      FindAt(s[1..], i - 1);
    }
  }

  lemma FindMember(s: seq<Entry>, e: Entry)
    requires Ascending(s) && e in s
    ensures Find(s, e.key) == Some(e)
  {
    var i :| 0 <= i < |s| && s[i] == e;
    FindAt(s, i);
  }

  lemma {:induction false} FindConcat(a: seq<Entry>, b: seq<Entry>, k: Key)
    ensures Find(a + b, k) == Or(Find(a, k), Find(b, k))
  {
    if a == [] {
      assert a + b == b;
    } else {
      assert (a + b)[1..] == a[1..] + b;
      FindConcat(a[1..], b, k);
    }
  }

  /** Keys below the head of an ascending run are not in it. */
  lemma FindBelow(s: seq<Entry>, k: Key)
    requires Ascending(s) && (s != [] ==> Less(k, s[0].key))
    ensures Find(s, k).None?
  {
    FindNone(s, k);
    forall e | e in s
      ensures e.key != k
    {
      var i :| 0 <= i < |s| && s[i] == e;
      if i > 0 {
        LessTransitive(k, s[0].key, e.key);
      }
      LessAsymmetric(k, e.key);
    }
  }

  lemma AscendingParts(a: seq<Entry>, b: seq<Entry>)
    requires Ascending(a + b)
    ensures Ascending(a) && Ascending(b)
    ensures forall x, y :: x in a && y in b ==> Less(x.key, y.key)
  {
    forall i, j | 0 <= i < j < |a|
      ensures Less(a[i].key, a[j].key)
    {
      assert (a + b)[i] == a[i] && (a + b)[j] == a[j];
    }
    forall i, j | 0 <= i < j < |b|
      ensures Less(b[i].key, b[j].key)
    {
      assert (a + b)[|a| + i] == b[i] && (a + b)[|a| + j] == b[j];
    }
    forall x, y | x in a && y in b
      ensures Less(x.key, y.key)
    {
      var i :| 0 <= i < |a| && a[i] == x;
      var j :| 0 <= j < |b| && b[j] == y;
      assert (a + b)[i] == x && (a + b)[|a| + j] == y;
    }
  }

  lemma AscendingCons(e: Entry, s: seq<Entry>)
    requires Ascending(s) && (s != [] ==> Less(e.key, s[0].key))
    ensures Ascending([e] + s)
  {
    var t := [e] + s;
    forall i, j | 0 <= i < j < |t|
      ensures Less(t[i].key, t[j].key)
    {
      if i == 0 && j > 1 {
        LessTransitive(e.key, s[0].key, s[j - 1].key);
      }
    }
  }

  /** An ascending run is determined by its lookups. */
  lemma {:induction false} RunsEqual(a: seq<Entry>, b: seq<Entry>)
    requires Ascending(a) && Ascending(b)
    requires forall k: Key :: Find(a, k) == Find(b, k)
    ensures a == b
  {
    assert b != [] ==> Find(a, b[0].key) == Find(b, b[0].key);
    if a != [] {
      assert Find(a, a[0].key) == Find(b, a[0].key);
      assert Find(a, b[0].key) == Find(b, b[0].key);
      HeadsAgree(a, b);
      forall k: Key
        ensures Find(a[1..], k) == Find(b[1..], k)
      {
        assert Find(a, k) == Find(b, k);
        if k == a[0].key {
          FindBelow(a[1..], k);
          FindBelow(b[1..], k);
        }
      }
      RunsEqual(a[1..], b[1..]);
      assert a == [a[0]] + a[1..] && b == [b[0]] + b[1..];
    }
  }

  lemma HeadsAgree(a: seq<Entry>, b: seq<Entry>)
    requires Ascending(a) && Ascending(b) && a != [] && b != []
    requires Find(a, a[0].key) == Find(b, a[0].key)
    requires Find(a, b[0].key) == Find(b, b[0].key)
    ensures a[0] == b[0]
  {
    LessTotal(a[0].key, b[0].key);
    NotBelowHead(b, a[0].key);
    NotBelowHead(a, b[0].key);
  }

  lemma NotBelowHead(s: seq<Entry>, k: Key)
    requires Ascending(s) && Find(s, k).Some?
    ensures s != [] && !Less(k, s[0].key)
  {
    if s != [] && Less(k, s[0].key) {
      FindBelow(s, k);
    }
  }

  // ----- The merge of a stack of runs -----

  /** Two runs merged: on equal keys the entry of `hi` survives. */
  function Overlay(hi: seq<Entry>, lo: seq<Entry>): seq<Entry>
    decreases |hi| + |lo|
  {
    if hi == [] then lo
    else if lo == [] then hi
    else if Less(hi[0].key, lo[0].key) then [hi[0]] + Overlay(hi[1..], lo)
    else if Less(lo[0].key, hi[0].key) then [lo[0]] + Overlay(hi, lo[1..])
    else [hi[0]] + Overlay(hi[1..], lo[1..])
  }

  function Merge(runs: seq<seq<Entry>>): seq<Entry> {
    if runs == [] then [] else Overlay(runs[0], Merge(runs[1..]))
  }

  lemma {:induction false} OverlayAscending(hi: seq<Entry>, lo: seq<Entry>)
    requires Ascending(hi) && Ascending(lo)
    ensures Ascending(Overlay(hi, lo))
    ensures Overlay(hi, lo) == [] <==> hi == [] && lo == []
    ensures Overlay(hi, lo) != [] ==> Overlay(hi, lo)[0] == OverlayHead(hi, lo)
    ensures |Overlay(hi, lo)| <= |hi| + |lo|
    decreases |hi| + |lo|
  {
    if hi != [] && lo != [] {
      LessTotal(hi[0].key, lo[0].key);
      if Less(hi[0].key, lo[0].key) {
        LessAsymmetric(hi[0].key, lo[0].key);
        OverlayAscending(hi[1..], lo);
        AscendingCons(hi[0], Overlay(hi[1..], lo));
      } else if Less(lo[0].key, hi[0].key) {
        OverlayAscending(hi, lo[1..]);
        AscendingCons(lo[0], Overlay(hi, lo[1..]));
      } else {
        OverlayAscending(hi[1..], lo[1..]);
        AscendingCons(hi[0], Overlay(hi[1..], lo[1..]));
      }
    }
  }

  function OverlayHead(hi: seq<Entry>, lo: seq<Entry>): Entry
    requires hi != [] || lo != []
  {
    if hi == [] then lo[0] else if lo == [] then hi[0]
    else if Less(lo[0].key, hi[0].key) then lo[0] else hi[0]
  }

  lemma {:induction false} FindOverlay(hi: seq<Entry>, lo: seq<Entry>, k: Key)
    requires Ascending(hi) && Ascending(lo)
    ensures Find(Overlay(hi, lo), k) == Or(Find(hi, k), Find(lo, k))
    decreases |hi| + |lo|
  {
    if hi != [] && lo != [] {
      LessTotal(hi[0].key, lo[0].key);
      if Less(hi[0].key, lo[0].key) {
        FindOverlay(hi[1..], lo, k);
      } else if Less(lo[0].key, hi[0].key) {
        FindOverlay(hi, lo[1..], k);
        if k == lo[0].key { FindBelow(hi, k); }
      } else {
        FindOverlay(hi[1..], lo[1..], k);
      }
    }
  }

  lemma {:induction false} MergeAscending(runs: seq<seq<Entry>>)
    requires AllAscending(runs)
    ensures Ascending(Merge(runs))
    ensures |Merge(runs)| <= TotalLength(runs)
  {
    if runs != [] {
      MergeAscending(runs[1..]);
      OverlayAscending(runs[0], Merge(runs[1..]));
    }
  }

  /** The merge holds, for each key, the entry of the first run that has it. */
  lemma {:induction false} FindMerge(runs: seq<seq<Entry>>, k: Key)
    requires AllAscending(runs)
    ensures Find(Merge(runs), k) == FindFirst(runs, k)
  {
    if runs != [] {
      MergeAscending(runs[1..]);
      FindMerge(runs[1..], k);
      FindOverlay(runs[0], Merge(runs[1..]), k);
    }
  }

  function TotalLength(runs: seq<seq<Entry>>): nat {
    if runs == [] then 0 else |runs[0]| + TotalLength(runs[1..])
  }

  lemma {:induction false} FindFirstConcat(a: seq<seq<Entry>>, b: seq<seq<Entry>>, k: Key)
    ensures FindFirst(a + b, k) == Or(FindFirst(a, k), FindFirst(b, k))
  {
    if a == [] {
      assert a + b == b;
    } else {
      assert (a + b)[1..] == a[1..] + b;
      FindFirstConcat(a[1..], b, k);
    }
  }

  // ----- Dropping tombstones, cutting at a key -----

  /** s without its tombstones. */
  function Live(s: seq<Entry>): (r: seq<Entry>)
    ensures |r| <= |s|
    ensures forall e :: e in r <==> e in s && !e.IsTombstone()
  {
    if s == [] then [] else
    assert s == [s[0]] + s[1..];
    if s[0].IsTombstone() then Live(s[1..]) else [s[0]] + Live(s[1..])
  }

  function Keep(s: seq<Entry>, dropTombstones: bool): seq<Entry> {
    if dropTombstones then Live(s) else s
  }

  lemma {:induction false} LiveAscending(s: seq<Entry>)
    requires Ascending(s)
    ensures Ascending(Live(s))
  {
    if s != [] {
      LiveAscending(s[1..]);
      var r := Live(s[1..]);
      if r != [] {
        assert r[0] in s[1..];
        var i :| 0 <= i < |s[1..]| && s[1..][i] == r[0];
        assert Less(s[0].key, s[i + 1].key);
      }
      AscendingCons(s[0], r);
    }
  }

  lemma FindLive(s: seq<Entry>, k: Key)
    requires Ascending(s)
    ensures Find(Live(s), k) ==
            if Find(s, k).Some? && Find(s, k).value.IsTombstone() then None else Find(s, k)
  {
    LiveAscending(s);
    FindNone(Live(s), k);
    if Find(Live(s), k).Some? {
      FindMember(s, Find(Live(s), k).value);
    }
  }

  /** Dropping tombstones does not change what a reader sees. */
  lemma VisibleKeep(s: seq<Entry>, drop: bool, k: Key)
    requires Ascending(s)
    ensures Visible(Find(Keep(s, drop), k)) == Visible(Find(s, k))
  {
    FindLive(s, k);
  }

  /** The entries of an ascending run with keys at or above `target`. */
  function From(s: seq<Entry>, target: Key): seq<Entry> {
    if s == [] then [] else if Less(s[0].key, target) then From(s[1..], target) else s
  }

  lemma {:induction false} FromSplits(s: seq<Entry>, target: Key) returns (n: nat)
    requires Ascending(s)
    ensures n <= |s| && From(s, target) == s[n..]
    ensures forall i :: 0 <= i < n ==> Less(s[i].key, target)
    ensures forall i :: n <= i < |s| ==> AtMost(target, s[i].key)
  {
    if s == [] {
      n := 0;
    } else if Less(s[0].key, target) {
      n := FromSplits(s[1..], target);
      n := n + 1;
    } else {
      n := 0;
      forall i | 0 <= i < |s|
        ensures AtMost(target, s[i].key)
      {
        if Less(s[i].key, target) {
          if i > 0 { LessTransitive(s[0].key, s[i].key, target); }
        }
      }
    }
  }

  lemma {:induction false} FromAt(s: seq<Entry>, target: Key, n: nat)
    requires n <= |s|
    requires forall i :: 0 <= i < n ==> Less(s[i].key, target)
    requires n < |s| ==> AtMost(target, s[n].key)
    ensures From(s, target) == s[n..]
  {
    if n > 0 {
      assert Less(s[0].key, target);
      FromAt(s[1..], target, n - 1);
      assert s[1..][n - 1..] == s[n..];
    }
  }

  lemma {:induction false} FindFrom(s: seq<Entry>, target: Key, k: Key)
    requires Ascending(s)
    ensures Ascending(From(s, target))
    ensures Find(From(s, target), k) == if Less(k, target) then None else Find(s, k)
  {
    hide From, Find, Less;
    var n := FromSplits(s, target);
    FindNone(s[..n], k);
    FindNone(s[n..], k);
    assert s == s[..n] + s[n..];
    FindConcat(s[..n], s[n..], k);
  }
}
