/**
 The k-way merge iterator (pkg/core/merger.go): a binary min-heap over iterators, ordered by
 current key and then by priority, that shows each key once.
 */
module Merger {
  import opened Bytes
  import opened Entries
  import opened Runs
  import opened Cursors
  import opened MergeSpec

  // ----- The heap order, on the values the comparison looks at -----

  datatype Rank = Rank(key: Key, priority: nat, timestamp: int)

  predicate RankLess(a: Rank, b: Rank) {
    if a.key != b.key then Less(a.key, b.key)
    else if a.priority != b.priority then a.priority < b.priority
    else a.timestamp > b.timestamp
  }

  lemma RankOrder(a: Rank, b: Rank, c: Rank)
    ensures RankLess(a, b) ==> !RankLess(b, a)
    ensures !RankLess(b, a) && !RankLess(c, b) ==> !RankLess(c, a)
  {
    LessIsStrictOrder();
  }

  function Parent(j: nat): nat
    requires j > 0
  {
    (j - 1) / 2
  }

  predicate Edge(r: seq<Rank>, j: nat)
    requires 0 < j < |r|
  {
    !RankLess(r[j], r[Parent(j)])
  }

  ghost predicate Heap(r: seq<Rank>) {
    forall j :: 1 <= j < |r| ==> Edge(r, j)
  }

  /** A heap but for position i, which may be too large for its place. */
  ghost predicate HeapBelow(r: seq<Rank>, i: nat) {
    && (forall j :: 1 <= j < |r| && Parent(j) != i ==> Edge(r, j))
    && (forall j :: 1 <= j < |r| && Parent(j) == i && 0 < i ==> !RankLess(r[j], r[Parent(i)]))
  }

  /** A heap but for position i, which may be too small for its place. */
  ghost predicate HeapAbove(r: seq<Rank>, i: nat)
    requires i < |r|
  {
    && (forall j :: 1 <= j < |r| && j != i ==> Edge(r, j))
    && (forall j :: 1 <= j < |r| && Parent(j) == i && 0 < i ==> !RankLess(r[j], r[Parent(i)]))
  }

  function Swapped<T>(s: seq<T>, i: nat, j: nat): (r: seq<T>)
    requires i < |s| && j < |s|
    ensures multiset(r) == multiset(s)
  {
    s[i := s[j]][j := s[i]]
  }

  /** j is the child of i that the sift-down takes. */
  ghost predicate SmallChild(r: seq<Rank>, i: nat, j: nat) {
    && 2 * i + 1 <= j <= 2 * i + 2 && j < |r|
    && forall c :: 2 * i + 1 <= c <= 2 * i + 2 && c < |r| ==> !RankLess(r[c], r[j])
  }

  lemma SiftDownStep(r: seq<Rank>, i: nat, j: nat)
    requires HeapBelow(r, i)
    requires SmallChild(r, i, j) && RankLess(r[j], r[i])
    ensures HeapBelow(Swapped(r, i, j), j)
  {
    var s := Swapped(r, i, j);
    RankOrder(r[j], r[i], r[i]);
    forall m | 1 <= m < |r| && Parent(m) != j
      ensures Edge(s, m)
    {
      assert m != i && m != j && Parent(m) != i ==> Edge(r, m);
      assert m == i ==> !RankLess(r[j], r[Parent(i)]) by { assert Parent(j) == i; }
    }
    forall m | 1 <= m < |r| && Parent(m) == j
      ensures !RankLess(s[m], s[i])
    {
      assert Edge(r, m);
    }
  }

  lemma SiftDownDone(r: seq<Rank>, i: nat)
    requires HeapBelow(r, i)
    requires forall c :: 2 * i + 1 <= c <= 2 * i + 2 && c < |r| ==> !RankLess(r[c], r[i])
    ensures Heap(r)
  {
    forall j | 1 <= j < |r|
      ensures Edge(r, j)
    {
      assert Parent(j) == i ==> 2 * i + 1 <= j <= 2 * i + 2;
    }
  }

  lemma NoChild(r: seq<Rank>, i: nat)
    requires HeapBelow(r, i) && 2 * i + 1 >= |r|
    ensures Heap(r)
  {
    SiftDownDone(r, i);
  }

  lemma ChildIsBelow(r: seq<Rank>, i: nat, j: nat)
    requires SmallChild(r, i, j)
    ensures i < j < |r|
  {
  }

  lemma SiftUpStep(r: seq<Rank>, j: nat)
    requires 0 < j < |r| && HeapAbove(r, j) && RankLess(r[j], r[Parent(j)])
    ensures HeapAbove(Swapped(r, Parent(j), j), Parent(j))
  {
    var i := Parent(j);
    var s := Swapped(r, i, j);
    RankOrder(r[j], r[i], r[i]);
    forall m | 1 <= m < |r| && m != i
      ensures Edge(s, m)
    {
      assert m != j ==> Edge(r, m);
      RankOrder(r[j], r[i], r[m]);
    }
    forall m | 1 <= m < |r| && Parent(m) == i && 0 < i
      ensures !RankLess(s[m], s[Parent(i)])
    {
      assert m != j ==> Edge(r, m);
      assert Edge(r, i);
      RankOrder(r[Parent(i)], r[i], r[m]);
    }
  }

  lemma {:induction false} RootIsLeast(r: seq<Rank>, j: nat)
    requires Heap(r) && j < |r|
    ensures !RankLess(r[j], r[0])
    decreases j
  {
    RankOrder(r[j], r[j], r[j]);
    if j > 0 {
      assert Edge(r, j);
      RootIsLeast(r, Parent(j));
      RankOrder(r[0], r[Parent(j)], r[j]);
    }
  }

  lemma HeapPushed(r: seq<Rank>, x: Rank)
    requires Heap(r)
    ensures HeapAbove(r + [x], |r|)
  {
    forall j | 1 <= j < |r|
      ensures Edge(r + [x], j)
    {
      assert Edge(r, j);
    }
  }

  lemma HeapPopped(r: seq<Rank>, n: nat)
    requires Heap(r) && |r| == n + 1
    ensures n > 0 ==> HeapBelow(r[..n][0 := r[n]], 0)
  {
    if n > 0 {
      var s := r[..n][0 := r[n]];
      forall j | 1 <= j < n && Parent(j) != 0
        ensures Edge(s, j)
      {
        assert Edge(r, j);
      }
    }
  }

  /** Changing the root of a heap leaves a heap but for the root. */
  lemma HeapRerooted(r: seq<Rank>, x: Rank)
    requires Heap(r) && r != []
    ensures HeapBelow(r[0 := x], 0)
  {
    forall j | 1 <= j < |r| && Parent(j) != 0
      ensures Edge(r[0 := x], j)
    {
      assert Edge(r, j);
    }
  }

  /** The second child is taken when it is less. */
  lemma SmallerOfTwo(r: seq<Rank>, i: nat, j: nat)
    requires 2 * i + 1 < |r|
    requires j == if 2 * i + 2 < |r| && RankLess(r[2 * i + 2], r[2 * i + 1]) then 2 * i + 2 else 2 * i + 1
    ensures SmallChild(r, i, j)
  {
    RankOrder(r[j], r[2 * i + 1], r[2 * i + 1]);
    hide RankLess;
    forall c | 2 * i + 1 <= c <= 2 * i + 2 && c < |r|
      ensures !RankLess(r[c], r[j])
    {
      NotLessThanItself(r[c]);
    }
  }

  lemma NotLessThanItself(a: Rank)
    ensures !RankLess(a, a)
  {
    RankOrder(a, a, a);
  }

  lemma StopsAt(r: seq<Rank>, i: nat, j: nat)
    requires i < |r| && HeapBelow(r, i) && SmallChild(r, i, j) && !RankLess(r[j], r[i])
    ensures Heap(r)
  {
    forall c | 2 * i + 1 <= c <= 2 * i + 2 && c < |r|
      ensures !RankLess(r[c], r[i])
    {
      RankOrder(r[i], r[j], r[c]);
    }
    SiftDownDone(r, i);
  }

  // ----- The iterator -----

  datatype Item = Item(iter: Cursor, priority: nat)

  class MergedIterator {
    const iters: seq<Cursor?>
    var h: seq<Item>
    var current: Option<Entry>
    var currKeyBuf: Key
    const dropTombstones: bool
    var valid: bool

    /** What each iterator has still to show, highest priority first. */
    ghost var rests: seq<seq<Entry>>
    /** The ranks of the first items of the heap array, of all of them between operations. */
    ghost var ranks: seq<Rank>

    static ghost predicate Usable(iters: seq<Cursor?>)
      reads iters
    {
      && (forall p :: 0 <= p < |iters| && iters[p] != null ==> iters[p].Ok())
      && (forall p, q :: 0 <= p < q < |iters| && iters[p] != null ==> iters[p] != iters[q])
    }

    static ghost function RestOf(c: Cursor?): seq<Entry>
      reads c
      requires c != null ==> c.Ok()
    {
      if c == null then [] else c.Rest()
    }

    static ghost function Rests(iters: seq<Cursor?>): (r: seq<seq<Entry>>)
      reads iters
      requires Usable(iters)
      ensures |r| == |iters| && forall p :: 0 <= p < |iters| ==> r[p] == RestOf(iters[p])
    {
      seq(|iters|, p requires 0 <= p < |iters| && (iters[p] != null ==> iters[p].Ok()) reads iters => RestOf(iters[p]))
    }

    static ghost function RunOf(c: Cursor?): seq<Entry> {
      if c == null then [] else c.entries
    }

    /** The whole runs behind the iterators. */
    static ghost function Wholes(iters: seq<Cursor?>): (r: seq<seq<Entry>>)
      ensures |r| == |iters| && forall p :: 0 <= p < |iters| ==> r[p] == RunOf(iters[p])
    {
      seq(|iters|, p requires 0 <= p < |iters| => RunOf(iters[p]))
    }

    /** The iterators are where the ghost state says they are. */
    ghost predicate Tied()
      reads this`rests, iters
    {
      && Usable(iters) && |rests| == |iters|
      && forall p :: 0 <= p < |iters| ==> rests[p] == RestOf(iters[p])
    }

    ghost predicate Known(x: Item)
      reads this`rests
    {
      x.priority < |iters| == |rests| && iters[x.priority] == x.iter && rests[x.priority] != []
    }

    ghost function RankOf(x: Item): Rank
      reads this`rests
      requires Known(x)
    {
      var e := rests[x.priority][0];
      Rank(e.key, x.priority, e.timestamp)
    }

    /** ranks lists the ranks of the first |ranks| items, none of them exhausted. */
    ghost predicate Ranked()
      reads this`h, this`ranks, this`rests
    {
      |ranks| <= |h| && forall i :: 0 <= i < |ranks| ==> Known(h[i]) && ranks[i] == RankOf(h[i])
    }

    /** The heap holds each of the first n iterators that is not exhausted, once. */
    ghost predicate Holds(n: nat)
      reads this`h, this`rests
      requires n <= |iters| == |rests|
    {
      && (forall x :: x in multiset(h) ==> Known(x) && x.priority < n && multiset(h)[x] == 1)
      && (forall p: nat :: p < n && rests[p] != [] ==> iters[p] != null && Item(iters[p], p) in multiset(h))
    }

    ghost predicate Ordered()
      reads this`h, this`ranks, this`rests
    {
      |ranks| == |h| && Ranked() && Heap(ranks)
    }

    ghost predicate Sound()
      reads this`h, this`ranks, this`rests, iters
    {
      Tied() && Holds(|iters|) && Ordered()
    }

    ghost predicate Inv()
      reads this, iters
    {
      && Sound()
      && (!valid ==> Pending() == [])
      && (valid <==> current.Some?)
    }

    /** The entries not yet taken from the heap that will still be shown. */
    ghost function Pending(): seq<Entry>
      reads this`rests
    {
      Keep(Merge(rests), dropTombstones)
    }

    /** Everything the iterator has still to show, the current entry first. */
    ghost function Remaining(): seq<Entry>
      reads this, iters
      requires Inv()
    {
      if valid then [current.value] + Pending() else []
    }

    /** Compares items i and j by current key, then priority, then newer timestamp. */
    method Lesser(i: nat, j: nat) returns (less: bool)
      requires Tied() && Ranked() && i < |ranks| && j < |ranks|
      ensures less == RankLess(ranks[i], ranks[j])
      ensures ranks[i].key != ranks[j].key ==> less == Less(ranks[i].key, ranks[j].key)
      ensures ranks[i].key == ranks[j].key ==>
        less == if ranks[i].priority != ranks[j].priority then ranks[i].priority < ranks[j].priority
                else ranks[i].timestamp > ranks[j].timestamp
    {
      var a, b := h[i].iter.Current(), h[j].iter.Current();
      if a.key != b.key {
        less := Less(a.key, b.key);
      } else if h[i].priority != h[j].priority {
        less := h[i].priority < h[j].priority;
      } else {
        less := a.timestamp > b.timestamp;
      }
    }

    method Swap(i: nat, j: nat)
      requires i < |h| && j < |h|
      modifies this`h
      ensures h == Swapped(old(h), i, j)
    {
      h := h[i := h[j]][j := h[i]];
    }

    /** One turn of the sift-up loop; Go's (0 - 1) / 2 is 0, so the root is its own parent. */
    method UpOnce(j: nat) returns (i: nat)
      requires Tied() && Ranked() && j < |h| == |ranks| && HeapAbove(ranks, j)
      modifies this`h, this`ranks
      ensures |h| == |ranks| == old(|h|) && multiset(h) == old(multiset(h))
      ensures Ranked() && if i == j then Heap(ranks) else i < j && HeapAbove(ranks, i)
    {
      RanksHeld();
      hide Tied, Ranked, RankLess, Swapped;
      i := if j == 0 then 0 else (j - 1) / 2;
      if i == j {
        return j;
      }
      var less := Lesser(j, i);
      if !less {
        return j;
      }
      SiftUpStep(ranks, j);
      SwapRanked(i, j);
    }

    method Up(j0: nat)
      requires Tied() && Ranked() && j0 < |h| == |ranks| && HeapAbove(ranks, j0)
      modifies this`h, this`ranks
      ensures multiset(h) == old(multiset(h)) && Ordered()
    {
      var j: nat := j0;
      while true
        invariant j < |h| == |ranks| && multiset(h) == old(multiset(h))
        invariant Ranked() && HeapAbove(ranks, j)
        decreases j
      {
        var i := UpOnce(j);
        if i == j {
          break;
        }
        j := i;
      }
    }

    /** Swaps two ranked items, and their ranks. */
    method SwapRanked(i: nat, j: nat)
      requires Ranked() && i < |ranks| && j < |ranks|
      modifies this`h, this`ranks
      ensures Ranked() && ranks == Swapped(old(ranks), i, j)
      ensures |h| == old(|h|) && multiset(h) == old(multiset(h))
      ensures forall x :: 0 <= x < |h| && x != i && x != j ==> h[x] == old(h)[x]
    {
      ranks := Swapped(ranks, i, j);
      Swap(i, j);
    }

    /** The smaller of the children of i among the first n items. */
    method SmallerChild(i: nat, n: nat) returns (j: nat)
      requires Tied() && Ranked() && 2 * i + 1 < n == |ranks|
      ensures j < n && SmallChild(ranks, i, j)
    {
      hide Tied, Ranked, RankLess, SmallChild;
      var j1 := 2 * i + 1;
      j := j1;
      var j2 := j1 + 1;
      if j2 < n {
        var less := Lesser(j2, j1);
        if less {
          j := j2;
        }
      }
      SmallerOfTwo(ranks, i, j);
    }

    /** One turn of the sift-down loop: the position item i moves to, i itself when it stops. */
    method DownOnce(i: nat, n: nat) returns (j: nat)
      requires Tied() && Ranked() && i < n == |ranks| && HeapBelow(ranks, i)
      modifies this`h, this`ranks
      ensures |h| == old(|h|) && multiset(h) == old(multiset(h))
      ensures forall x :: n <= x < |h| ==> h[x] == old(h[x])
      ensures Ranked() && |ranks| == n && if j == i then Heap(ranks) else i < j < n && HeapBelow(ranks, j)
    {
      RanksHeld();
      hide Tied, Ranked, RankLess, Heap, HeapBelow, SmallChild, Swapped;
      if 2 * i + 1 >= n {
        NoChild(ranks, i);
        return i;
      }
      j := SmallerChild(i, n);
      ChildIsBelow(ranks, i, j);
      var less := Lesser(j, i);
      if !less {
        StopsAt(ranks, i, j);
        return i;
      }
      SiftDownStep(ranks, i, j);
      SwapRanked(i, j);
    }

    lemma RanksHeld()
      requires Ranked()
      ensures |ranks| <= |h|
    {
    }

    /** Sift down within the first n items. */
    method Down(i0: nat, n: nat)
      requires Tied() && Ranked() && n == |ranks| && (n > 0 ==> i0 < n) && HeapBelow(ranks, i0)
      modifies this`h, this`ranks
      ensures |h| == old(|h|) && multiset(h) == old(multiset(h))
      ensures forall x :: n <= x < |h| ==> h[x] == old(h[x])
      ensures Ranked() && |ranks| == n && Heap(ranks)
    {
      var i := i0;
      while i < n
        invariant |h| == old(|h|) && multiset(h) == old(multiset(h))
        invariant forall x :: n <= x < |h| ==> h[x] == old(h[x])
        invariant Ranked() && |ranks| == n && (n > 0 ==> i < n) && HeapBelow(ranks, i)
        decreases n - i
      {
        var j := DownOnce(i, n);
        if j == i {
          break;
        }
        i := j;
      }
    }

    method Push(x: Item)
      requires Tied() && Ordered() && Known(x)
      modifies this`h, this`ranks
      ensures multiset(h) == old(multiset(h)) + multiset{x} && Ordered()
    {
      HeapPushed(ranks, RankOf(x));
      ranks := ranks + [RankOf(x)];
      h := h + [x];
      Up(|h| - 1);
    }

    /** All items but the root are ranked as before the root's iterator moved. */
    ghost predicate RankedBelowRoot()
      reads this`h, this`ranks, this`rests
    {
      && 0 < |h| == |ranks| && Heap(ranks)
      && forall i :: 1 <= i < |h| ==> Known(h[i]) && ranks[i] == RankOf(h[i])
    }

    /** Removes the root; only the root may be exhausted. */
    method Pop() returns (x: Item)
      requires Tied() && RankedBelowRoot()
      modifies this`h, this`ranks
      ensures x == old(h[0]) && multiset(h) == old(multiset(h)) - multiset{x}
      ensures Ordered()
    {
      BelowRootHeld();
      hide Tied, Ranked, Heap, HeapBelow, RankedBelowRoot, Swapped;
      var n := |h| - 1;
      SwapWithLast();
      Down(0, n);
      x := CutLast();
    }

    lemma BelowRootHeld()
      requires RankedBelowRoot()
      ensures 0 < |h| == |ranks|
    {
    }

    method SwapWithLast()
      requires RankedBelowRoot()
      modifies this`h, this`ranks
      ensures |h| == old(|h|) && multiset(h) == old(multiset(h)) && h[|h| - 1] == old(h)[0]
      ensures |ranks| == |h| - 1 && Ranked() && HeapBelow(ranks, 0)
    {
      var n := |h| - 1;
      HeapPopped(ranks, n);
      ranks := if n == 0 then [] else ranks[..n][0 := ranks[n]];
      Swap(0, n);
    }

    method CutLast() returns (x: Item)
      requires Ranked() && |h| == |ranks| + 1
      modifies this`h
      ensures x == old(h)[|ranks|] && h == old(h)[..|ranks|] && Ranked()
      ensures multiset(h) == old(multiset(h)) - multiset{x}
    {
      var n := |h| - 1;
      x := h[n];
      assert h == h[..n] + [x];
      h := h[..n];
    }

    /** Restores the heap order after the root's iterator has moved; drops it when it is exhausted. */
    method Resift()
      requires Tied() && RankedBelowRoot() && h[0].priority < |iters| && iters[h[0].priority] == h[0].iter
      modifies this`h, this`ranks
      ensures Ordered()
      ensures multiset(h) ==
        old(multiset(h)) - if rests[old(h)[0].priority] != [] then multiset{} else multiset{old(h)[0]}
    {
      if h[0].iter.Valid() {
        HeapRerooted(ranks, RankOf(h[0]));
        ranks := ranks[0 := RankOf(h[0])];
        Down(0, |h|);
      } else {
        var x := Pop();
      }
    }

    /** The iterator at the root moves on. */
    method AdvanceRoot()
      requires Sound() && h != []
      modifies this`h, this`ranks, this`rests, iters
      ensures Sound()
      ensures var p := old(h[0].priority);
        p < |old(rests)| && old(rests)[p] != [] && rests == old(rests)[p := old(rests)[p][1..]]
    {
      OthersDiffer();
      MoveOn(h[0].priority);
      RestoreOrder();
    }

    /** One iterator moves on, the others stay where they are. */
    method MoveOn(p: nat)
      requires Tied() && p < |iters| && rests[p] != []
      modifies this`rests, iters
      ensures Tied() && rests == old(rests)[p := old(rests)[p][1..]]
    {
      assert forall q :: 0 <= q < |iters| && q != p && iters[q] != null ==> iters[q] != iters[p];
      iters[p].Next();
      rests := rests[p := rests[p][1..]];
    }

    method RestoreOrder()
      requires Tied() && RankedBelowRoot() && h[0].priority < |iters| && iters[h[0].priority] == h[0].iter
      requires forall x :: x in multiset(h) ==> multiset(h)[x] == 1 && (x == h[0] || Known(x))
      requires forall p: nat :: p < |iters| && rests[p] != [] ==> iters[p] != null && Item(iters[p], p) in multiset(h)
      modifies this`h, this`ranks
      ensures Sound()
    {
      SameLength();
      BelowRootHeld();
      hide Tied, Ordered, RankedBelowRoot, Holds;
      ghost var was, root := multiset(h), h[0];
      assert root in was;
      Resift();
      StillHeld(was, root);
    }

    /** Dropping the root exactly when its iterator is exhausted leaves what the heap has to hold. */
    lemma StillHeld(was: multiset<Item>, root: Item)
      requires |rests| == |iters|
      requires root.priority < |iters| && iters[root.priority] == root.iter && was[root] == 1
      requires forall x :: x in was ==> was[x] == 1 && (x == root || Known(x))
      requires forall p: nat :: p < |iters| && rests[p] != [] ==> iters[p] != null && Item(iters[p], p) in was
      requires multiset(h) == was - if rests[root.priority] != [] then multiset{} else multiset{root}
      ensures Holds(|iters|)
    {
      forall x | x in multiset(h)
        ensures Known(x) && multiset(h)[x] == 1
      {
        assert x in was;
      }
    }

    lemma OthersDiffer()
      requires Sound() && h != []
      ensures Known(h[0])
      ensures forall j :: 1 <= j < |h| ==> h[j].priority != h[0].priority
    {
      hide Tied, Ordered;
      assert h[0] in multiset(h);
      forall j | 1 <= j < |h|
        ensures h[j].priority != h[0].priority
      {
        assert h[j] in multiset(h);
        HeldOnce(h, j);
      }
    }

    lemma HeldOnce(s: seq<Item>, j: nat)
      requires 1 <= j < |s| && multiset(s)[s[0]] == 1
      ensures s[j] != s[0]
    {
      var rest := s[1..];
      assert s == [s[0]] + rest;
      assert multiset(s)[s[0]] == 1 + multiset(rest)[s[0]];
      assert rest[j - 1] in multiset(rest);
    }

    /** The root of the heap is the least head, and the first run that has it. */
    lemma RootIsLeastHead()
      requires Sound() && h != []
      ensures LeastHead(rests, h[0].priority)
      ensures h[0].iter.Valid() && h[0].iter.Current() == rests[h[0].priority][0]
      ensures AllAscending(rests)
    {
      LessIsStrictOrder();
      forall p: nat | p < |iters| && rests[p] != []
        ensures AtMost(ranks[0].key, rests[p][0].key)
        ensures rests[p][0].key == ranks[0].key ==> h[0].priority <= p
      {
        assert Item(iters[p], p) in multiset(h);
        var j :| 0 <= j < |h| && h[j] == Item(iters[p], p);
        RootIsLeast(ranks, j);
      }
    }

    /** Takes the least key off the heap: shows the entry of its highest iterator, discards the others. */
    method TakeLeast() returns (e: Entry)
      requires Sound() && h != []
      modifies this`h, this`ranks, this`rests, this`currKeyBuf, iters
      ensures Sound()
      ensures Merge(old(rests)) == [e] + Merge(rests)
    {
      hide Tied, Holds, Ordered, Less;
      ghost var p := h[0].priority;
      RootIsLeastHead();
      e := h[0].iter.Current();
      currKeyBuf := e.key;
      DropsOneMore(rests, rests, e.key, p);
      MergeUnrolls(rests, p);
      ghost var before := rests;
      AdvanceRoot();
      DiscardDuplicates(before);
    }

    method DiscardDuplicates(ghost before: seq<seq<Entry>>)
      requires Sound()
      requires AllAscending(before) && NoHeadBelow(before, currKeyBuf)
      requires PartlyDropped(before, rests, currKeyBuf)
      modifies this`h, this`ranks, this`rests, iters
      ensures Sound()
      ensures rests == DropKey(before, currKeyBuf)
    {
      hide Tied, Holds, Ordered, Less;
      while |h| > 0 && h[0].iter.Key() == currKeyBuf
        invariant Sound()
        invariant PartlyDropped(before, rests, currKeyBuf)
        decreases TotalLength(rests)
      {
        assert h[0].iter.Key() == rests[h[0].priority][0].key by { RootIsLeastHead(); }
        DropsOneMore(before, rests, currKeyBuf, h[0].priority);
        ShorterByOne(rests, h[0].priority);
        AdvanceRoot();
      }
      NoneLeft(before);
    }

    /** Once the root has another key, every run that had this key at its head has lost it. */
    lemma NoneLeft(before: seq<seq<Entry>>)
      requires Sound()
      requires AllAscending(before) && NoHeadBelow(before, currKeyBuf)
      requires PartlyDropped(before, rests, currKeyBuf)
      requires h != [] ==> h[0].iter.Key() != currKeyBuf
      ensures rests == DropKey(before, currKeyBuf)
    {
      HeadsStayAbove(before, rests, currKeyBuf);
      if h != [] {
        RootIsLeastHead();
        LessTotal(currKeyBuf, h[0].iter.Key());
      }
      forall p: nat | p < |rests| && rests[p] != []
        ensures rests[p][0].key != currKeyBuf
      {
        assert Item(iters[p], p) in multiset(h);
      }
      AllDropped(before, rests, currKeyBuf);
    }

    /** Shows the next entry, if there is one. */
    method Advance()
      requires Sound()
      modifies this, iters
      ensures Inv()
      ensures Remaining() == old(Pending())
    {
      hide Tied, Holds, Ordered;
      current := NextShown();
      valid := current.Some?;
    }

    /** The loop of `advance`: skips tombstones when asked to. */
    method NextShown() returns (e: Option<Entry>)
      requires Sound()
      modifies this`h, this`ranks, this`rests, this`currKeyBuf, iters
      ensures Sound()
      ensures e.None? ==> Pending() == []
      ensures old(Pending()) == if e.Some? then [e.value] + Pending() else []
    {
      while true
        invariant Sound()
        invariant Pending() == old(Pending())
        decreases |Merge(rests)|
      {
        if |h| == 0 {
          NothingPending();
          return None;
        }
        ghost var before := Merge(rests);
        var candidate := TakeLeast();
        assert before[0] == candidate && before[1..] == Merge(rests);
        if dropTombstones && candidate.IsTombstone() {
          continue;
        }
        return Some(candidate);
      }
    }

    lemma NothingPending()
      requires Sound() && h == []
      ensures Pending() == []
    {
      assert forall p: nat :: p < |iters| ==> rests[p] == [];
      MergeOfEmpty(rests);
    }

    /** Fills the heap from the iterators that are not exhausted. */
    method PushAll()
      requires Tied()
      modifies this`h, this`ranks
      ensures Sound()
    {
      hide Tied, Holds, Ordered;
      SameLength();
      Empty();
      for idx := 0 to |iters|
        invariant |iters| == |rests| && Tied() && Holds(idx) && Ordered()
      {
        ExhaustedOrNot(idx);
        var it := iters[idx];
        if it != null && it.Valid() {
          PushIterator(idx);
        }
      }
    }

    method Empty()
      requires |rests| == |iters|
      modifies this`h, this`ranks
      ensures Holds(0) && Ordered()
    {
      h, ranks := [], [];
    }

    lemma SameLength()
      requires Tied()
      ensures |rests| == |iters|
    {
    }

    lemma ExhaustedOrNot(idx: nat)
      requires Tied() && idx < |iters| && Holds(idx)
      ensures rests[idx] != [] <==> iters[idx] != null && iters[idx].Valid()
      ensures rests[idx] == [] ==> Holds(idx + 1)
    {
    }

    method PushIterator(idx: nat)
      requires Tied() && idx < |iters| && Holds(idx) && Ordered() && rests[idx] != []
      modifies this`h, this`ranks
      ensures Holds(idx + 1) && Ordered()
    {
      var x := Item(iters[idx], idx);
      ghost var was := multiset(h);
      Push(x);
      assert forall y :: y in multiset(h) <==> y in was || y == x;
    }

    /** The iterator shows the merge of what the given iterators still had to show. */
    constructor (its: seq<Cursor?>, drop: bool)
      requires Usable(its)
      modifies its
      ensures iters == its && dropTombstones == drop && Inv()
      ensures Remaining() == Keep(Merge(old(Rests(its))), drop)
    {
      iters, dropTombstones := its, drop;
      h, current, currKeyBuf, valid := [], None, [], false;
      rests, ranks := Rests(its), [];
      new;
      PushAll();
      Advance();
    }

    method Next()
      requires Inv()
      modifies this, iters
      ensures Inv()
      ensures Remaining() == if old(Remaining()) == [] then [] else old(Remaining())[1..]
    {
      if valid {
        Advance();
      }
    }

    /** Every iterator is sent to `target`, from wherever it stood, and the heap is built anew. */
    method Seek(target: Key)
      requires Inv()
      modifies this, iters
      ensures Inv()
      ensures Remaining() == From(Keep(Merge(Wholes(iters)), dropTombstones), target)
    {
      SeekAll(target);
      PushAll();
      assert rests == AllFrom(Wholes(iters), target);
      MergeFrom(Wholes(iters), target, dropTombstones);
      Advance();
    }

    method SeekAll(target: Key)
      requires Usable(iters)
      modifies this`rests, iters
      ensures Tied() && AllAscending(Wholes(iters))
      ensures forall p :: 0 <= p < |iters| ==> rests[p] == From(RunOf(iters[p]), target)
    {
      for idx := 0 to |iters|
        invariant Usable(iters)
        invariant forall p :: 0 <= p < idx && iters[p] != null ==> iters[p].Rest() == From(iters[p].entries, target)
      {
        if iters[idx] != null {
          iters[idx].Seek(target);
        }
      }
      rests := Rests(iters);
    }
  }
}
