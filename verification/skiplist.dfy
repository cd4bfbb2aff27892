/**
 The skip list (pkg/memtable/skiplist.go): nodes of random height, linked at every level up to their
 height to the next node that is as tall.
 */
module SkipLists {
  import opened Bytes
  import opened Entries
  import opened Runs
  import opened Upsert
  import opened Cursors

  const MAX_HEIGHT: nat := 20

  class Node {
    var entry: Entry
    var next: seq<Node?>

    constructor (entry: Entry, height: nat)
      ensures this.entry == entry && next == seq(height, _ => null)
    {
      this.entry, next := entry, seq(height, _ => null);
    }
  }

  // ----- Which node a level links to, by heights -----

  /** The first position from q on whose height exceeds l, or the length. */
  function NextTall(hs: seq<nat>, q: nat, l: nat): (r: nat)
    requires q <= |hs|
    ensures q <= r <= |hs|
    decreases |hs| - q
  {
    if q == |hs| then q else if hs[q] > l then q else NextTall(hs, q + 1, l)
  }

  lemma {:induction false} NextTallIs(hs: seq<nat>, q: nat, l: nat)
    requires q <= |hs|
    ensures var r := NextTall(hs, q, l);
      && (r < |hs| ==> hs[r] > l)
      && forall x :: q <= x < r ==> hs[x] <= l
    decreases |hs| - q
  {
    if q < |hs| && hs[q] <= l {
      NextTallIs(hs, q + 1, l);
    }
  }

  lemma {:induction false} NextTallUnique(hs: seq<nat>, q: nat, l: nat, r: nat)
    requires q <= r <= |hs| && (r < |hs| ==> hs[r] > l) && forall x :: q <= x < r ==> hs[x] <= l
    ensures NextTall(hs, q, l) == r
    decreases |hs| - q
  {
    if q < r {
      NextTallUnique(hs, q + 1, l, r);
    }
  }

  function Inserted<T>(s: seq<T>, at: nat, x: T): (r: seq<T>)
    requires at <= |s|
    ensures |r| == |s| + 1 && r[at] == x
    ensures forall i :: 0 <= i < at ==> r[i] == s[i]
    ensures forall i :: at <= i < |s| ==> r[i + 1] == s[i]
  {
    s[..at] + [x] + s[at..]
  }

  /** The link of a node before the insertion point, once a node of height h is inserted. */
  lemma NextTallBefore(hs: seq<nat>, at: nat, h: nat, q: nat, l: nat)
    requires q <= at <= |hs|
    ensures var r := NextTall(hs, q, l);
      NextTall(Inserted(hs, at, h), q, l) == if r < at then r else if h > l then at else r + 1
  {
    var hs', r := Inserted(hs, at, h), NextTall(hs, q, l);
    NextTallIs(hs, q, l);
    var r' := if r < at then r else if h > l then at else r + 1;
    forall x | q <= x < r'
      ensures hs'[x] <= l
    {
      if x > at { assert hs'[x] == hs[x - 1]; }
    }
    assert r >= at && r < |hs| ==> hs'[r + 1] == hs[r];
    NextTallUnique(hs', q, l, r');
  }

  /** The link of a node after the insertion point. */
  lemma NextTallBehind(hs: seq<nat>, at: nat, h: nat, q: nat, l: nat)
    requires at <= q <= |hs|
    ensures NextTall(Inserted(hs, at, h), q + 1, l) == NextTall(hs, q, l) + 1
  {
    var hs', r := Inserted(hs, at, h), NextTall(hs, q, l);
    NextTallIs(hs, q, l);
    forall x | q + 1 <= x < r + 1
      ensures hs'[x] <= l
    {
      assert hs'[x] == hs[x - 1];
    }
    assert r < |hs| ==> hs'[r + 1] == hs[r];
    NextTallUnique(hs', q + 1, l, r + 1);
  }

  /** p is the last node before position `at` that is linked at level l. */
  ghost predicate LastBefore(hs: seq<nat>, at: nat, l: nat, p: nat) {
    p < at <= |hs| && hs[p] > l && NextTall(hs, p + 1, l) >= at
  }

  lemma LastBeforeIsUnique(hs: seq<nat>, at: nat, l: nat, p: nat, q: nat)
    requires LastBefore(hs, at, l, p) && q < at && hs[q] > l
    ensures NextTall(hs, q + 1, l) >= at <==> q == p
    ensures q != p ==> NextTall(hs, q + 1, l) < at
  {
    if p < q {
      NextTallStops(hs, p, l, q);
    } else if q < p {
      NextTallStops(hs, q, l, p);
    }
  }

  lemma NextTallStops(hs: seq<nat>, p: nat, l: nat, q: nat)
    requires p < q < |hs| && hs[q] > l
    ensures NextTall(hs, p + 1, l) <= q
  {
    NextTallIs(hs, p + 1, l);
  }

  lemma NextTallSkips(hs: seq<nat>, at: nat, l: nat, p: nat)
    requires LastBefore(hs, at, l, p)
    ensures NextTall(hs, at, l) == NextTall(hs, p + 1, l)
  {
    NextTallIs(hs, p + 1, l);
    NextTallUnique(hs, at, l, NextTall(hs, p + 1, l));
  }

  // ----- The memory estimate -----

  const NODE_OVERHEAD: nat := 32

  /** Entry size plus the estimated pointer overhead, summed over the nodes. */
  function Footprint(es: seq<Entry>, hs: seq<nat>): nat
    requires |es| == |hs|
  {
    if es == [] then 0 else es[0].Size() + NODE_OVERHEAD + 8 * hs[0] + Footprint(es[1..], hs[1..])
  }

  lemma {:induction false} FootprintInserted(es: seq<Entry>, hs: seq<nat>, at: nat, e: Entry, h: nat)
    requires at <= |es| == |hs|
    ensures Footprint(Inserted(es, at, e), Inserted(hs, at, h)) == Footprint(es, hs) + |e.key| + |e.value| + 48 + 8 * h
  {
    var es', hs' := Inserted(es, at, e), Inserted(hs, at, h);
    if at == 0 {
      assert es'[1..] == es && hs'[1..] == hs;
    } else {
      assert es'[1..] == Inserted(es[1..], at - 1, e) && hs'[1..] == Inserted(hs[1..], at - 1, h);
      assert es'[0] == es[0] && hs'[0] == hs[0];
      hide Inserted;
      FootprintInserted(es[1..], hs[1..], at - 1, e, h);
    }
  }

  lemma {:induction false} FootprintReplaced(es: seq<Entry>, hs: seq<nat>, at: nat, e: Entry)
    requires at < |es| == |hs|
    ensures Footprint(es[at := e], hs) ==
      Footprint(es, hs) + (|e.key| + |e.value|) - (|es[at].key| + |es[at].value|)
  {
    if at == 0 {
      assert es[at := e][1..] == es[1..];
    } else {
      FootprintReplaced(es[1..], hs[1..], at - 1, e);
      assert es[at := e][1..] == es[1..][at - 1 := e];
    }
  }

  // ----- The list -----

  class SkipList {
    const head: Node
    var height: nat
    var length: nat
    var bytes: int

    /** The nodes in order, the head first; their heights; the entries of all but the head. */
    ghost var chain: seq<Node>
    ghost var hs: seq<nat>
    ghost var entries: seq<Entry>

    ghost predicate Shape()
      reads this, chain
    {
      && |chain| == |hs| == |entries| + 1 && chain[0] == head
      && (forall p, q :: 0 <= p < q < |chain| ==> chain[p] != chain[q])
      && (forall p :: 1 <= p < |chain| ==> chain[p].entry == entries[p - 1])
    }

    ghost predicate Heights()
      reads this
    {
      && 1 <= height <= MAX_HEIGHT && |hs| > 0 && hs[0] == MAX_HEIGHT
      && forall p :: 1 <= p < |hs| ==> 1 <= hs[p] <= height
    }

    static ghost function At(chain: seq<Node>, r: nat): Node? {
      if r < |chain| then chain[r] else null
    }

    /** The nodes have these heights, and every level links each of its nodes to the next one as tall. */
    static ghost predicate LinkedAs(chain: seq<Node>, hs: seq<nat>)
      reads chain
    {
      && |chain| == |hs|
      && (forall p :: 0 <= p < |chain| ==> |chain[p].next| == hs[p])
      && (forall p, l {:trigger chain[p].next[l]} :: 0 <= p < |chain| && 0 <= l < hs[p] && l < |chain[p].next| ==>
            chain[p].next[l] == At(chain, NextTall(hs, p + 1, l)))
    }

    ghost predicate Linked()
      reads this, chain
    {
      LinkedAs(chain, hs)
    }

    ghost predicate Counted()
      reads this
    {
      && |hs| == |entries| + 1
      && length == |entries| && bytes == Footprint(entries, hs[1..])
    }

    ghost predicate Valid()
      reads this, chain
    {
      Shape() && Heights() && Linked() && Counted() && Ascending(entries)
    }

    constructor ()
      ensures Valid() && entries == [] && length == 0 && bytes == 0
      ensures fresh(chain)
    {
      var h := new Node(Entry([], [], 0, 0), MAX_HEIGHT);
      head, height, length, bytes := h, 1, 0, 0;
      chain, hs, entries := [h], [MAX_HEIGHT], [];
    }

    // ----- Search -----

    /** The path of the search: at each level below `height`, the last node before the key. */
    ghost predicate Path(at: nat, update: seq<Node?>, ps: seq<nat>, from: nat)
      reads this
    {
      && |update| == |ps| == MAX_HEIGHT && |chain| == |hs|
      && forall l :: from <= l < height && l < MAX_HEIGHT ==> LastBefore(hs, at, l, ps[l]) && update[l] == chain[ps[l]]
    }

    /** Where the key belongs in the chain. */
    ghost predicate Place(key: Key, at: nat)
      reads this
    {
      at > 0 && SplitsAt(entries, at - 1, key)
    }

    lemma PlaceOf(key: Key) returns (at: nat)
      requires Ascending(entries)
      ensures Place(key, at) && at <= |entries| + 1
    {
      var n := FromSplits(entries, key);
      at := n + 1;
    }

    /** One level of the descent: right while the next node lies below the key. */
    method WalkRight(start: Node, i: nat, key: Key, ghost at: nat, ghost p0: nat) returns (curr: Node, ghost p: nat)
      requires Shape() && Linked() && Place(key, at)
      requires p0 < at <= |hs| && p0 < |chain| && chain[p0] == start && hs[p0] > i
      ensures p < |chain| && curr == chain[p] && LastBefore(hs, at, i, p)
    {
      curr, p := start, p0;
      while curr.next[i] != null && Less(curr.next[i].entry.key, key)
        invariant p < at && p < |chain| && curr == chain[p] && hs[p] > i
        decreases at - p
      {
        NextTallIs(hs, p + 1, i);
        p := NextTall(hs, p + 1, i);
        curr := curr.next[i];
        assert curr == chain[p] && curr.entry == entries[p - 1];
      }
      assert curr.next[i] == At(chain, NextTall(hs, p + 1, i));
      assert curr.next[i] != null ==> curr.next[i].entry == entries[NextTall(hs, p + 1, i) - 1];
    }

    /** The descent from the top level to the bottom; update[l] is where level l was left. */
    method Descend(key: Key, ghost at: nat) returns (update: seq<Node?>, curr: Node, ghost ps: seq<nat>)
      requires Valid() && Place(key, at) && at <= |hs|
      ensures Path(at, update, ps, 0)
      ensures curr == update[0]
    {
      update, ps := seq(MAX_HEIGHT, _ => null), seq(MAX_HEIGHT, _ => 0);
      curr := head;
      ghost var p: nat := 0;
      var i: nat := height;
      while i > 0
        invariant 0 <= i <= height <= MAX_HEIGHT == |update| == |ps| && Path(at, update, ps, i)
        invariant p < at && p < |chain| == |hs| && curr == chain[p] && hs[p] >= i
        invariant i < height ==> curr == update[i] && p == ps[i]
      {
        i := i - 1;
        curr, p := WalkRight(curr, i, key, at, p);
        update, ps := update[i := curr], ps[i := p];
      }
    }

    /** At the bottom level the path ends right before the place of the key. */
    lemma PathEndsBefore(key: Key, at: nat, update: seq<Node?>, ps: seq<nat>)
      requires Valid() && Place(key, at) && at <= |hs| && Path(at, update, ps, 0)
      ensures update[0] != null && |update[0].next| > 0
      ensures |chain| == |entries| + 1 && at <= |chain|
      ensures update[0].next[0] == if at < |chain| then chain[at] else null
      ensures at < |chain| ==> chain[at].entry == entries[at - 1]
    {
      assert LastBefore(hs, at, 0, ps[0]);
      assert ps[0] + 1 < |hs| ==> NextTall(hs, ps[0] + 1, 0) == ps[0] + 1;
    }

    /** The lookup finds exactly what the list holds for the key. */
    method Get(key: Key) returns (r: Option<Entry>)
      requires Valid()
      ensures r == Find(entries, key)
    {
      ghost var at := PlaceOf(key);
      ghost var ps;
      var update, curr;
      update, curr, ps := Descend(key, at);
      PathEndsBefore(key, at, update, ps);
      FoundAtPlace(key, at);
      var candidate := curr.next[0];
      if candidate != null && candidate.entry.key == key {
        return Some(candidate.entry);
      }
      return None;
    }

    lemma FoundAtPlace(key: Key, at: nat)
      requires Ascending(entries) && Place(key, at)
      ensures Find(entries, key) ==
        if at - 1 < |entries| && entries[at - 1].key == key then Some(entries[at - 1]) else None
    {
      if at - 1 < |entries| && entries[at - 1].key == key {
        FindAt(entries, at - 1);
      } else {
        FindNone(entries, key);
        LessIsStrictOrder();
        assert at - 1 < |entries| ==> Less(key, entries[at - 1].key);
        assert forall i :: at - 1 < i < |entries| ==> Less(entries[at - 1].key, entries[i].key);
      }
    }

    // ----- Insertion -----

    /** The links of the old nodes after the first n levels of the new node have been spliced in. */
    ghost predicate Spliced(n: Node, h: nat, ps: seq<nat>, upTo: nat)
      reads this, chain
    {
      && |ps| == MAX_HEIGHT && |chain| == |hs|
      && (forall p :: 0 <= p < |chain| ==> |chain[p].next| == hs[p])
      && (forall p, l {:trigger chain[p].next[l]} :: 0 <= p < |chain| && 0 <= l < hs[p] && l < |chain[p].next| ==>
            chain[p].next[l] == LinkNow(n, ps, upTo, p, l))
    }

    /** The link of old node p at level l once the first upTo levels have been spliced. */
    ghost function LinkNow(n: Node, ps: seq<nat>, upTo: nat, p: nat, l: nat): Node?
      reads this
      requires |chain| == |hs| && p < |chain|
    {
      if l < upTo && l < |ps| && ps[l] == p then n else At(chain, NextTall(hs, p + 1, l))
    }

    /** The links of the new node at its first n levels. */
    ghost predicate NewLinks(n: Node, ps: seq<nat>, upTo: nat)
      reads this, n
    {
      && |ps| == MAX_HEIGHT && |chain| == |hs|
      && forall l :: 0 <= l < upTo && l < |n.next| && l < MAX_HEIGHT && ps[l] < |hs| ==>
           n.next[l] == At(chain, NextTall(hs, ps[l] + 1, l))
    }

    /** At each level of the new node: its successor is the old one, its predecessor points to it. */
    method Splice(n: Node, h: nat, update: seq<Node?>, ghost ps: seq<nat>, ghost at: nat)
      requires Shape() && Linked() && n !in chain && |n.next| == h <= MAX_HEIGHT
      requires |update| == |ps| == MAX_HEIGHT
      requires forall l :: 0 <= l < h ==> LastBefore(hs, at, l, ps[l]) && update[l] == chain[ps[l]]
      modifies n`next, chain`next
      ensures Spliced(n, h, ps, h) && NewLinks(n, ps, h) && |n.next| == h && Shape()
    {
      assert Spliced(n, h, ps, 0) && NewLinks(n, ps, 0);
      hide Spliced, NewLinks, Shape, LinkedAs;
      for i := 0 to h
        invariant Spliced(n, h, ps, i) && NewLinks(n, ps, i) && |n.next| == h && Shape()
      {
        PointTo(n, h, update[i], ps, at, i);
      }
    }

    /** One level: the new node takes over the link of u, and u points to the new node. */
    method PointTo(n: Node, h: nat, u: Node?, ghost ps: seq<nat>, ghost at: nat, i: nat)
      requires Shape() && n !in chain && |n.next| == h
      requires Spliced(n, h, ps, i) && NewLinks(n, ps, i) && i < h <= MAX_HEIGHT
      requires LastBefore(hs, at, i, ps[i]) && u == chain[ps[i]]
      modifies n`next, u`next
      ensures Spliced(n, h, ps, i + 1) && NewLinks(n, ps, i + 1) && |n.next| == h && Shape()
    {
      assert |u.next| > i && u.next[i] == At(chain, NextTall(hs, ps[i] + 1, i));
      hide Shape, Spliced, LastBefore;
      n.next := n.next[i := u.next[i]];
      hide NewLinks;
      Redirect(n, h, u, ps, i);
    }

    method Redirect(n: Node, h: nat, u: Node, ghost ps: seq<nat>, i: nat)
      requires Shape() && n !in chain && Spliced(n, h, ps, i) && i < h <= MAX_HEIGHT && i < |u.next|
      requires ps[i] < |chain| && u == chain[ps[i]]
      modifies u`next
      ensures Spliced(n, h, ps, i + 1) && Shape()
    {
      assert forall p :: 0 <= p < |chain| && p != ps[i] ==> chain[p] != u;
      u.next := u.next[i := n];
    }

    /** The links of the nodes before the new one, of the new one and of those behind it, in the new list. */
    static ghost predicate AroundLinked(chain: seq<Node>, hs: seq<nat>, n: Node, h: nat, at: nat, chain': seq<Node>,
                                        hs': seq<nat>)
      requires |chain| == |hs| && |hs'| == |hs| + 1 && at <= |hs|
      reads chain, n
    {
      && (forall p, l {:trigger chain[p].next[l]} :: 0 <= p < at && 0 <= l < hs[p] && l < |chain[p].next| ==>
            chain[p].next[l] == At(chain', NextTall(hs', p + 1, l)))
      && (forall l :: 0 <= l < h && l < |n.next| ==> n.next[l] == At(chain', NextTall(hs', at + 1, l)))
      && (forall p, l {:trigger chain[p].next[l]} :: at <= p < |hs| && 0 <= l < hs[p] && l < |chain[p].next| ==>
            chain[p].next[l] == At(chain', NextTall(hs', p + 2, l)))
    }

    /** The spliced list, described as a list with one more node. */
    lemma SplicedIsLinked(n: Node, h: nat, ps: seq<nat>, at: nat)
      requires Spliced(n, h, ps, h) && NewLinks(n, ps, h) && h <= MAX_HEIGHT && |n.next| == h
      requires 1 <= at <= |hs|
      requires forall l :: 0 <= l < h ==> LastBefore(hs, at, l, ps[l])
      ensures LinkedAs(Inserted(chain, at, n), Inserted(hs, at, h))
    {
      var chain', hs' := Inserted(chain, at, n), Inserted(hs, at, h);
      LinksAround(n, h, ps, at);
      assert forall p :: 0 <= p < |chain| ==> |chain[p].next| == hs[p];
      hide Spliced, NewLinks, LastBefore;
      AroundIsLinked(chain, hs, n, h, at, chain', hs');
    }

    lemma LinksAround(n: Node, h: nat, ps: seq<nat>, at: nat)
      requires Spliced(n, h, ps, h) && NewLinks(n, ps, h) && h <= MAX_HEIGHT && |n.next| == h
      requires 1 <= at <= |hs|
      requires forall l :: 0 <= l < h ==> LastBefore(hs, at, l, ps[l])
      ensures |chain| == |hs|
      ensures AroundLinked(chain, hs, n, h, at, Inserted(chain, at, n), Inserted(hs, at, h))
    {
      assert |chain| == |hs|;
      hide Spliced, NewLinks, LastBefore, NextTall;
      var chain', hs' := Inserted(chain, at, n), Inserted(hs, at, h);
      forall p: nat, l: nat | p < at && l < hs[p] && l < |chain[p].next|
        ensures chain[p].next[l] == At(chain', NextTall(hs', p + 1, l))
      {
        LinkOfEarlier(n, h, ps, at, p, l);
      }
      forall l: nat | l < h && l < |n.next|
        ensures n.next[l] == At(chain', NextTall(hs', at + 1, l))
      {
        NewLink(n, h, ps, at, l);
        LinkOfNew(chain, hs, n, h, ps, at, l);
      }
      forall p: nat, l: nat | at <= p < |hs| && l < hs[p] && l < |chain[p].next|
        ensures chain[p].next[l] == At(chain', NextTall(hs', p + 2, l))
      {
        LinkOfMoved(n, h, ps, at, p, l);
      }
    }

    static lemma AroundIsLinked(chain: seq<Node>, hs: seq<nat>, n: Node, h: nat, at: nat, chain': seq<Node>,
                                hs': seq<nat>)
      requires |chain| == |hs| && at <= |hs| && chain' == Inserted(chain, at, n) && hs' == Inserted(hs, at, h)
      requires AroundLinked(chain, hs, n, h, at, chain', hs')
      requires |n.next| == h && forall p :: 0 <= p < |chain| ==> |chain[p].next| == hs[p]
      ensures LinkedAs(chain', hs')
    {
      hide NextTall, At;
      forall p | 0 <= p < |chain'|
        ensures |chain'[p].next| == hs'[p]
        ensures forall l :: 0 <= l < hs'[p] ==> chain'[p].next[l] == At(chain', NextTall(hs', p + 1, l))
      {
        assert p < at ==> chain'[p] == chain[p] && hs'[p] == hs[p];
        assert p > at ==> chain'[p] == chain[p - 1] && hs'[p] == hs[p - 1];
      }
    }

    lemma LinkOfEarlier(n: Node, h: nat, ps: seq<nat>, at: nat, p: nat, l: nat)
      requires Spliced(n, h, ps, h) && h <= MAX_HEIGHT
      requires p < at <= |hs| && l < hs[p]
      requires l < h ==> LastBefore(hs, at, l, ps[l])
      ensures |chain| == |hs| && |chain[p].next| == hs[p]
      ensures chain[p].next[l] == At(Inserted(chain, at, n), NextTall(Inserted(hs, at, h), p + 1, l))
    {
      hide NextTall, LastBefore;
      OldLink(n, h, ps, p, l);
      assert |ps| == MAX_HEIGHT;
      hide Spliced;
      LinkBefore(chain, hs, n, h, ps, at, p, l);
    }

    /** What Spliced says about one link. */
    lemma OldLink(n: Node, h: nat, ps: seq<nat>, p: nat, l: nat)
      requires Spliced(n, h, ps, h) && h <= MAX_HEIGHT
      requires p < |hs| && l < hs[p]
      ensures |chain| == |hs| && |chain[p].next| == hs[p]
      ensures chain[p].next[l] == if l < h && ps[l] == p then n else At(chain, NextTall(hs, p + 1, l))
    {
      assert |chain[p].next| == hs[p];
      assert chain[p].next[l] == LinkNow(n, ps, h, p, l);
    }

    lemma NewLink(n: Node, h: nat, ps: seq<nat>, at: nat, l: nat)
      requires NewLinks(n, ps, h) && h <= MAX_HEIGHT && |n.next| == h && l < h && LastBefore(hs, at, l, ps[l])
      ensures n.next[l] == At(chain, NextTall(hs, ps[l] + 1, l))
    {
    }

    lemma LinkOfMoved(n: Node, h: nat, ps: seq<nat>, at: nat, q: nat, l: nat)
      requires Spliced(n, h, ps, h) && h <= MAX_HEIGHT
      requires 1 <= at <= q < |hs| && l < hs[q]
      requires l < h ==> LastBefore(hs, at, l, ps[l])
      ensures |chain| == |hs| && |chain[q].next| == hs[q]
      ensures chain[q].next[l] == At(Inserted(chain, at, n), NextTall(Inserted(hs, at, h), q + 2, l))
    {
      hide NextTall, Inserted;
      OldLink(n, h, ps, q, l);
      assert |ps| == MAX_HEIGHT;
      assert l < h ==> ps[l] < q;
      hide Spliced, LastBefore;
      LinkMoved(chain, hs, n, h, at, q + 1, l);
    }

    static lemma LinkBefore(chain: seq<Node>, hs: seq<nat>, n: Node, h: nat, ps: seq<nat>, at: nat, p: nat, l: nat)
      requires |chain| == |hs| && p < at <= |hs| && l < hs[p] && h <= |ps|
      requires l < h ==> LastBefore(hs, at, l, ps[l])
      ensures At(Inserted(chain, at, n), NextTall(Inserted(hs, at, h), p + 1, l))
           == if l < h && ps[l] == p then n else At(chain, NextTall(hs, p + 1, l))
    {
      var r := NextTall(hs, p + 1, l);
      NextTallBefore(hs, at, h, p + 1, l);
      if l < h {
        LastBeforeIsUnique(hs, at, l, ps[l], p);
      }
      assert r >= at && r < |chain| ==> Inserted(chain, at, n)[r + 1] == chain[r];
    }

    static lemma LinkOfNew(chain: seq<Node>, hs: seq<nat>, n: Node, h: nat, ps: seq<nat>, at: nat, l: nat)
      requires |chain| == |hs| && at <= |hs| && l < h <= |ps| && LastBefore(hs, at, l, ps[l])
      ensures At(Inserted(chain, at, n), NextTall(Inserted(hs, at, h), at + 1, l)) ==
        At(chain, NextTall(hs, ps[l] + 1, l))
    {
      NextTallSkips(hs, at, l, ps[l]);
      LinkMoved(chain, hs, n, h, at, at, l);
    }

    static lemma LinkMoved(chain: seq<Node>, hs: seq<nat>, n: Node, h: nat, at: nat, p: nat, l: nat)
      requires |chain| == |hs| && at <= p <= |hs|
      ensures At(Inserted(chain, at, n), NextTall(Inserted(hs, at, h), p + 1, l)) == At(chain, NextTall(hs, p, l))
    {
      var r := NextTall(hs, p, l);
      NextTallBehind(hs, at, h, p, l);
      assert r < |chain| ==> Inserted(chain, at, n)[r + 1] == chain[r];
    }

    /** The levels above the old height are empty: the head is the last node before any place. */
    lemma HeadIsLast(at: nat, l: nat)
      requires Heights() && height <= l < MAX_HEIGHT && 1 <= at <= |hs|
      ensures LastBefore(hs, at, l, 0)
    {
      NextTallIs(hs, 1, l);
    }

    /** A taller node than any before: the levels it adds start at the head. */
    method RaiseHeight(h: nat, update0: seq<Node?>, ghost ps0: seq<nat>, ghost at: nat)
      returns (update: seq<Node?>, ghost ps: seq<nat>)
      requires Valid() && 1 <= h <= MAX_HEIGHT && 1 <= at <= |hs|
      requires Path(at, update0, ps0, 0)
      modifies this`height
      ensures height >= h && Valid() && Path(at, update, ps, 0)
    {
      hide Ascending, Footprint, LinkedAs;
      update, ps := update0, ps0;
      if h > height {
        for i := height to h
          invariant height == old(height) && |update| == |ps| == MAX_HEIGHT
          invariant forall l: nat :: l < i && l < MAX_HEIGHT ==>
            LastBefore(hs, at, l, ps[l]) && update[l] == chain[ps[l]]
        {
          HeadIsLast(at, i);
          update, ps := update[i := head], ps[i := 0];
        }
        height := h;
      }
    }

    /** Makes the new node and links it in. */
    method LinkIn(entry: Entry, h: nat, update: seq<Node?>, ghost ps: seq<nat>, ghost at: nat) returns (n: Node)
      requires Shape() && Linked() && 1 <= h <= height <= MAX_HEIGHT && 1 <= at <= |hs| && Path(at, update, ps, 0)
      modifies chain`next
      ensures fresh(n) && n.entry == entry && Shape() && LinkedAs(Inserted(chain, at, n), Inserted(hs, at, h))
    {
      n := new Node(entry, h);
      assert forall l :: 0 <= l < h ==> LastBefore(hs, at, l, ps[l]) && update[l] == chain[ps[l]];
      Splice(n, h, update, ps, at);
      hide Spliced, NewLinks, LinkedAs, Shape, LastBefore;
      SplicedIsLinked(n, h, ps, at);
    }

    method AddNode(entry: Entry, h: nat, update: seq<Node?>, ghost ps: seq<nat>, ghost at: nat)
      requires Valid() && 1 <= h <= height && 1 <= at <= |hs| && Path(at, update, ps, 0)
      requires at - 1 <= |entries| && Ascending(Inserted(entries, at - 1, entry))
      modifies this, chain`next
      ensures Valid() && entries == Inserted(old(entries), at - 1, entry)
      ensures bytes == old(bytes) + entry.Size() + NODE_OVERHEAD + 8 * h
      ensures forall n :: n in chain ==> n in old(chain) || fresh(n)
    {
      SizesAre();
      CountInserted(entry, h, at);
      hide Ascending, Footprint, Heights, LinkedAs, Path, Shape, Counted, Inserted;
      var n := LinkIn(entry, h, update, ps, at);
      InsertedMembers(chain, at, n);
      Record(n, entry, h, at);
    }

    static lemma InsertedMembers(s: seq<Node>, at: nat, n: Node)
      requires at <= |s|
      ensures forall x :: x in Inserted(s, at, n) ==> x in s || x == n
    {
    }

    lemma SizesAre()
      requires Valid()
      ensures height <= MAX_HEIGHT && |hs| == |chain| == |entries| + 1
    {
      hide Linked, Counted, Ascending;
    }

    lemma CountInserted(entry: Entry, h: nat, at: nat)
      requires Counted() && |hs| == |entries| + 1 && 1 <= at <= |hs|
      ensures Footprint(Inserted(entries, at - 1, entry), Inserted(hs, at, h)[1..]) ==
        bytes + entry.Size() + NODE_OVERHEAD + 8 * h
    {
      assert Inserted(hs, at, h)[1..] == Inserted(hs[1..], at - 1, h);
      FootprintInserted(entries, hs[1..], at - 1, entry, h);
    }

    /** The counters and the ghost view of the list with the new node. */
    method Record(n: Node, entry: Entry, h: nat, ghost at: nat)
      requires Heights() && 1 <= h <= height && 1 <= at <= |hs| && Shape() && n !in chain && n.entry == entry
      requires Ascending(Inserted(entries, at - 1, entry))
      requires Counted() && at - 1 <= |entries|
      requires Footprint(Inserted(entries, at - 1, entry), Inserted(hs, at, h)[1..]) ==
        bytes + entry.Size() + NODE_OVERHEAD + 8 * h
      requires LinkedAs(Inserted(chain, at, n), Inserted(hs, at, h))
      modifies this
      ensures height == old(height)
      ensures chain == Inserted(old(chain), at, n) && entries == Inserted(old(entries), at - 1, entry)
      ensures Valid() && bytes == old(bytes) + entry.Size() + NODE_OVERHEAD + 8 * h
    {
      hide Ascending, Footprint, LinkedAs;
      ShapeInserted(n, entry, h, at);
      length := length + 1;
      bytes := bytes + entry.Size() + (NODE_OVERHEAD + 8 * h);
      chain, hs, entries := Inserted(chain, at, n), Inserted(hs, at, h), Inserted(entries, at - 1, entry);
    }

    lemma ShapeInserted(n: Node, entry: Entry, h: nat, at: nat)
      requires Shape() && Heights() && 1 <= at <= |hs| && n !in chain && n.entry == entry && 1 <= h <= height
      ensures var c, s, e := Inserted(chain, at, n), Inserted(hs, at, h), Inserted(entries, at - 1, entry);
        && c[0] == head && (forall p, q :: 0 <= p < q < |c| ==> c[p] != c[q])
        && (forall p :: 1 <= p < |c| ==> c[p].entry == e[p - 1])
        && s[0] == MAX_HEIGHT && (forall p :: 1 <= p < |s| ==> 1 <= s[p] <= height)
    {
      InsertedDistinct(chain, at, n);
      var c, s, e := Inserted(chain, at, n), Inserted(hs, at, h), Inserted(entries, at - 1, entry);
      forall p | 1 <= p < |c|
        ensures c[p].entry == e[p - 1] && 1 <= s[p] <= height
      {
        assert p > at ==> c[p] == chain[p - 1] && e[p - 1] == entries[p - 2] && s[p] == hs[p - 1];
      }
    }

    static lemma InsertedDistinct(chain: seq<Node>, at: nat, n: Node)
      requires at <= |chain| && n !in chain && forall p, q :: 0 <= p < q < |chain| ==> chain[p] != chain[q]
      ensures var c := Inserted(chain, at, n); forall p, q :: 0 <= p < q < |c| ==> c[p] != c[q]
    {
      var c := Inserted(chain, at, n);
      forall p, q | 0 <= p < q < |c|
        ensures c[p] != c[q]
      {
        assert p > at ==> c[p] == chain[p - 1];
        assert q > at ==> c[q] == chain[q - 1];
      }
    }

    /** The key is there: its entry is replaced, whatever the timestamps, and the sizes are corrected. */
    method Replace(n: Node, entry: Entry, ghost at: nat)
      requires Valid() && 1 <= at < |chain| && n == chain[at] && at - 1 < |entries| && entries[at - 1].key == entry.key
      modifies this`bytes, this`entries, n`entry
      ensures Valid() && entries == old(entries)[at - 1 := entry]
      ensures bytes == old(bytes) - old(entries)[at - 1].Size() + entry.Size()
    {
      FootprintReplaced(entries, hs[1..], at - 1, entry);
      ReplacedAscending(entries, at - 1, entry);
      hide Ascending, Footprint, Heights, LinkedAs;
      var oldSize := n.entry.Size();
      SetEntry(n, entry, at);
      bytes := bytes + (entry.Size() - oldSize);
    }

    method SetEntry(n: Node, entry: Entry, ghost at: nat)
      requires Shape() && LinkedAs(chain, hs) && 1 <= at < |chain| && n == chain[at]
      modifies this`entries, n`entry
      ensures entries == old(entries)[at - 1 := entry] && Shape() && LinkedAs(chain, hs)
    {
      assert forall p :: 0 <= p < |chain| && p != at ==> chain[p] != n;
      n.entry := entry;
      entries := entries[at - 1 := entry];
    }

    /** An entry takes the place of the one with its key, or goes in where it belongs; h is the height drawn. */
    method Put(entry: Entry, h: nat)
      requires Valid() && 1 <= h <= MAX_HEIGHT
      modifies this, chain
      ensures Valid() && entries == Upsert.Put(old(entries), entry)
      ensures bytes == old(bytes) + Growth(old(entries), entry, h)
      ensures forall n :: n in chain ==> n in old(chain) || fresh(n)
    {
      ghost var at := PlaceOf(entry.key);
      var update, curr;
      ghost var ps;
      update, curr, ps := Descend(entry.key, at);
      PathEndsBefore(entry.key, at, update, ps);
      PlaceInRun(entry, h, at);
      hide *;
      var candidate := curr.next[0];
      if candidate != null && candidate.entry.key == entry.key {
        Replace(candidate, entry, at);
      } else {
        Insert(entry, h, update, ps, at);
      }
    }

    method Insert(entry: Entry, h: nat, update0: seq<Node?>, ghost ps0: seq<nat>, ghost at: nat)
      requires Valid() && 1 <= h <= MAX_HEIGHT && 1 <= at <= |hs| && Path(at, update0, ps0, 0)
      requires at - 1 <= |entries| && Ascending(Inserted(entries, at - 1, entry))
      modifies this, chain`next
      ensures Valid() && entries == Inserted(old(entries), at - 1, entry)
      ensures bytes == old(bytes) + entry.Size() + NODE_OVERHEAD + 8 * h
      ensures forall n :: n in chain ==> n in old(chain) || fresh(n)
    {
      hide Valid, Path, Ascending;
      var update;
      ghost var ps;
      update, ps := RaiseHeight(h, update0, ps0, at);
      AddNode(entry, h, update, ps, at);
    }

    lemma PlaceInRun(entry: Entry, h: nat, at: nat)
      requires Valid() && Place(entry.key, at)
      ensures 1 <= at <= |chain| && |chain| == |hs| == |entries| + 1
      ensures at < |chain| && entries[at - 1].key == entry.key ==>
                && Upsert.Put(entries, entry) == entries[at - 1 := entry]
                && Growth(entries, entry, h) == entry.Size() - entries[at - 1].Size()
      ensures !(at < |chain| && entries[at - 1].key == entry.key) ==>
                && Upsert.Put(entries, entry) == Inserted(entries, at - 1, entry)
                && Ascending(Inserted(entries, at - 1, entry))
                && Growth(entries, entry, h) == entry.Size() + NODE_OVERHEAD + 8 * h
    {
      FoundAtPlace(entry.key, at);
      PutIsInserted(entries, at - 1, entry);
    }

    // ----- Iteration -----

    /** A snapshot of all entries, in key order. */
    method NewIterator() returns (c: Cursor)
      requires Valid()
      ensures fresh(c) && c.Ok() && c.entries == entries && c.idx == 0
    {
      BottomLink(0);
      var nodes: seq<Entry> := [];
      var curr := head.next[0];
      ghost var p: nat := 1;
      while curr != null
        invariant 1 <= p <= |chain| && curr == At(chain, p) && nodes == entries[..p - 1]
        decreases |chain| - p
      {
        BottomLink(p);
        nodes := nodes + [curr.entry];
        curr := curr.next[0];
        p := p + 1;
      }
      assert nodes == entries;
      c := new Cursor(nodes);
    }

    lemma BottomLink(p: nat)
      requires Valid() && p < |chain|
      ensures |chain[p].next| > 0 && chain[p].next[0] == At(chain, p + 1)
      ensures p >= 1 ==> chain[p].entry == entries[p - 1]
    {
      assert p + 1 < |hs| ==> NextTall(hs, p + 1, 0) == p + 1;
    }

    // ----- The levels -----

    /** Following level l from n on visits exactly these entries. */
    ghost predicate Visits(n: Node?, l: nat, es: seq<Entry>)
      reads chain, this`chain
      decreases |es|
    {
      if es == [] then n == null
      else n != null && n in chain && l < |n.next| && n.entry == es[0] && Visits(n.next[l], l, es[1..])
    }

    /** Each level visits, in order, exactly the entries of the nodes tall enough for it. */
    lemma {:induction false} LevelVisits(q: nat, l: nat)
      requires Valid() && 1 <= q <= |hs|
      ensures Visits(At(chain, NextTall(hs, q, l)), l, LevelOf(entries[q - 1..], hs[q..], l))
      decreases |hs| - q
    {
      if q < |hs| {
        assert entries[q - 1..][1..] == entries[q..] && hs[q..][1..] == hs[q + 1..];
        LevelVisits(q + 1, l);
        if hs[q] > l {
          assert chain[q].next[l] == At(chain, NextTall(hs, q + 1, l));
        }
      }
    }

    /** Level 0 visits every entry; each level is a strictly ascending sublist of the one below. */
    lemma LevelsNest(l: nat)
      requires Valid() && l < MAX_HEIGHT
      ensures |head.next| == MAX_HEIGHT
      ensures Visits(head.next[l], l, LevelOf(entries, hs[1..], l))
      ensures Ascending(LevelOf(entries, hs[1..], l))
      ensures Sublist(LevelOf(entries, hs[1..], l + 1), LevelOf(entries, hs[1..], l))
      ensures LevelOf(entries, hs[1..], 0) == entries
    {
      assert head.next[l] == At(chain, NextTall(hs, 1, l));
      LevelVisits(1, l);
      assert entries[0..] == entries;
      LevelOfNests(entries, hs[1..], l);
      LevelOfAscending(entries, hs[1..], l);
      BottomHasAll(entries, hs[1..]);
    }
  }

  /** The entries of the nodes taller than l. */
  function LevelOf(es: seq<Entry>, hs: seq<nat>, l: nat): (r: seq<Entry>)
    requires |es| == |hs|
    ensures forall e :: e in r ==> e in es
  {
    if es == [] then [] else
    var rest := LevelOf(es[1..], hs[1..], l);
    if hs[0] > l then [es[0]] + rest else rest
  }

  ghost predicate Sublist<T>(a: seq<T>, b: seq<T>)
    decreases |b|
  {
    a == [] || (b != [] && ((a[0] == b[0] && Sublist(a[1..], b[1..])) || Sublist(a, b[1..])))
  }

  lemma {:induction false} LevelOfNests(es: seq<Entry>, hs: seq<nat>, l: nat)
    requires |es| == |hs|
    ensures Sublist(LevelOf(es, hs, l + 1), LevelOf(es, hs, l))
  {
    if es != [] {
      LevelOfNests(es[1..], hs[1..], l);
      var a, b := LevelOf(es[1..], hs[1..], l + 1), LevelOf(es[1..], hs[1..], l);
      assert ([es[0]] + a)[1..] == a && ([es[0]] + b)[1..] == b;
    }
  }

  lemma {:induction false} LevelOfAscending(es: seq<Entry>, hs: seq<nat>, l: nat)
    requires |es| == |hs| && Ascending(es)
    ensures Ascending(LevelOf(es, hs, l))
  {
    if es != [] {
      LevelOfAscending(es[1..], hs[1..], l);
      var rest := LevelOf(es[1..], hs[1..], l);
      if rest != [] {
        assert rest[0] in es[1..];
        var i :| 0 <= i < |es[1..]| && es[1..][i] == rest[0];
        assert Less(es[0].key, es[i + 1].key);
      }
      AscendingCons(es[0], rest);
    }
  }

  lemma {:induction false} BottomHasAll(es: seq<Entry>, hs: seq<nat>)
    requires |es| == |hs| && forall i :: 0 <= i < |hs| ==> hs[i] > 0
    ensures LevelOf(es, hs, 0) == es
  {
    if es != [] {
      BottomHasAll(es[1..], hs[1..]);
    }
  }

  /** What one put adds to the estimate. */
  function Growth(es: seq<Entry>, e: Entry, h: nat): int {
    var found := Find(es, e.key);
    if found.Some? then e.Size() - found.value.Size() else e.Size() + NODE_OVERHEAD + 8 * h
  }

  lemma ReplacedAscending(es: seq<Entry>, i: nat, e: Entry)
    requires Ascending(es) && i < |es| && es[i].key == e.key
    ensures Ascending(es[i := e])
  {
  }

  lemma PutIsInserted(es: seq<Entry>, n: nat, e: Entry)
    requires Ascending(es) && SplitsAt(es, n, e.key)
    ensures n <= |es|
    ensures Upsert.Put(es, e) == if n < |es| && es[n].key == e.key then es[n := e] else Inserted(es, n, e)
    ensures !(n < |es| && es[n].key == e.key) ==> Ascending(Inserted(es, n, e))
  {
    PutAt(es, n, e);
    PutIsMapUpdate(es, e);
  }
}
