/** How the merge of a stack of runs unrolls: its head, and its cut at a key. */
module MergeSpec {
  import opened Bytes
  import opened Entries
  import opened Runs

  function DropHead(run: seq<Entry>, k: Key): (r: seq<Entry>)
    ensures r == run || (run != [] && r == run[1..])
  {
    if run != [] && run[0].key == k then run[1..] else run
  }

  /** Every run that starts with key k loses that entry. */
  function DropKey(runs: seq<seq<Entry>>, k: Key): (r: seq<seq<Entry>>)
    ensures |r| == |runs|
    ensures forall p :: 0 <= p < |runs| ==> r[p] == DropHead(runs[p], k)
  {
    if runs == [] then [] else [DropHead(runs[0], k)] + DropKey(runs[1..], k)
  }

  ghost predicate NoHeadBelow(runs: seq<seq<Entry>>, k: Key) {
    forall p :: 0 <= p < |runs| && runs[p] != [] ==> AtMost(k, runs[p][0].key)
  }

  lemma DropKeyAscending(runs: seq<seq<Entry>>, k: Key)
    requires AllAscending(runs)
    ensures AllAscending(DropKey(runs, k))
  {
    forall r | r in DropKey(runs, k)
      ensures Ascending(r)
    {
      var p :| 0 <= p < |runs| && DropKey(runs, k)[p] == r;
      assert Ascending(runs[p]);
    }
  }

  lemma FindDropHead(run: seq<Entry>, k: Key, q: Key)
    requires Ascending(run) && (run != [] ==> AtMost(k, run[0].key))
    ensures q != k ==> Find(DropHead(run, k), q) == Find(run, q)
    ensures AtMost(q, k) ==> Find(DropHead(run, k), q).None?
  {
    var d := DropHead(run, k);
    assert d != [] && run[0].key == k ==> Less(k, d[0].key);
    if AtMost(q, k) {
      LessIsStrictOrder();
      FindBelow(d, q);
    }
  }

  lemma {:induction false} FindDropKey(runs: seq<seq<Entry>>, k: Key, q: Key)
    requires AllAscending(runs) && NoHeadBelow(runs, k)
    ensures q != k ==> FindFirst(DropKey(runs, k), q) == FindFirst(runs, q)
    ensures AtMost(q, k) ==> FindFirst(DropKey(runs, k), q).None?
  {
    if runs != [] {
      FindDropHead(runs[0], k, q);
      FindDropKey(runs[1..], k, q);
      assert DropKey(runs, k)[1..] == DropKey(runs[1..], k);
    }
  }

  /** p is the first run that starts with the smallest head key. */
  ghost predicate LeastHead(runs: seq<seq<Entry>>, p: nat) {
    && p < |runs| && runs[p] != []
    && NoHeadBelow(runs, runs[p][0].key)
    && forall q :: 0 <= q < p && runs[q] != [] ==> runs[q][0].key != runs[p][0].key
  }

  lemma {:induction false} FindLeastHead(runs: seq<seq<Entry>>, p: nat)
    requires AllAscending(runs) && LeastHead(runs, p)
    ensures FindFirst(runs, runs[p][0].key) == Some(runs[p][0])
  {
    if p > 0 {
      LessIsStrictOrder();
      FindBelow(runs[0], runs[p][0].key);
      FindLeastHead(runs[1..], p - 1);
    }
  }

  /** The merge starts with the least head of the highest run holding it, and goes on without that key. */
  lemma MergeUnrolls(runs: seq<seq<Entry>>, p: nat)
    requires AllAscending(runs) && LeastHead(runs, p)
    ensures Merge(runs) == [runs[p][0]] + Merge(DropKey(runs, runs[p][0].key))
  {
    var e := runs[p][0];
    var rest := Merge(DropKey(runs, e.key));
    DropKeyAscending(runs, e.key);
    MergeAscending(runs);
    MergeAscending(DropKey(runs, e.key));
    if rest != [] {
      FindAt(rest, 0);
      FindMerge(DropKey(runs, e.key), rest[0].key);
      FindDropKey(runs, e.key, rest[0].key);
      LessTotal(e.key, rest[0].key);
    }
    AscendingCons(e, rest);
    forall k: Key
      ensures Find(Merge(runs), k) == Find([e] + rest, k)
    {
      FindMerge(runs, k);
      FindMerge(DropKey(runs, e.key), k);
      FindDropKey(runs, e.key, k);
      FindLeastHead(runs, p);
      assert ([e] + rest)[1..] == rest;
    }
    RunsEqual(Merge(runs), [e] + rest);
  }

  lemma {:induction false} MergeOfEmpty(runs: seq<seq<Entry>>)
    requires forall p :: 0 <= p < |runs| ==> runs[p] == []
    ensures Merge(runs) == []
  {
    if runs != [] {
      MergeOfEmpty(runs[1..]);
    }
  }

  /** Some of the runs that start with k have lost that entry. */
  ghost predicate PartlyDropped(before: seq<seq<Entry>>, now: seq<seq<Entry>>, k: Key) {
    && |now| == |before|
    && forall p :: 0 <= p < |now| ==> now[p] == before[p] || now[p] == DropHead(before[p], k)
  }

  lemma DropsOneMore(before: seq<seq<Entry>>, now: seq<seq<Entry>>, k: Key, p: nat)
    requires AllAscending(before) && PartlyDropped(before, now, k)
    requires p < |now| && now[p] != [] && now[p][0].key == k
    ensures PartlyDropped(before, now[p := now[p][1..]], k)
  {
    assert before[p] in before;
    if now[p] != before[p] {
      LessAsymmetric(before[p][0].key, before[p][1].key);
    }
  }

  lemma AllDropped(before: seq<seq<Entry>>, now: seq<seq<Entry>>, k: Key)
    requires PartlyDropped(before, now, k)
    requires forall p :: 0 <= p < |now| && now[p] != [] ==> now[p][0].key != k
    ensures now == DropKey(before, k)
  {
  }

  /** While dropping key k, no run ever starts below k. */
  lemma HeadsStayAbove(before: seq<seq<Entry>>, now: seq<seq<Entry>>, k: Key)
    requires AllAscending(before) && NoHeadBelow(before, k) && PartlyDropped(before, now, k)
    ensures NoHeadBelow(now, k)
  {
    forall p | 0 <= p < |now| && now[p] != []
      ensures AtMost(k, now[p][0].key)
    {
      assert before[p] in before;
      if now[p] != before[p] {
        LessAsymmetric(before[p][0].key, before[p][1].key);
      }
    }
  }

  lemma {:induction false} ShorterByOne(runs: seq<seq<Entry>>, p: nat)
    requires p < |runs| && runs[p] != []
    ensures TotalLength(runs[p := runs[p][1..]]) == TotalLength(runs) - 1
  {
    var s := runs[p := runs[p][1..]];
    if p == 0 {
      assert s[1..] == runs[1..];
    } else {
      assert s[1..] == runs[1..][p - 1 := runs[p][1..]];
      ShorterByOne(runs[1..], p - 1);
    }
  }

  // ----- Cutting at a key -----

  function AllFrom(runs: seq<seq<Entry>>, target: Key): (r: seq<seq<Entry>>)
    ensures |r| == |runs|
    ensures forall p :: 0 <= p < |runs| ==> r[p] == From(runs[p], target)
  {
    if runs == [] then [] else [From(runs[0], target)] + AllFrom(runs[1..], target)
  }

  lemma {:induction false} FindAllFrom(runs: seq<seq<Entry>>, target: Key, k: Key)
    requires AllAscending(runs)
    ensures FindFirst(AllFrom(runs, target), k) == if Less(k, target) then None else FindFirst(runs, k)
  {
    if runs != [] {
      FindFrom(runs[0], target, k);
      FindAllFrom(runs[1..], target, k);
      assert AllFrom(runs, target)[1..] == AllFrom(runs[1..], target);
    }
  }

  lemma AllFromAscending(runs: seq<seq<Entry>>, target: Key)
    requires AllAscending(runs)
    ensures AllAscending(AllFrom(runs, target))
  {
    forall r | r in AllFrom(runs, target)
      ensures Ascending(r)
    {
      var p :| 0 <= p < |runs| && AllFrom(runs, target)[p] == r;
      FindFrom(runs[p], target, []);
    }
  }

  /** Seeking every run and merging is merging and then seeking. */
  lemma MergeFrom(runs: seq<seq<Entry>>, target: Key, drop: bool)
    requires AllAscending(runs)
    ensures Keep(Merge(AllFrom(runs, target)), drop) == From(Keep(Merge(runs), drop), target)
  {
    AllFromAscending(runs, target);
    var a, b := Merge(AllFrom(runs, target)), Merge(runs);
    MergeAscending(runs);
    MergeAscending(AllFrom(runs, target));
    LiveAscending(a);
    LiveAscending(b);
    FindFrom(Keep(b, drop), target, []);
    forall k: Key
      ensures Find(Keep(a, drop), k) == Find(From(Keep(b, drop), target), k)
    {
      FindLive(a, k);
      FindLive(b, k);
      FindFrom(Keep(b, drop), target, k);
      FindMerge(runs, k);
      FindMerge(AllFrom(runs, target), k);
      FindAllFrom(runs, target, k);
    }
    RunsEqual(Keep(a, drop), From(Keep(b, drop), target));
  }
}
