/**
 Cutting a run into pieces as it is written: a piece is closed by the entry that brings its size to
 the limit. The builder cuts blocks this way and the compactor cuts tables.
 */
module Cuts {
  import opened Bytes
  import opened Entries
  import opened Runs

  function SumSize(s: seq<Entry>): nat {
    if s == [] then 0 else SumSize(s[..|s| - 1]) + s[|s| - 1].Size()
  }

  lemma SumSizeOneMore(s: seq<Entry>, e: Entry)
    ensures SumSize([]) == 0 && SumSize(s + [e]) == SumSize(s) + |e.key| + |e.value| + 16
  {
    assert (s + [e])[..|s|] == s;
  }

  /** The closed pieces, and the piece still open, once the entries of s have been added. */
  function Cut(s: seq<Entry>, limit: nat): (seq<seq<Entry>>, seq<Entry>) {
    if s == [] then ([], []) else
    var (closed, open) := Cut(s[..|s| - 1], limit);
    var piece := open + [s[|s| - 1]];
    if SumSize(piece) >= limit then (closed + [piece], []) else (closed, piece)
  }

  /** All pieces, the open one last. */
  function Pieces(s: seq<Entry>, limit: nat): seq<seq<Entry>> {
    var (closed, open) := Cut(s, limit);
    if open == [] then closed else closed + [open]
  }

  function Flatten(pieces: seq<seq<Entry>>): seq<Entry> {
    if pieces == [] then [] else pieces[0] + Flatten(pieces[1..])
  }

  lemma {:induction false} FlattenConcat(a: seq<seq<Entry>>, b: seq<seq<Entry>>)
    ensures Flatten(a + b) == Flatten(a) + Flatten(b)
  {
    if a == [] {
      assert a + b == b;
    } else {
      assert (a + b)[1..] == a[1..] + b;
      FlattenConcat(a[1..], b);
      assert a[0] + (Flatten(a[1..]) + Flatten(b)) == (a[0] + Flatten(a[1..])) + Flatten(b);
    }
  }

  lemma FlattenAppend(a: seq<seq<Entry>>, p: seq<Entry>)
    ensures Flatten(a + [p]) == Flatten(a) + p
  {
    FlattenConcat(a, [p]);
    assert Flatten([p]) == p + Flatten([]) == p;
  }

  /** A closed piece reached the limit with its last entry and not before. */
  predicate ClosedPiece(p: seq<Entry>, limit: nat) {
    p != [] && SumSize(p) >= limit && (|p| > 1 ==> SumSize(p[..|p| - 1]) < limit)
  }

  lemma {:induction false} CutProperties(s: seq<Entry>, limit: nat)
    ensures var (closed, open) := Cut(s, limit);
      && Flatten(closed) + open == s
      && (forall i :: 0 <= i < |closed| ==> ClosedPiece(closed[i], limit))
      && (open != [] ==> SumSize(open) < limit)
  {
    if s == [] {
      assert Cut(s, limit) == ([], []);
    } else {
      var (closed, open) := Cut(s[..|s| - 1], limit);
      var piece := open + [s[|s| - 1]];
      assert Cut(s, limit) == if SumSize(piece) >= limit then (closed + [piece], []) else (closed, piece);
      hide SumSize, Flatten, Cut;
      CutProperties(s[..|s| - 1], limit);
      PieceGrown(closed, open, s, limit);
      FlattenAppend(closed, piece);
    }
  }

  /** The open piece with the next entry. */
  lemma PieceGrown(closed: seq<seq<Entry>>, open: seq<Entry>, s: seq<Entry>, limit: nat)
    requires s != [] && Flatten(closed) + open == s[..|s| - 1] && (open != [] ==> SumSize(open) < limit)
    ensures var piece := open + [s[|s| - 1]];
      && Flatten(closed) + piece == s
      && (SumSize(piece) >= limit ==> ClosedPiece(piece, limit))
  {
    hide SumSize, Flatten;
    var piece := open + [s[|s| - 1]];
    assert piece[..|piece| - 1] == open;
    assert s == s[..|s| - 1] + [s[|s| - 1]] == Flatten(closed) + piece;
  }

  /** The pieces, read one after the other, are the run; none is empty. */
  lemma PiecesProperties(s: seq<Entry>, limit: nat)
    ensures Flatten(Pieces(s, limit)) == s
    ensures forall i :: 0 <= i < |Pieces(s, limit)| ==> Pieces(s, limit)[i] != []
    ensures forall i :: 0 <= i < |Pieces(s, limit)| - 1 ==> ClosedPiece(Pieces(s, limit)[i], limit)
  {
    CutProperties(s, limit);
    var (closed, open) := Cut(s, limit);
    FlattenAppend(closed, open);
  }

  /** No piece passed the limit before its last entry. */
  lemma PiecesBelow(s: seq<Entry>, limit: nat)
    ensures forall p :: p in Pieces(s, limit) ==> p != [] && SumSize(p[..|p| - 1]) <= limit
  {
    CutProperties(s, limit);
    var (closed, open) := Cut(s, limit);
    hide Cut;
    forall p | p in Pieces(s, limit)
      ensures p != [] && SumSize(p[..|p| - 1]) <= limit
    {
      if p in closed {
        assert ClosedPiece(p, limit) && SumSize([]) == 0;
      }
    }
  }

  // ----- Pieces of an ascending run -----

  ghost predicate OrderedPieces(pieces: seq<seq<Entry>>) {
    && (forall i :: 0 <= i < |pieces| ==> pieces[i] != [] && Ascending(pieces[i]))
    && (forall i, j :: 0 <= i < j < |pieces| ==> forall x, y :: x in pieces[i] && y in pieces[j] ==> Less(x.key, y.key))
  }

  lemma {:induction false} InFlatten(pieces: seq<seq<Entry>>, i: nat)
    requires i < |pieces|
    ensures forall x :: x in pieces[i] ==> x in Flatten(pieces)
  {
    if i > 0 {
      InFlatten(pieces[1..], i - 1);
    }
  }

  lemma {:induction false} PiecesOrdered(pieces: seq<seq<Entry>>)
    requires Ascending(Flatten(pieces)) && forall i :: 0 <= i < |pieces| ==> pieces[i] != []
    ensures OrderedPieces(pieces)
  {
    if pieces != [] {
      AscendingParts(pieces[0], Flatten(pieces[1..]));
      PiecesOrdered(pieces[1..]);
      forall i, j | 0 <= i < j < |pieces|
        ensures forall x, y :: x in pieces[i] && y in pieces[j] ==> Less(x.key, y.key)
      {
        assert pieces[j] == pieces[1..][j - 1];
        if i == 0 {
          InFlatten(pieces[1..], j - 1);
        } else {
          assert pieces[i] == pieces[1..][i - 1];
        }
      }
    }
  }

  /** Looking a key up piece by piece finds what the whole run holds. */
  lemma {:induction false} FindInPieces(pieces: seq<seq<Entry>>, k: Key)
    ensures FindFirst(pieces, k) == Find(Flatten(pieces), k)
  {
    if pieces != [] {
      FindInPieces(pieces[1..], k);
      FindConcat(pieces[0], Flatten(pieces[1..]), k);
    }
  }
}
