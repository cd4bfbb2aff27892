/**
 Byte strings, their lexicographic order (the order of Go's `bytes.Compare`) and
 fixed-width big-endian integers (`encoding/binary`).
 */
module Bytes {

  type byte = b: int | 0 <= b < 256

  type Key = seq<byte>

  /** `bytes.Compare(a, b) < 0`. */
  predicate Less(a: Key, b: Key) {
    if b == [] then false
    else if a == [] then true
    else a[0] < b[0] || (a[0] == b[0] && Less(a[1..], b[1..]))
  }

  /** `bytes.Compare(a, b) <= 0`. */
  predicate AtMost(a: Key, b: Key) {
    !Less(b, a)
  }

  lemma {:induction false} LessAsymmetric(a: Key, b: Key)
    requires Less(a, b)
    ensures !Less(b, a) && a != b
  {
    if a != [] && a[0] == b[0] {
      LessAsymmetric(a[1..], b[1..]);
    }
  }

  lemma {:induction false} LessTotal(a: Key, b: Key)
    ensures a == b || Less(a, b) || Less(b, a)
  {
    if a != [] && b != [] && a[0] == b[0] {
      LessTotal(a[1..], b[1..]);
      assert a[1..] == b[1..] ==> [a[0]] + a[1..] == [b[0]] + b[1..];
      assert a == [a[0]] + a[1..] && b == [b[0]] + b[1..];
    }
  }

  lemma {:induction false} LessTransitive(a: Key, b: Key, c: Key)
    requires Less(a, b) && Less(b, c)
    ensures Less(a, c)
  {
    if a != [] && a[0] == b[0] && b[0] == c[0] {
      LessTransitive(a[1..], b[1..], c[1..]);
    }
  }

  /** The order facts, quantified, for proofs that compare many keys. */
  lemma LessIsStrictOrder()
    ensures forall a: Key :: !Less(a, a)
    ensures forall a: Key, b: Key :: Less(a, b) ==> !Less(b, a)
    ensures forall a: Key, b: Key :: a == b || Less(a, b) || Less(b, a)
    ensures forall a: Key, b: Key, c: Key :: Less(a, b) && Less(b, c) ==> Less(a, c)
  {
    forall a: Key, b: Key
      ensures Less(a, b) ==> !Less(b, a) && a != b
      ensures a == b || Less(a, b) || Less(b, a)
    {
      LessTotal(a, b);
      if Less(a, b) {
        LessAsymmetric(a, b);
      }
    }
    forall a: Key, b: Key, c: Key | Less(a, b) && Less(b, c)
      ensures Less(a, c)
    {
      LessTransitive(a, b, c);
    }
  }

  lemma {:induction false} CommonPrefixCancels(p: Key, a: Key, b: Key)
    ensures Less(p + a, p + b) <==> Less(a, b)
  {
    if p == [] {
      assert p + a == a && p + b == b;
    } else {
      assert (p + a)[1..] == p[1..] + a && (p + b)[1..] == p[1..] + b;
      CommonPrefixCancels(p[1..], a, b);
    }
  }

  /** Strings of equal length decide the comparison before what follows them is looked at. */
  lemma {:induction false} EqualLengthDecides(a: Key, b: Key, x: Key, y: Key)
    requires |a| == |b| && a != b
    ensures Less(a + x, b + y) <==> Less(a, b)
  {
    assert (a + x)[0] == a[0] && (b + y)[0] == b[0];
    if a[0] == b[0] {
      assert a == [a[0]] + a[1..] && b == [b[0]] + b[1..];
      assert (a + x)[1..] == a[1..] + x && (b + y)[1..] == b[1..] + y;
      EqualLengthDecides(a[1..], b[1..], x, y);
    }
  }

  /** A string between two strings with a common prefix has that prefix. */
  lemma {:induction false} BetweenKeepsPrefix(p: Key, lo: Key, hi: Key, k: Key)
    requires AtMost(p + lo, k) && AtMost(k, p + hi)
    ensures p <= k
  {
    if p != [] {
      assert (p + lo)[1..] == p[1..] + lo && (p + hi)[1..] == p[1..] + hi;
      assert k != [] && k[0] == p[0];
      BetweenKeepsPrefix(p[1..], lo, hi, k[1..]);
      assert k == [k[0]] + k[1..] && p == [p[0]] + p[1..];
    }
  }

  // ----- Division -----

  lemma DividedTwice(n: nat, a: nat, b: nat)
    requires a > 0 && b > 0
    ensures a * b > 0 && n / (a * b) == n / a / b
  {
    var q, r, s := n / a / b, n / a % b, n % a;
    assert n / a == q * b + r;
    assert n == (q * b + r) * a + s;
    assert n == q * (a * b) + (r * a + s);
    MultiplesApart(r, b, a);
    QuotientIs(n, a * b, q, r * a + s);
  }

  lemma QuotientIs(n: nat, d: nat, q: nat, r: nat)
    requires n == q * d + r && r < d
    ensures n / d == q
  {
    assert n / d * d <= n < n / d * d + d;
    MultiplesApart(n / d, q, d);
    MultiplesApart(q, n / d, d);
  }

  lemma MultiplesApart(a: nat, b: nat, d: nat)
    requires d > 0
    ensures a < b ==> a * d + d <= b * d
  {
    if a < b {
      assert (a + 1) * d <= b * d;
    }
  }

  // ----- Big-endian integers -----

  function Pow256(w: nat): (r: nat)
    ensures r > 0
  {
    if w == 0 then 1 else 256 * Pow256(w - 1)
  }

  /** The `w` low-order bytes of n, most significant first: a wider n is truncated, as by uint16(..). */
  function PutUint(n: nat, w: nat): (r: seq<byte>)
    ensures |r| == w
  {
    if w == 0 then [] else PutUint(n / 256, w - 1) + [n % 256]
  }

  function Uint(s: seq<byte>): nat {
    if s == [] then 0 else 256 * Uint(s[..|s| - 1]) + s[|s| - 1]
  }

  lemma {:induction false} UintBound(s: seq<byte>)
    ensures Uint(s) < Pow256(|s|)
  {
    if s != [] {
      UintBound(s[..|s| - 1]);
    }
  }

  lemma {:induction false} UintRoundTrip(n: nat, w: nat)
    requires n < Pow256(w)
    ensures Uint(PutUint(n, w)) == n
  {
    if w > 0 {
      assert n / 256 < Pow256(w - 1);
      UintRoundTrip(n / 256, w - 1);
      assert PutUint(n, w)[..w - 1] == PutUint(n / 256, w - 1);
    }
  }

  const TWO16: nat := 0x1_0000
  const TWO31: nat := 0x8000_0000
  const TWO32: nat := 0x1_0000_0000
  const TWO63: nat := 0x8000_0000_0000_0000
  const TWO64: nat := 0x1_0000_0000_0000_0000

  lemma WidthValues()
    ensures Pow256(2) == TWO16 && Pow256(4) == TWO32 && Pow256(8) == TWO64
  {
    assert Pow256(1) == 256 && Pow256(2) == 0x1_0000 && Pow256(3) == 0x100_0000;
    assert Pow256(4) == TWO32;
    assert Pow256(5) == 256 * TWO32 && Pow256(6) == 65536 * TWO32;
    assert Pow256(7) == 0x100_0000 * TWO32;
  }
}
