/** Zero-padded decimal numbers (`%06d` in log names, `%020d` in index keys) and their byte order. */
module Decimal {
  import opened Bytes

  const ZERO: byte := 48

  function Pow10(w: nat): (r: nat)
    ensures r > 0
  {
    if w == 0 then 1 else 10 * Pow10(w - 1)
  }

  /** The w low-order digits of n. */
  function Digits(n: nat, w: nat): (r: seq<byte>)
    ensures |r| == w
  {
    if w == 0 then [] else Digits(n / 10, w - 1) + [ZERO + n % 10]
  }

  /** The number of digits of n, at least one. */
  function Width(n: nat): (w: nat)
    ensures w >= 1
  {
    if n < 10 then 1 else 1 + Width(n / 10)
  }

  /** `fmt.Sprintf("%0*d", w, n)`: n with zeros in front up to w digits, longer if it needs more. */
  function Padded(n: nat, w: nat): (r: seq<byte>)
    ensures |r| >= w
  {
    Digits(n, if Width(n) > w then Width(n) else w)
  }

  lemma {:induction false} WidthFits(n: nat)
    ensures n < Pow10(Width(n))
    ensures n > 0 ==> Pow10(Width(n) - 1) <= n
  {
    if n >= 10 {
      WidthFits(n / 10);
    } else {
      assert Pow10(1) == 10 && Pow10(0) == 1;
    }
  }

  lemma {:induction false} Pow10Grows(a: nat, b: nat)
    requires a <= b
    ensures Pow10(a) <= Pow10(b)
  {
    if a < b {
      Pow10Grows(a, b - 1);
    }
  }

  lemma WidthBeyond(n: nat, w: nat)
    requires n >= Pow10(w)
    ensures Width(n) > w
  {
    WidthFits(n);
    if Width(n) <= w {
      Pow10Grows(Width(n), w);
    }
  }

  lemma WidthWithin(n: nat, w: nat)
    requires n < Pow10(w) && w >= 1
    ensures Width(n) <= w
  {
    WidthFits(n);
    if Width(n) > w {
      Pow10Grows(w, Width(n) - 1);
    }
  }

  /** Digit strings of one width are ordered as their numbers, and differ when those do. */
  lemma {:induction false} DigitsOrder(m: nat, n: nat, w: nat)
    requires m < Pow10(w) && n < Pow10(w)
    ensures Less(Digits(m, w), Digits(n, w)) <==> m < n
    ensures Digits(m, w) == Digits(n, w) ==> m == n
  {
    if w > 0 {
      var a, b := Digits(m / 10, w - 1), Digits(n / 10, w - 1);
      DigitsOrder(m / 10, n / 10, w - 1);
      if m / 10 != n / 10 {
        EqualLengthDecides(a, b, [ZERO + m % 10], [ZERO + n % 10]);
        assert Digits(m, w)[..w - 1] == a && Digits(n, w)[..w - 1] == b;
      } else {
        CommonPrefixCancels(a, [ZERO + m % 10], [ZERO + n % 10]);
        assert Digits(m, w)[w - 1] == ZERO + m % 10 && Digits(n, w)[w - 1] == ZERO + n % 10;
      }
    }
  }

  /** Numbers that fit the padding are ordered as their padded forms, whatever follows those. */
  lemma PaddedOrder(m: nat, n: nat, w: nat, x: Key, y: Key)
    requires m < Pow10(w) && n < Pow10(w) && w >= 1 && m != n
    ensures |Padded(m, w)| == |Padded(n, w)| == w
    ensures Less(Padded(m, w) + x, Padded(n, w) + y) <==> m < n
  {
    WidthWithin(m, w);
    WidthWithin(n, w);
    DigitsOrder(m, n, w);
    EqualLengthDecides(Padded(m, w), Padded(n, w), x, y);
  }

  /** n without its last `cut` digits. */
  function Leading(n: nat, cut: nat): nat {
    if cut == 0 then n else Leading(n / 10, cut - 1)
  }

  lemma {:induction false} LeadingDigits(n: nat, w: nat, cut: nat)
    requires cut <= w && n < Pow10(w)
    ensures Digits(n, w)[..w - cut] == Digits(Leading(n, cut), w - cut)
    ensures Leading(n, cut) < Pow10(w - cut)
  {
    if cut > 0 {
      LeadingDigits(n / 10, w - 1, cut - 1);
      assert Digits(n, w)[..w - cut] == Digits(n / 10, w - 1)[..w - cut];
    }
  }
}
