/** The order in which recovery lists the logs: by file name (pkg/wal/wal.go, `ListWALFiles`). */
module LogNames {
  import opened Bytes
  import opened Decimal

  const LOG_DIGITS: nat := 6

  /** "wal_" and ".log" */
  const PREFIX: Key := [119, 97, 108, 95]
  const SUFFIX: Key := [46, 108, 111, 103]

  /** "wal_%06d.log" */
  function LogName(id: nat): Key {
    PREFIX + (Padded(id, LOG_DIGITS) + SUFFIX)
  }

  function Shown(id: nat): nat {
    if Width(id) > LOG_DIGITS then Width(id) else LOG_DIGITS
  }

  /**
   For a lower and a higher identifier: their names are in order exactly when the higher one, cut to as
   many digits as the lower one shows, is at least the lower one.
   */
  lemma NameOrder(a: nat, b: nat)
    requires a < b
    ensures Shown(a) <= Shown(b)
    ensures Less(LogName(a), LogName(b)) <==> a <= Leading(b, Shown(b) - Shown(a))
  {
    var wa, wb := Shown(a), Shown(b);
    ShownGrows(a, b);
    ShownFits(a);
    ShownFits(b);
    CommonPrefixCancels(PREFIX, Padded(a, LOG_DIGITS) + SUFFIX, Padded(b, LOG_DIGITS) + SUFFIX);
    LeadingDigits(b, wb, wb - wa);
    assert Leading(b, 0) == b;
    hide Less, Digits, Pow10, Leading, Width;
    DigitsOrder(a, Leading(b, wb - wa), wa);
    if wa < wb { RestIsDigits(b, wb, wa); }
    LeadDecides(Digits(a, wa), Digits(b, wb));
  }

  /** A name against one that shows at least as many digits: the shared places decide, then the longer is later. */
  lemma LeadDecides(x: Key, y: Key)
    requires |x| <= |y| && (|x| < |y| ==> y[|x|] >= ZERO)
    ensures var lead := y[..|x|];
      Less(x + SUFFIX, y + SUFFIX) <==> Less(x, lead) || (x == lead && |x| < |y|)
  {
    var lead, rest := y[..|x|], y[|x|..];
    assert y + SUFFIX == lead + (rest + SUFFIX);
    if x == lead {
      CommonPrefixCancels(lead, SUFFIX, rest + SUFFIX);
      LessIsStrictOrder();
      if rest == [] {
        assert rest + SUFFIX == SUFFIX;
      } else {
        assert (rest + SUFFIX)[0] == y[|x|];
      }
    } else {
      EqualLengthDecides(x, lead, SUFFIX, rest + SUFFIX);
    }
  }

  lemma {:induction false} RestIsDigits(n: nat, w: nat, i: nat)
    requires i < w
    ensures ZERO <= Digits(n, w)[i] < ZERO + 10
  {
    if i < w - 1 {
      RestIsDigits(n / 10, w - 1, i);
    }
  }

  lemma ShownFits(n: nat)
    ensures n < Pow10(Shown(n))
  {
    WidthFits(n);
    Pow10Grows(Width(n), Shown(n));
  }

  lemma {:induction false} WidthGrows(a: nat, b: nat)
    requires a <= b
    ensures Width(a) <= Width(b)
  {
    if a >= 10 {
      WidthGrows(a / 10, b / 10);
    }
  }

  lemma ShownGrows(a: nat, b: nat)
    requires a <= b
    ensures Shown(a) <= Shown(b)
  {
    WidthGrows(a, b);
  }

  /** Below 10^6 the order of the names is the order of the identifiers. */
  lemma NamesFollowIds(a: nat, b: nat)
    requires a < 1_000_000 && b < 1_000_000
    ensures Less(LogName(a), LogName(b)) <==> a < b
  {
    SixDigits(a);
    SixDigits(b);
    if a < b {
      NameOrder(a, b);
    } else if b < a {
      NameOrder(b, a);
      LessAsymmetric(LogName(b), LogName(a));
    } else {
      LessIsStrictOrder();
    }
  }

  lemma MillionIs()
    ensures Pow10(6) == 1_000_000
  {
    assert Pow10(1) == 10 && Pow10(2) == 100 && Pow10(3) == 1000;
    assert Pow10(4) == 10 * Pow10(3) && Pow10(5) == 10 * Pow10(4) && Pow10(6) == 10 * Pow10(5);
  }

  lemma SixDigits(n: nat)
    requires n < 1_000_000
    ensures Shown(n) == 6
  {
    MillionIs();
    WidthWithin(n, 6);
  }

  /** At 10^6 it is not: the newer log is listed, and replayed, before the older one. */
  lemma MillionthLogComesFirst()
    ensures Less(LogName(1_000_000), LogName(999_999)) && !Less(LogName(999_999), LogName(1_000_000))
  {
    MillionIs();
    SixDigits(999_999);
    assert Pow10(7) == 10_000_000 && Pow10(1) == 10;
    WidthBeyond(1_000_000, 6);
    WidthWithin(1_000_000, 7);
    NameOrder(999_999, 1_000_000);
    LessTotal(LogName(999_999), LogName(1_000_000));
    assert LogName(999_999)[|LogName(999_999)| - 1] == 103;
    assert |LogName(999_999)| == 14 && |LogName(1_000_000)| == 15;
  }
}
