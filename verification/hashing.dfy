/**
 Bitwise operators on unbounded integers, and the two checksums the formats use: CRC-32 (IEEE
 802.3, reflected) and FNV-64a followed by a SplitMix64 finalizer.
 */
module Hashing {
  import opened Bytes

  function Xor(a: nat, b: nat): nat
    decreases a + b
  {
    if a == 0 && b == 0 then 0 else 2 * Xor(a / 2, b / 2) + (a % 2 + b % 2) % 2
  }

  function Pow2(n: nat): (p: nat)
    ensures p > 0
  {
    if n == 0 then 1 else 2 * Pow2(n - 1)
  }

  lemma {:induction false} XorBound(a: nat, b: nat, n: nat)
    requires a < Pow2(n) && b < Pow2(n)
    ensures Xor(a, b) < Pow2(n)
  {
    if n > 0 && (a != 0 || b != 0) {
      XorBound(a / 2, b / 2, n - 1);
    }
  }

  lemma {:induction false} Pow2Add(m: nat, n: nat)
    ensures Pow2(m + n) == Pow2(m) * Pow2(n)
  {
    if m > 0 {
      Pow2Add(m - 1, n);
      assert Pow2(m + n) == 2 * Pow2(m - 1 + n);
    }
  }

  lemma {:induction false} Pow2Grows(m: nat, n: nat)
    requires m < n
    ensures Pow2(m) < Pow2(n)
    decreases n
  {
    if m < n - 1 {
      Pow2Grows(m, n - 1);
    }
  }

  lemma Pow2Values()
    ensures Pow2(8) == 256 && Pow2(16) == TWO16 && Pow2(32) == TWO32 && Pow2(64) == TWO64
  {
    assert Pow2(4) == 16 by { assert Pow2(2) == 4; }
    Pow2Add(4, 4);
    Pow2Add(8, 8);
    Pow2Add(16, 16);
    Pow2Add(32, 32);
  }

  // ----- Bits -----

  function Or(a: nat, b: nat): nat
    decreases a + b
  {
    if a == 0 && b == 0 then 0 else 2 * Or(a / 2, b / 2) + if a % 2 == 1 || b % 2 == 1 then 1 else 0
  }

  function And(a: nat, b: nat): nat {
    if a == 0 || b == 0 then 0 else 2 * And(a / 2, b / 2) + if a % 2 == 1 && b % 2 == 1 then 1 else 0
  }

  /** Bit j of n. */
  predicate Bit(n: nat, j: nat) {
    if j == 0 then n % 2 == 1 else Bit(n / 2, j - 1)
  }

  lemma {:induction false} OrBound(a: nat, b: nat, n: nat)
    requires a < Pow2(n) && b < Pow2(n)
    ensures Or(a, b) < Pow2(n)
  {
    if n > 0 && (a != 0 || b != 0) {
      OrBound(a / 2, b / 2, n - 1);
    }
  }

  lemma {:induction false} BitOfOr(a: nat, b: nat, j: nat)
    ensures Bit(Or(a, b), j) <==> Bit(a, j) || Bit(b, j)
  {
    if a != 0 || b != 0 {
      assert Or(a, b) / 2 == Or(a / 2, b / 2);
      if j > 0 {
        BitOfOr(a / 2, b / 2, j - 1);
      }
    } else {
      NoBitOfZero(j);
    }
  }

  lemma {:induction false} NoBitOfZero(j: nat)
    ensures !Bit(0, j)
  {
    if j > 0 {
      NoBitOfZero(j - 1);
    }
  }

  lemma {:induction false} BitOfPow2(i: nat, j: nat)
    ensures Bit(Pow2(i), j) <==> i == j
  {
    if i == 0 {
      if j > 0 { NoBitOfZero(j - 1); }
    } else {
      assert Pow2(i) / 2 == Pow2(i - 1);
      if j > 0 {
        BitOfPow2(i - 1, j - 1);
      }
    }
  }

  /** n & (1 << j) tests bit j. */
  lemma {:induction false} AndTestsBit(n: nat, j: nat)
    ensures And(n, Pow2(j)) != 0 <==> Bit(n, j)
  {
    if n == 0 {
      NoBitOfZero(j);
    } else if j == 0 {
      assert Pow2(0) / 2 == 0;
    } else {
      assert Pow2(j) / 2 == Pow2(j - 1) && Pow2(j) % 2 == 0;
      AndTestsBit(n / 2, j - 1);
    }
  }

  // ----- Checksums -----

  const CRC_POLYNOMIAL: nat := 0xEDB8_8320

  /** One turn of the shift. */
  function CrcStep(c: nat): (r: nat)
    requires c < TWO32
    ensures r < TWO32
  {
    Pow2Values(); XorBound(c / 2, CRC_POLYNOMIAL, 32);
    if c % 2 == 1 then Xor(c / 2, CRC_POLYNOMIAL) else c / 2
  }

  function CrcShift(c: nat, steps: nat): (r: nat)
    requires c < TWO32
    ensures r < TWO32
    decreases steps
  {
    if steps == 0 then c else CrcShift(CrcStep(c), steps - 1)
  }

  function CrcRegister(s: seq<byte>): (c: nat)
    ensures c < TWO32
  {
    if s == [] then TWO32 - 1 else
    var c := CrcRegister(s[..|s| - 1]);
    Pow2Values(); XorBound(c, s[|s| - 1], 32);
    CrcShift(Xor(c, s[|s| - 1]), 8)
  }

  /** `crc32.ChecksumIEEE` */
  function Crc32(s: seq<byte>): (c: nat)
    ensures c < TWO32
  {
    TWO32 - 1 - CrcRegister(s)
  }

  // ----- What the checksum detects -----

  lemma {:induction false} XorCommutes(a: nat, b: nat)
    ensures Xor(a, b) == Xor(b, a)
    decreases a + b
  {
    if a != 0 || b != 0 {
      XorCommutes(a / 2, b / 2);
    }
  }

  lemma XorStep(a: nat, b: nat)
    ensures Xor(a, b) == 2 * Xor(a / 2, b / 2) + (a % 2 + b % 2) % 2
  {
  }

  lemma {:induction false} XorCancels(a: nat, b: nat, p: nat)
    requires Xor(a, p) == Xor(b, p)
    ensures a == b
    decreases a + b + p
  {
    hide Xor;
    if a + b + p > 0 {
      XorStep(a, p);
      XorStep(b, p);
      XorCancels(a / 2, b / 2, p / 2);
    }
  }

  lemma {:induction false} XorTop(a: nat, p: nat, n: nat)
    requires a < Pow2(n) <= p < Pow2(n + 1)
    ensures Xor(a, p) >= Pow2(n)
  {
    if n > 0 {
      XorTop(a / 2, p / 2, n - 1);
    }
  }

  /** The bit that was shifted out is the top bit afterwards, so nothing is lost. */
  lemma CrcStepIsInjective(c: nat, d: nat)
    requires c < TWO32 && d < TWO32 && CrcStep(c) == CrcStep(d)
    ensures c == d
  {
    hide Xor;
    Pow2Values();
    assert Pow2(32) == 2 * Pow2(31);
    XorTop(c / 2, CRC_POLYNOMIAL, 31);
    XorTop(d / 2, CRC_POLYNOMIAL, 31);
    if c % 2 == 1 && d % 2 == 1 {
      XorCancels(c / 2, d / 2, CRC_POLYNOMIAL);
    }
  }

  lemma {:induction false} CrcShiftIsInjective(c: nat, d: nat, steps: nat)
    requires c < TWO32 && d < TWO32 && CrcShift(c, steps) == CrcShift(d, steps)
    ensures c == d
    decreases steps
  {
    hide CrcStep;
    if steps > 0 {
      CrcShiftIsInjective(CrcStep(c), CrcStep(d), steps - 1);
      CrcStepIsInjective(c, d);
    }
  }

  lemma {:induction false} RegistersStayApart(a: seq<byte>, b: seq<byte>, rest: seq<byte>)
    requires CrcRegister(a) != CrcRegister(b)
    ensures CrcRegister(a + rest) != CrcRegister(b + rest)
  {
    hide Xor, CrcShift;
    if rest == [] {
      assert a + rest == a && b + rest == b;
    } else {
      var n := |rest| - 1;
      RegistersStayApart(a, b, rest[..n]);
      assert (a + rest)[..|a| + n] == a + rest[..n] && (b + rest)[..|b| + n] == b + rest[..n];
      var c, d := CrcRegister(a + rest[..n]), CrcRegister(b + rest[..n]);
      ByteStep(c, rest[n], d, rest[n]);
    }
  }

  /** One byte more: from other registers with the same byte, or from one register with other bytes, other registers. */
  lemma ByteStep(c: nat, x: byte, d: nat, y: byte)
    requires c < TWO32 && d < TWO32 && ((c != d && x == y) || (c == d && x != y))
    ensures Xor(c, x) < TWO32 && Xor(d, y) < TWO32 && CrcShift(Xor(c, x), 8) != CrcShift(Xor(d, y), 8)
  {
    hide Xor, CrcShift;
    Pow2Values();
    XorBound(c, x, 32);
    XorBound(d, y, 32);
    if CrcShift(Xor(c, x), 8) == CrcShift(Xor(d, y), 8) {
      CrcShiftIsInjective(Xor(c, x), Xor(d, y), 8);
      if x == y {
        XorCancels(c, d, x);
      } else {
        XorCommutes(c, x);
        XorCommutes(c, y);
        XorCancels(x, y, c);
      }
    }
  }

  /** The checksum tells any two strings apart that differ in one byte. */
  lemma Crc32DetectsByte(before: seq<byte>, x: byte, y: byte, rest: seq<byte>)
    requires x != y
    ensures Crc32(before + [x] + rest) != Crc32(before + [y] + rest)
  {
    hide Xor, CrcShift;
    assert (before + [x])[..|before|] == before && (before + [y])[..|before|] == before;
    ByteStep(CrcRegister(before), x, CrcRegister(before), y);
    assert CrcRegister(before + [x]) != CrcRegister(before + [y]);
    RegistersStayApart(before + [x], before + [y], rest);
  }

  /** `fnv.New64a` written with s. */
  function Fnv64a(s: seq<byte>): (h: nat)
    ensures h < TWO64
  {
    if s == [] then 14695981039346656037
    else Xor(Fnv64a(s[..|s| - 1]), s[|s| - 1]) * 1099511628211 % TWO64
  }

  const MIX_1: nat := 0xbf58476d1ce4e5b9
  const MIX_2: nat := 0x94d049bb133111eb

  /** n >> shift */
  function Shifted(n: nat, shift: nat): (r: nat)
    ensures r <= n
  {
    if shift == 0 then n else Shifted(n / 2, shift - 1)
  }

  /** n ^ (n >> shift) */
  function XorShift(n: nat, shift: nat): (r: nat)
    requires n < TWO64
    ensures r < TWO64
  {
    Pow2Values(); XorBound(n, Shifted(n, shift), 64);
    Xor(n, Shifted(n, shift))
  }

  /** The SplitMix64 finalizer. */
  function Mixed(a: nat): (h: nat)
    requires a < TWO64
    ensures h < TWO64
  {
    XorShift(XorShift(XorShift(a, 30) * MIX_1 % TWO64, 27) * MIX_2 % TWO64, 31)
  }

  /** The two 32-bit halves of the mixed hash; the second is never 0. */
  function DoubleHash(key: seq<byte>): (r: (nat, nat))
    ensures r.0 < TWO32 && 1 <= r.1 < TWO32
  {
    var h := Mixed(Fnv64a(key));
    var h2 := h / TWO32;
    (h % TWO32, if h2 == 0 then 1 else h2)
  }
}
