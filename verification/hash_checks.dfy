/** What the hash functions compute: the exclusive or bit by bit, and check values of the two checksums. */
module HashChecks {
  import opened Bytes
  import opened Hashing

  lemma {:induction false} BitOfXor(a: nat, b: nat, j: nat)
    ensures Bit(Xor(a, b), j) <==> Bit(a, j) != Bit(b, j)
  {
    if a != 0 || b != 0 {
      assert Xor(a, b) / 2 == Xor(a / 2, b / 2);
      if j > 0 {
        BitOfXor(a / 2, b / 2, j - 1);
      }
    } else {
      NoBitOfZero(j);
    }
  }

  lemma {:induction false} XorZero(c: nat)
    ensures Xor(c, 0) == c && Xor(0, c) == c
  {
    if c > 0 {
      XorZero(c / 2);
    }
  }

  lemma SameLastBit(c: nat, x: nat, bit: nat)
    requires bit < 2
    ensures Xor(2 * c + bit, 2 * x + bit) == 2 * Xor(c, x)
  {
    hide Xor;
    XorStep(2 * c + bit, 2 * x + bit);
  }

  /** The last 8 bits, all ones, taken out. */
  lemma LastByteCleared(q: nat)
    ensures Xor(256 * q + 255, 255) == 256 * q
  {
    hide Xor;
    XorZero(q);
    SameLastBit(q, 0, 1);
    SameLastBit(2 * q + 1, 1, 1);
    SameLastBit(4 * q + 3, 3, 1);
    SameLastBit(8 * q + 7, 7, 1);
    SameLastBit(16 * q + 15, 15, 1);
    SameLastBit(32 * q + 31, 31, 1);
    SameLastBit(64 * q + 63, 63, 1);
    SameLastBit(128 * q + 127, 127, 1);
  }

  lemma ShiftEven(c: nat, n: nat)
    requires 2 * c < TWO32
    ensures CrcShift(2 * c, n + 1) == CrcShift(c, n)
  {
    hide Xor;
  }

  lemma ShiftOut(q: nat)
    requires 256 * q < TWO32
    ensures CrcShift(256 * q, 8) == q
  {
    hide Xor, CrcShift;
    ShiftEven(128 * q, 7);
    ShiftEven(64 * q, 6);
    ShiftEven(32 * q, 5);
    ShiftEven(16 * q, 4);
    ShiftEven(8 * q, 3);
    ShiftEven(4 * q, 2);
    ShiftEven(2 * q, 1);
    ShiftEven(q, 0);
    NoShift(q);
  }

  lemma NoShift(q: nat)
    requires q < TWO32
    ensures CrcShift(q, 0) == q
  {
  }

  lemma ClearByte(s: seq<byte>, q: nat)
    requires CrcRegister(s) == 256 * q + 255
    ensures CrcRegister(s + [255]) == q
  {
    hide Xor, CrcShift;
    LastByteCleared(q);
    ShiftOut(q);
    assert (s + [255])[..|s|] == s;
  }

  /** The register after a top bit alone has been shifted down. */
  lemma ShiftToPolynomial()
    ensures CrcShift(128, 8) == 0xEDB8_8320
  {
    hide Xor;
    XorZero(CRC_POLYNOMIAL);
    assert CrcShift(1, 1) == CRC_POLYNOMIAL;
    assert CrcShift(4, 3) == CRC_POLYNOMIAL;
    assert CrcShift(16, 5) == CRC_POLYNOMIAL;
    assert CrcShift(64, 7) == CRC_POLYNOMIAL;
  }

  /** Four bytes 0xFF clear the register, and the next byte leaves the polynomial in it. */
  lemma Crc32Value()
    ensures Crc32([]) == 0 && Crc32([255, 255, 255, 255]) == 0xFFFF_FFFF
    ensures Crc32([255, 255, 255, 255, 128]) == 0x1247_7CDF
  {
    hide Xor, CrcShift, CrcRegister;
    var s: seq<byte> := [255, 255, 255, 255];
    assert CrcRegister(s) == 0 by {
      assert CrcRegister([]) == TWO32 - 1 by { EmptyRegister(); }
      ClearByte([], 0xFF_FFFF);
      assert [] + [255] == [255 as byte];
      ClearByte([255], 0xFFFF);
      assert [255] + [255] == [255 as byte, 255];
      ClearByte([255, 255], 0xFF);
      assert [255, 255] + [255] == [255 as byte, 255, 255];
      ClearByte([255, 255, 255], 0);
      assert [255, 255, 255] + [255] == s;
    }
    EmptyRegister();
    OneMoreByte(s, 128);
    assert s + [128] == [255, 255, 255, 255, 128];
    XorZero(128);
    ShiftToPolynomial();
  }

  lemma EmptyRegister()
    ensures CrcRegister([]) == TWO32 - 1
  {
  }

  lemma OneMoreByte(s: seq<byte>, b: byte)
    ensures Xor(CrcRegister(s), b) < TWO32 && CrcRegister(s + [b]) == CrcShift(Xor(CrcRegister(s), b), 8)
  {
    hide Xor, CrcShift;
    Pow2Values();
    XorBound(CrcRegister(s), b, 32);
    assert (s + [b])[..|s|] == s;
  }

  /** The last byte of the offset basis, 0x25, taken out of it, and the product with the prime. */
  lemma Fnv64aValue()
    ensures Fnv64a([]) == 0xcbf2_9ce4_8422_2325 && Fnv64a([0x25]) == 0xaf63_984c_8601_7900
  {
    hide Xor;
    assert [0x25 as byte][..0] == [];
    BasisCleared(0xcb_f29c_e484_2223);
  }

  /** 0x25 is 100101 in binary. */
  lemma BasisCleared(q: nat)
    ensures Xor(256 * q + 0x25, 0x25) == 256 * q
  {
    hide Xor;
    XorZero(4 * q);
    SameLastBit(4 * q, 0, 1);
    SameLastBit(8 * q + 1, 1, 0);
    SameLastBit(16 * q + 2, 2, 0);
    SameLastBit(32 * q + 4, 4, 1);
    SameLastBit(64 * q + 9, 9, 0);
    SameLastBit(128 * q + 18, 18, 1);
  }

  // ----- Nothing is lost by mixing -----

  lemma {:induction false} BitOfShifted(a: nat, n: nat, j: nat)
    ensures Bit(Shifted(a, n), j) <==> Bit(a, j + n)
  {
    if n > 0 {
      BitOfShifted(a / 2, n - 1, j);
    }
  }

  lemma {:induction false} XorOfShifted(a: nat, b: nat, n: nat)
    ensures Shifted(Xor(a, b), n) == Xor(Shifted(a, n), Shifted(b, n))
  {
    hide Xor;
    if n > 0 {
      XorStep(a, b);
      XorOfShifted(a / 2, b / 2, n - 1);
    }
  }

  lemma {:induction false} XorShiftIsInjective(a: nat, b: nat, n: nat)
    requires n > 0 && Xor(a, Shifted(a, n)) == Xor(b, Shifted(b, n))
    ensures a == b
    decreases a + b
  {
    hide Xor;
    if a + b > 0 {
      XorOfShifted(a, Shifted(a, n), n);
      XorOfShifted(b, Shifted(b, n), n);
      XorShiftIsInjective(Shifted(a, n), Shifted(b, n), n);
      XorCancels(a, b, Shifted(a, n));
    }
  }

  /** Multiplication modulo n by a number that has an inverse. */
  lemma MultipliedBack(a: nat, m: nat, inverse: nat, k: nat, n: nat)
    requires a < n && m * inverse == k * n + 1
    ensures a * m % n * inverse % n == a
  {
    var q, r := a * m / n, a * m % n;
    assert a * m == q * n + r;
    assert r * inverse == a * m * inverse - q * n * inverse;
    assert a * m * inverse == a * (k * n + 1);
    var t: int := a * k - q * inverse;
    assert r * inverse == t * n + a;
    NotNegative(t, a, n);
    QuotientIs(r * inverse, n, t, a);
  }

  lemma NotNegative(t: int, a: nat, n: nat)
    requires t * n + a >= 0 && a < n
    ensures t >= 0
  {
  }

  lemma ProductIsInjective(a: nat, b: nat, m: nat, inverse: nat, k: nat)
    requires a < TWO64 && b < TWO64 && m * inverse == k * TWO64 + 1 && a * m % TWO64 == b * m % TWO64
    ensures a == b
  {
    MultipliedBack(a, m, inverse, k, TWO64);
    MultipliedBack(b, m, inverse, k, TWO64);
  }

  /** The two factors are odd, so each has an inverse. */
  lemma FactorInverses()
    ensures MIX_1 * 10871156337175269513 == 8125545580553827436 * TWO64 + 1
    ensures MIX_2 * 3573116690164977347 == 2077064247507883091 * TWO64 + 1
  {
  }

  lemma MixedIsInjective(a: nat, b: nat)
    requires a < TWO64 && b < TWO64 && Mixed(a) == Mixed(b)
    ensures a == b
  {
    hide Xor, Shifted;
    FactorInverses();
    var a1, b1 := XorShift(a, 30), XorShift(b, 30);
    var a2, b2 := a1 * MIX_1 % TWO64, b1 * MIX_1 % TWO64;
    var a3, b3 := XorShift(a2, 27), XorShift(b2, 27);
    var a4, b4 := a3 * MIX_2 % TWO64, b3 * MIX_2 % TWO64;
    XorShiftIsInjective(a4, b4, 31);
    ProductIsInjective(a3, b3, MIX_2, 3573116690164977347, 2077064247507883091);
    XorShiftIsInjective(a2, b2, 27);
    ProductIsInjective(a1, b1, MIX_1, 10871156337175269513, 8125545580553827436);
    XorShiftIsInjective(a, b, 30);
  }

  /**
   Keys with the same pair have the same FNV hash, or mixes that differ in their high halves alone, 0 and the 1
   that stands for it.
   */
  lemma DoubleHashKeepsHash(a: seq<byte>, b: seq<byte>)
    requires DoubleHash(a) == DoubleHash(b) && Fnv64a(a) != Fnv64a(b)
    ensures DoubleHash(a).1 == 1
    ensures {Mixed(Fnv64a(a)), Mixed(Fnv64a(b))} == {DoubleHash(a).0, TWO32 + DoubleHash(a).0}
  {
    hide Mixed, Fnv64a;
    var x, y := Mixed(Fnv64a(a)), Mixed(Fnv64a(b));
    if x == y {
      MixedIsInjective(Fnv64a(a), Fnv64a(b));
    }
  }
}
