/**
 The S-box of FIPS 197, section 5.1.1: the affine transformation of the multiplicative inverse
 in GF(2^8). The corrected table is that function.
 */
module FipsSbox {
  import opened Gf256
  import opened AesTables

  function Rotl(x: bv8, n: nat): bv8
    requires 0 < n < 8
  {
    (x << n) | (x >> (8 - n))
  }

  /** Bit i of the result is the sum of bits i, i+4, i+5, i+6 and i+7, taken modulo 8, and of 0x63. */
  function Affine(y: bv8): bv8 {
    y ^ Rotl(y, 1) ^ Rotl(y, 2) ^ Rotl(y, 3) ^ Rotl(y, 4) ^ 0x63
  }

  /** The multiplicative inverses, with 0 for 0. */
  function Inverse(x: bv8): bv8 {
    Pick(x >> 4,
      Pick(x, 0x00, 0x01, 0x8d, 0xf6, 0xcb, 0x52, 0x7b, 0xd1, 0xe8, 0x4f, 0x29, 0xc0, 0xb0, 0xe1, 0xe5, 0xc7),
      Pick(x, 0x74, 0xb4, 0xaa, 0x4b, 0x99, 0x2b, 0x60, 0x5f, 0x58, 0x3f, 0xfd, 0xcc, 0xff, 0x40, 0xee, 0xb2),
      Pick(x, 0x3a, 0x6e, 0x5a, 0xf1, 0x55, 0x4d, 0xa8, 0xc9, 0xc1, 0x0a, 0x98, 0x15, 0x30, 0x44, 0xa2, 0xc2),
      Pick(x, 0x2c, 0x45, 0x92, 0x6c, 0xf3, 0x39, 0x66, 0x42, 0xf2, 0x35, 0x20, 0x6f, 0x77, 0xbb, 0x59, 0x19),
      Pick(x, 0x1d, 0xfe, 0x37, 0x67, 0x2d, 0x31, 0xf5, 0x69, 0xa7, 0x64, 0xab, 0x13, 0x54, 0x25, 0xe9, 0x09),
      Pick(x, 0xed, 0x5c, 0x05, 0xca, 0x4c, 0x24, 0x87, 0xbf, 0x18, 0x3e, 0x22, 0xf0, 0x51, 0xec, 0x61, 0x17),
      Pick(x, 0x16, 0x5e, 0xaf, 0xd3, 0x49, 0xa6, 0x36, 0x43, 0xf4, 0x47, 0x91, 0xdf, 0x33, 0x93, 0x21, 0x3b),
      Pick(x, 0x79, 0xb7, 0x97, 0x85, 0x10, 0xb5, 0xba, 0x3c, 0xb6, 0x70, 0xd0, 0x06, 0xa1, 0xfa, 0x81, 0x82),
      Pick(x, 0x83, 0x7e, 0x7f, 0x80, 0x96, 0x73, 0xbe, 0x56, 0x9b, 0x9e, 0x95, 0xd9, 0xf7, 0x02, 0xb9, 0xa4),
      Pick(x, 0xde, 0x6a, 0x32, 0x6d, 0xd8, 0x8a, 0x84, 0x72, 0x2a, 0x14, 0x9f, 0x88, 0xf9, 0xdc, 0x89, 0x9a),
      Pick(x, 0xfb, 0x7c, 0x2e, 0xc3, 0x8f, 0xb8, 0x65, 0x48, 0x26, 0xc8, 0x12, 0x4a, 0xce, 0xe7, 0xd2, 0x62),
      Pick(x, 0x0c, 0xe0, 0x1f, 0xef, 0x11, 0x75, 0x78, 0x71, 0xa5, 0x8e, 0x76, 0x3d, 0xbd, 0xbc, 0x86, 0x57),
      Pick(x, 0x0b, 0x28, 0x2f, 0xa3, 0xda, 0xd4, 0xe4, 0x0f, 0xa9, 0x27, 0x53, 0x04, 0x1b, 0xfc, 0xac, 0xe6),
      Pick(x, 0x7a, 0x07, 0xae, 0x63, 0xc5, 0xdb, 0xe2, 0xea, 0x94, 0x8b, 0xc4, 0xd5, 0x9d, 0xf8, 0x90, 0x6b),
      Pick(x, 0xb1, 0x0d, 0xd6, 0xeb, 0xc6, 0x0e, 0xcf, 0xad, 0x08, 0x4e, 0xd7, 0xe3, 0x5d, 0x50, 0x1e, 0xb3),
      Pick(x, 0x5b, 0x23, 0x38, 0x34, 0x68, 0x46, 0x03, 0x8c, 0xdd, 0x9c, 0x7d, 0xa0, 0xcd, 0x1a, 0x41, 0x1c))
  }

  /** Undoes the affine transformation. */
  function Unaffine(s: bv8): bv8 {
    Rotl(s, 1) ^ Rotl(s, 3) ^ Rotl(s, 6) ^ 0x05
  }

  lemma UnaffineUndone(y: bv8)
    ensures Unaffine(Affine(y)) == y
  {
  }

  // The product, written out over the bits of one factor

  function Bit(y: bv8, mask: bv8, x: bv8): bv8 {
    if y & mask == 0 then 0 else x
  }

  function Low(x0: bv8, x1: bv8, x2: bv8, x3: bv8, y: bv8): bv8 {
    (Bit(y, 1, x0) ^ Bit(y, 2, x1)) ^ (Bit(y, 4, x2) ^ Bit(y, 8, x3))
  }

  function Product(x: bv8, y: bv8): bv8 {
    var x1 := Xtime(x); var x2 := Xtime(x1); var x3 := Xtime(x2); var x4 := Xtime(x3);
    Low(x, x1, x2, x3, y) ^ Low(x4, Xtime(x4), Xtime(Xtime(x4)), Xtime(Xtime(Xtime(x4))), y >> 4)
  }

  lemma TimesStep(a: bv8, b: bv8)
    ensures Times(a, b) == Xor(if Odd(b) then a else 0, Times(Xtime(a), Shr(b)))
  {
    hide Xtime;
    if b == 0 {
      ZeroShifted();
    }
  }

  lemma ZeroShifted()
    ensures Shr(0) == 0 && !Odd(0) && Xor(0, 0) == 0 && forall a :: Times(a, 0) == 0
  {
  }

  lemma LowBits(b: bv8, x0: bv8, x1: bv8, x2: bv8, x3: bv8, t: bv8)
    ensures Xor(if Odd(b) then x0 else 0, Xor(if Odd(Shr(b)) then x1 else 0,
              Xor(if Odd(Shr(Shr(b))) then x2 else 0, Xor(if Odd(Shr(Shr(Shr(b)))) then x3 else 0, t))))
         == Low(x0, x1, x2, x3, b) ^ t
    ensures Shr(Shr(Shr(Shr(b)))) == b >> 4 && (b >> 4) >> 4 == 0
  {
  }

  lemma FourSteps(a: bv8, b: bv8)
    ensures var a1 := Xtime(a); var a2 := Xtime(a1); var a3 := Xtime(a2);
      Times(a, b) == Low(a, a1, a2, a3, b) ^ Times(Xtime(a3), b >> 4)
  {
    hide Xtime, Times, Shr, Odd, Xor, Low;
    var a1 := Xtime(a); var a2 := Xtime(a1); var a3 := Xtime(a2);
    TimesStep(a, b);
    TimesStep(a1, Shr(b));
    TimesStep(a2, Shr(Shr(b)));
    TimesStep(a3, Shr(Shr(Shr(b))));
    LowBits(b, a, a1, a2, a3, Times(Xtime(a3), b >> 4));
  }

  lemma TimesIsWrittenOut(x: bv8, y: bv8)
    ensures Times(x, y) == Product(x, y)
  {
    hide Xtime, Times, Low;
    var x4 := Xtime(Xtime(Xtime(Xtime(x))));
    FourSteps(x, y);
    FourSteps(x4, y >> 4);
    LowBits(y, 0, 0, 0, 0, 0);
    NoHighBits(Xtime(Xtime(Xtime(Xtime(x4)))), Low(x4, Xtime(x4), Xtime(Xtime(x4)), Xtime(Xtime(Xtime(x4))), y >> 4));
  }

  lemma NoHighBits(a: bv8, p: bv8)
    ensures p ^ Times(a, 0) == p
  {
  }

  // The tables are checked a part at a time

  lemma InversePart0(x: bv8)
    requires x & 0xc0 == 0x00 && x != 0
    ensures Product(x, Inverse(x)) == 1
  {
    assert x & 0x20 == 0 || x & 0x20 == 0x20;
  }

  lemma AffinePart0(x: bv8)
    requires x & 0xc0 == 0x00
    ensures Sbox(x) == Affine(Inverse(x))
  {
    assert x & 0x20 == 0 || x & 0x20 == 0x20;
  }

  lemma InversePart1(x: bv8)
    requires x & 0xc0 == 0x40 && x != 0
    ensures Product(x, Inverse(x)) == 1
  {
    assert x & 0x20 == 0 || x & 0x20 == 0x20;
  }

  lemma AffinePart1(x: bv8)
    requires x & 0xc0 == 0x40
    ensures Sbox(x) == Affine(Inverse(x))
  {
    assert x & 0x20 == 0 || x & 0x20 == 0x20;
  }

  lemma InversePart2(x: bv8)
    requires x & 0xc0 == 0x80 && x != 0
    ensures Product(x, Inverse(x)) == 1
  {
    assert x & 0x20 == 0 || x & 0x20 == 0x20;
  }

  lemma AffinePart2(x: bv8)
    requires x & 0xc0 == 0x80
    ensures Sbox(x) == Affine(Inverse(x))
  {
    assert x & 0x20 == 0 || x & 0x20 == 0x20;
  }

  lemma InversePart3(x: bv8)
    requires x & 0xc0 == 0xc0 && x != 0
    ensures Product(x, Inverse(x)) == 1
  {
    assert x & 0x20 == 0 || x & 0x20 == 0x20;
  }

  lemma AffinePart3(x: bv8)
    requires x & 0xc0 == 0xc0
    ensures Sbox(x) == Affine(Inverse(x))
  {
    assert x & 0x20 == 0 || x & 0x20 == 0x20;
  }

  lemma NoDivisor0(x: bv8, d: bv8)
    requires x & 0xe0 == 0x00 && x != 0 && Product(x, d) == 0
    ensures d == 0
  {
  }

  lemma NoDivisor1(x: bv8, d: bv8)
    requires x & 0xe0 == 0x20 && x != 0 && Product(x, d) == 0
    ensures d == 0
  {
  }

  lemma NoDivisor2(x: bv8, d: bv8)
    requires x & 0xe0 == 0x40 && x != 0 && Product(x, d) == 0
    ensures d == 0
  {
  }

  lemma NoDivisor3(x: bv8, d: bv8)
    requires x & 0xe0 == 0x60 && x != 0 && Product(x, d) == 0
    ensures d == 0
  {
  }

  lemma NoDivisor4(x: bv8, d: bv8)
    requires x & 0xe0 == 0x80 && x != 0 && Product(x, d) == 0
    ensures d == 0
  {
  }

  lemma NoDivisor5(x: bv8, d: bv8)
    requires x & 0xe0 == 0xa0 && x != 0 && Product(x, d) == 0
    ensures d == 0
  {
  }

  lemma NoDivisor6(x: bv8, d: bv8)
    requires x & 0xe0 == 0xc0 && x != 0 && Product(x, d) == 0
    ensures d == 0
  {
  }

  lemma NoDivisor7(x: bv8, d: bv8)
    requires x & 0xe0 == 0xe0 && x != 0 && Product(x, d) == 0
    ensures d == 0
  {
  }

  lemma InverseFound(x: bv8)
    ensures x != 0 ==> Product(x, Inverse(x)) == 1
    ensures Sbox(x) == Affine(Inverse(x))
  {
    hide *;
    if x & 0xc0 == 0x00 {
      if x != 0 { InversePart0(x); }
      AffinePart0(x);
    } else if x & 0xc0 == 0x40 {
      InversePart1(x); AffinePart1(x);
    } else if x & 0xc0 == 0x80 {
      InversePart2(x); AffinePart2(x);
    } else {
      InversePart3(x); AffinePart3(x);
    }
  }

  /** The field has no zero divisors. */
  lemma NoDivisor(x: bv8, d: bv8)
    requires x != 0 && Product(x, d) == 0
    ensures d == 0
  {
    hide *;
    if x & 0xe0 == 0x00 {
      NoDivisor0(x, d);
    } else if x & 0xe0 == 0x20 {
      NoDivisor1(x, d);
    } else if x & 0xe0 == 0x40 {
      NoDivisor2(x, d);
    } else if x & 0xe0 == 0x60 {
      NoDivisor3(x, d);
    } else if x & 0xe0 == 0x80 {
      NoDivisor4(x, d);
    } else if x & 0xe0 == 0xa0 {
      NoDivisor5(x, d);
    } else if x & 0xe0 == 0xc0 {
      NoDivisor6(x, d);
    } else {
      NoDivisor7(x, d);
    }
  }

  lemma {:induction false} TimesAddsRight(a: bv8, b: bv8, c: bv8)
    ensures Times(a, Xor(b, c)) == Xor(Times(a, b), Times(a, c))
    decreases b
  {
    if b == 0 {
      XorLaws(0, c, 0); XorLaws(c, 0, 0);
      XorLaws(0, Times(a, c), 0); XorLaws(Times(a, c), 0, 0);
      hide Xor;
    } else {
      ShrShrinks(b);
      TimesAddsRight(Xtime(a), Shr(b), Shr(c));
      ShrAdds(b, c);
      TimesStep(a, b); TimesStep(a, c); TimesStep(a, Xor(b, c));
      XorSwap(if Odd(b) then a else 0, if Odd(c) then a else 0, Times(Xtime(a), Shr(b)), Times(Xtime(a), Shr(c)));
      XorLaws(a, 0, 0); XorLaws(0, 0, 0);
      hide *;
    }
  }

  lemma EqualIfZero(y: bv8, y': bv8)
    ensures Xor(y, y') == 0 ==> y == y'
    ensures Xor(1, 1) == 0
  {
  }

  /** There is at most one inverse. */
  lemma OneInverse(x: bv8, y: bv8, y': bv8)
    requires x != 0 && Times(x, y) == 1 && Times(x, y') == 1
    ensures y == y'
  {
    hide Product, Times, Xor;
    var z := Xor(y, y');
    TimesAddsRight(x, y, y');
    TimesIsWrittenOut(x, z);
    EqualIfZero(y, y');
    NoDivisor(x, z);
  }

  /** `y` is the inverse of `x` as FIPS 197 takes it, with 0 for 0. */
  predicate IsInverse(x: bv8, y: bv8) {
    if x == 0 then y == 0 else Times(x, y) == 1
  }

  lemma InverseOfZero()
    ensures Inverse(0) == 0
  {
  }

  /** Every byte has exactly one inverse, and the S-box is the affine transformation of it. */
  lemma SboxIsFips(x: bv8, y: bv8)
    ensures IsInverse(x, Inverse(x)) && Sbox(x) == Affine(Inverse(x))
    ensures IsInverse(x, y) <==> Sbox(x) == Affine(y)
  {
    hide Sbox, Affine, Inverse, Product, Times;
    var z := Inverse(x);
    InverseFound(x);
    InverseOfZero();
    AffineInjective(y, z);
    if x != 0 {
      TimesIsWrittenOut(x, z);
      if Times(x, y) == 1 { OneInverse(x, y, z); }
    }
  }

  lemma AffineInjective(y: bv8, z: bv8)
    ensures Affine(y) == Affine(z) ==> y == z
  {
    hide Affine, Unaffine;
    UnaffineUndone(y);
    UnaffineUndone(z);
  }
}
