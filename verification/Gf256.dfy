/**
 Arithmetic in GF(2^8) as FIPS 197, section 4.2, defines it: bytes are polynomials over
 GF(2) and a product is the remainder modulo m(x) = x^8 + x^4 + x^3 + x + 1.

 `Times` is the shift-and-add form of section 4.2.1; the lemmas below show that it is the
 polynomial product modulo m(x), and `Gmul` is the loop of the SPU kernel.

 The bit operations are named functions so that proofs by induction can hide them and work
 with the few laws stated about them.
 */
module Gf256 {

  function Xor(a: bv8, b: bv8): bv8 { a ^ b }

  function Shr(b: bv8): bv8 { b >> 1 }

  predicate Odd(b: bv8) { b & 1 == 1 }

  /** Multiplication by x: FIPS 197, section 4.2.1. */
  function Xtime(a: bv8): bv8 {
    if a & 0x80 != 0 then (a << 1) ^ 0x1b else a << 1
  }

  function Xor16(a: bv16, b: bv16): bv16 { a ^ b }

  function Shl16(a: bv16): bv16 { a << 1 }

  function Widen(a: bv8): bv16 { a as bv16 }

  /** The polynomial m(x), of degree eight. */
  const Modulus: bv16 := 0x11b

  // Laws of the bit operations

  lemma XorLaws(a: bv8, b: bv8, c: bv8)
    ensures Xor(a, b) == Xor(b, a)
    ensures Xor(Xor(a, b), c) == Xor(a, Xor(b, c))
    ensures Xor(a, 0) == a && Xor(a, a) == 0
  {
  }

  lemma Xor16Associates(a: bv16, b: bv16, c: bv16)
    ensures Xor16(Xor16(a, b), c) == Xor16(a, Xor16(b, c))
  {
    assert (a ^ b) ^ c == a ^ (b ^ c);
  }

  lemma Xor16Laws(a: bv16, b: bv16, c: bv16)
    ensures Xor16(a, b) == Xor16(b, a)
    ensures Xor16(Xor16(a, b), c) == Xor16(a, Xor16(b, c))
    ensures Xor16(a, 0) == a && Xor16(a, a) == 0
  {
    Xor16Associates(a, b, c);
  }

  lemma XorSwap(a: bv8, b: bv8, c: bv8, d: bv8)
    ensures Xor(Xor(a, b), Xor(c, d)) == Xor(Xor(a, c), Xor(b, d))
  {
    hide *;
    XorLaws(a, b, Xor(c, d)); XorLaws(b, c, d); XorLaws(c, b, d); XorLaws(a, c, Xor(b, d));
  }

  lemma Xor16Swap(a: bv16, b: bv16, c: bv16, d: bv16)
    ensures Xor16(Xor16(a, b), Xor16(c, d)) == Xor16(Xor16(a, c), Xor16(b, d))
  {
    hide *;
    Xor16Laws(a, b, Xor16(c, d)); Xor16Laws(b, c, d); Xor16Laws(c, b, d); Xor16Laws(a, c, Xor16(b, d));
  }

  lemma Shl16Adds(a: bv16, b: bv16)
    ensures Shl16(Xor16(a, b)) == Xor16(Shl16(a), Shl16(b))
  {
  }

  lemma ShrAdds(a: bv8, b: bv8)
    ensures Shr(Xor(a, b)) == Xor(Shr(a), Shr(b))
    ensures Odd(Xor(a, b)) == (Odd(a) != Odd(b))
  {
  }

  lemma ShrShrinks(b: bv8)
    requires b != 0
    ensures Shr(b) < b
  {
  }

  lemma XtimeAdds(a: bv8, b: bv8)
    ensures Xtime(Xor(a, b)) == Xor(Xtime(a), Xtime(b))
  {
    assert (a ^ b) << 1 == (a << 1) ^ (b << 1);
    assert (a ^ b) & 0x80 == (a & 0x80) ^ (b & 0x80);
    if a & 0x80 == 0 { if b & 0x80 == 0 {} else {} } else { if b & 0x80 == 0 {} else {} }
  }

  /** Doubling a byte without reduction differs from `Xtime` by m(x) or by nothing. */
  lemma WidenXtime(a: bv8)
    ensures Shl16(Widen(a)) == Xor16(Widen(Xtime(a)), if a & 0x80 == 0 then 0 else Modulus)
  {
    if a & 0x80 == 0 {} else {}
  }

  lemma WidenAdds(a: bv8, b: bv8)
    ensures Widen(Xor(a, b)) == Xor16(Widen(a), Widen(b))
    ensures Widen(0) == 0
  {
  }

  // Products

  /** The unreduced product of two polynomials over GF(2). */
  function PolyProduct(a: bv16, b: bv8): bv16
    decreases b
  {
    if b == 0 then 0 else ShrShrinks(b); Xor16(if Odd(b) then a else 0, PolyProduct(Shl16(a), Shr(b)))
  }

  /** The product of two bytes, by repeated `Xtime`. */
  function Times(a: bv8, b: bv8): bv8
    decreases b
  {
    if b == 0 then 0 else ShrShrinks(b); Xor(if Odd(b) then a else 0, Times(Xtime(a), Shr(b)))
  }

  /** Dividing the product of `a` and `b` by m(x) gives quotient `q` and remainder `p`. */
  ghost predicate HasRemainder(a: bv8, b: bv8, q: bv8, p: bv8) {
    PolyProduct(Widen(a), b) == Xor16(Widen(p), PolyProduct(Modulus, q))
  }

  /** `p` is the product of `a` and `b` modulo m(x). */
  ghost predicate IsProduct(a: bv8, b: bv8, p: bv8) {
    exists q: bv8 :: HasRemainder(a, b, q, p)
  }

  lemma {:induction false} PolyProductAddsLeft(u: bv16, v: bv16, b: bv8)
    ensures PolyProduct(Xor16(u, v), b) == Xor16(PolyProduct(u, b), PolyProduct(v, b))
    decreases b
  {
    Xor16Laws(0, 0, 0);
    if b != 0 {
      ShrShrinks(b);
      PolyProductAddsLeft(Shl16(u), Shl16(v), Shr(b));
      Shl16Adds(u, v);
      Xor16Swap(if Odd(b) then u else 0, if Odd(b) then v else 0,
                PolyProduct(Shl16(u), Shr(b)), PolyProduct(Shl16(v), Shr(b)));
      hide Xor16, Shl16, Shr, Odd;
    }
  }

  /** The recursion of `PolyProduct` also holds for a zero factor. */
  lemma {:induction false} Unroll(a: bv16, b: bv8)
    ensures PolyProduct(a, b) == Xor16(if Odd(b) then a else 0, PolyProduct(Shl16(a), Shr(b)))
  {
  }

  lemma {:induction false} PolyProductAddsRight(a: bv16, b: bv8, c: bv8)
    ensures PolyProduct(a, Xor(b, c)) == Xor16(PolyProduct(a, b), PolyProduct(a, c))
    decreases b
  {
    if b == 0 {
      XorLaws(0, c, 0);
      Xor16Laws(0, PolyProduct(a, c), 0);
      XorLaws(c, 0, 0);
      Xor16Laws(PolyProduct(a, c), 0, 0);
      hide Xor, Xor16;
    } else {
      ShrShrinks(b);
      PolyProductAddsRight(Shl16(a), Shr(b), Shr(c));
      ShrAdds(b, c);
      Unroll(a, b); Unroll(a, c); Unroll(a, Xor(b, c));
      Xor16Swap(if Odd(b) then a else 0, if Odd(c) then a else 0,
                PolyProduct(Shl16(a), Shr(b)), PolyProduct(Shl16(a), Shr(c)));
      Xor16Laws(a, 0, 0); Xor16Laws(0, 0, 0);
      hide *;
    }
  }

  /** `Times` is the product of FIPS 197, section 4.2. */
  lemma {:induction false} TimesIsProduct(a: bv8, b: bv8)
    ensures IsProduct(a, b, Times(a, b))
    decreases b
  {
    if b == 0 {
      WidenAdds(0, 0);
      assert HasRemainder(a, b, 0, 0);
    } else {
      ShrShrinks(b);
      TimesIsProduct(Xtime(a), Shr(b));
      var q :| HasRemainder(Xtime(a), Shr(b), q, Times(Xtime(a), Shr(b)));
      RemainderStep(a, b, q);
    }
  }

  lemma RemainderStep(a: bv8, b: bv8, q: bv8)
    requires b != 0 && HasRemainder(Xtime(a), Shr(b), q, Times(Xtime(a), Shr(b)))
    ensures IsProduct(a, b, Times(a, b))
  {
    var c := Shr(b);
    var low := if Odd(b) then a else 0;
    var t := Times(Xtime(a), c);
    var m := if a & 0x80 == 0 then 0 else Modulus;
    var r := if a & 0x80 == 0 then 0 else c;
    WidenAdds(low, t);
    WidenXtime(a);
    PolyProductAddsLeft(Widen(Xtime(a)), m, c);
    PolyProductAddsRight(Modulus, q, r);
    ZeroProduct(c);
    var w, x, y, z := Widen(low), Widen(t), PolyProduct(Modulus, q), PolyProduct(m, c);
    Xor16Laws(x, y, z);
    Xor16Laws(w, x, Xor16(y, z));
    assert PolyProduct(Widen(a), b) == Xor16(w, PolyProduct(Shl16(Widen(a)), c));
    assert Times(a, b) == Xor(low, t);
    hide Xor, Xor16, Shl16, Shr, Odd, Xtime, Times, PolyProduct, Widen;
    assert HasRemainder(a, b, Xor(q, r), Times(a, b));
  }

  lemma {:induction false} ZeroProduct(b: bv8)
    ensures PolyProduct(0, b) == 0 && Times(0, b) == 0
    decreases b
  {
    if b != 0 {
      ShrShrinks(b);
      ZeroProduct(Shr(b));
    }
  }

  /** A multiple of m(x) that fits in a byte is zero. */
  lemma NoSmallMultiple(q: bv8)
    requires PolyProduct(Modulus, q) & 0xff00 == 0
    ensures q == 0
  {
    var m, p := Modulus, q;
    Unroll(m, q); Unroll(m << 1, q >> 1); Unroll(m << 2, q >> 2); Unroll(m << 3, q >> 3);
    Unroll(m << 4, q >> 4); Unroll(m << 5, q >> 5); Unroll(m << 6, q >> 6); Unroll(m << 7, q >> 7);
    assert PolyProduct(m << 8, q >> 8) == 0;
  }

  /** The remainder modulo m(x) is unique, so `IsProduct` pins down one byte. */
  lemma ProductIsUnique(a: bv8, b: bv8, p: bv8, p': bv8)
    requires IsProduct(a, b, p) && IsProduct(a, b, p')
    ensures p == p'
  {
    var q :| HasRemainder(a, b, q, p);
    var q' :| HasRemainder(a, b, q', p');
    PolyProductAddsRight(Modulus, q, q');
    SameProduct(Widen(p), Widen(p'), PolyProduct(Modulus, q), PolyProduct(Modulus, q'));
    NoSmallMultiple(Xor(q, q'));
  }

  lemma SameProduct(a: bv16, b: bv16, c: bv16, d: bv16)
    requires a & 0xff00 == 0 && b & 0xff00 == 0
    requires Xor16(a, c) == Xor16(b, d)
    ensures Xor16(c, d) & 0xff00 == 0
    ensures c == d ==> a == b
  {
  }

  /** The kernel's multiplication, which also stops once `a` has become zero. */
  method Gmul(a0: bv8, b0: bv8) returns (p: bv8)
    ensures p == Times(a0, b0)
    ensures IsProduct(a0, b0, p)
  {
    var a, b := a0, b0;
    p := 0;
    while a != 0 && b != 0
      invariant p ^ Times(a, b) == Times(a0, b0)
      decreases b
    {
      if b & 1 != 0 { p := p ^ a; }
      if a & 0x80 != 0 { a := (a << 1) ^ 0x1b; } else { a := a << 1; }
      b := b >> 1;
    }
    ZeroProduct(b);
    TimesIsProduct(a0, b0);
  }

  lemma {:induction false} TimesAdds(a: bv8, b: bv8, k: bv8)
    ensures Times(Xor(a, b), k) == Xor(Times(a, k), Times(b, k))
    decreases k
  {
    XorLaws(0, 0, 0);
    if k != 0 {
      ShrShrinks(k);
      XtimeAdds(a, b);
      TimesAdds(Xtime(a), Xtime(b), Shr(k));
      XorSwap(if Odd(k) then a else 0, if Odd(k) then b else 0,
              Times(Xtime(a), Shr(k)), Times(Xtime(b), Shr(k)));
      hide Xor, Xtime, Shr, Odd;
    }
  }
}
