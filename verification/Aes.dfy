/**
 AES-128 of FIPS 197 over GF(2^8): the byte operations of module Gf256 and the tables of
 module AesTables put into the round structure of module Blocks.
 */
module Aes {
  import opened Gf256
  import opened AesTables
  import opened Blocks
  import opened KeySchedule
  import opened Cbc

  /** A row of coefficients applied to a column. */
  function Combine(k0: bv8, k1: bv8, k2: bv8, k3: bv8, a: bv8, b: bv8, c: bv8, d: bv8): bv8 {
    Xor(Xor(Times(a, k0), Times(b, k1)), Xor(Times(c, k2), Times(d, k3)))
  }

  function MixByte(a: bv8, b: bv8, c: bv8, d: bv8): bv8 {
    Combine(0x02, 0x03, 0x01, 0x01, a, b, c, d)
  }

  function InvMixByte(a: bv8, b: bv8, c: bv8, d: bv8): bv8 {
    Combine(0x0e, 0x0b, 0x0d, 0x09, a, b, c, d)
  }

  /** FIPS 197, section 5.1, with the S-box that `rsbox` inverts. */
  function Encrypt(w: RoundKeys, plain: Block): Block {
    Cipher(Sbox, Xor, MixByte, w, plain)
  }

  /** FIPS 197, section 5.3, with the table `rsbox`. */
  function Decrypt(w: RoundKeys, ct: Block): Block {
    InvCipher(InvSbox, Xor, InvMixByte, w, ct)
  }

  function EncryptWith(w: RoundKeys): Block -> Block {
    (x: Block) => Encrypt(w, x)
  }

  function DecryptWith(w: RoundKeys): Block -> Block {
    (x: Block) => Decrypt(w, x)
  }

  lemma WithKeys(w: RoundKeys, x: Block)
    ensures DecryptWith(w)(x) == Decrypt(w, x) && EncryptWith(w)(x) == Encrypt(w, x)
  {
    hide Decrypt, Encrypt;
  }

  /** The expanded key of FIPS 197, section 5.2. */
  function StandardKeys(key: Block): RoundKeys {
    Expansion(Sbox, Xor, Rcon, key)
  }

  /** The expanded key that the kernel's table `sbox` gives. */
  function KernelKeys(key: Block): RoundKeys {
    Expansion(KeySbox, Xor, Rcon, key)
  }

  /** The round constant x^(i-1). */
  function Rcon(i: nat): bv8 {
    if i <= 1 then 1 else Xtime(Rcon(i - 1))
  }

  /** Multiplication by the constants of MixColumns and its inverse, in powers of x. */
  lemma ConstantTimes(a: bv8, a1: bv8, a2: bv8, a3: bv8)
    requires a1 == Xtime(a) && a2 == Xtime(a1) && a3 == Xtime(a2)
    ensures Times(a, 0x01) == a
    ensures Times(a, 0x02) == a1
    ensures Times(a, 0x03) == Xor(a, a1)
    ensures Times(a, 0x09) == Xor(a, a3)
    ensures Times(a, 0x0b) == Xor(a, Xor(a1, a3))
    ensures Times(a, 0x0d) == Xor(a, Xor(a2, a3))
    ensures Times(a, 0x0e) == Xor(a1, Xor(a2, a3))
  {
    ZeroProduct(0);
    XorLaws(a, 0, 0); XorLaws(a1, 0, 0); XorLaws(a2, 0, 0); XorLaws(a3, 0, 0);
    assert Times(a3, 0x01) == a3 && Times(a1, 1) == a1;
    assert Times(a2, 0x02) == a3 && Times(a2, 0x03) == Xor(a2, a3);
    assert Times(a1, 0x04) == a3 && Times(a1, 0x05) == Xor(a1, a3);
    assert Times(a1, 0x06) == Xor(a2, a3) && Times(a1, 0x07) == Xor(a1, Xor(a2, a3));
  }

  lemma CombineAdds(k0: bv8, k1: bv8, k2: bv8, k3: bv8,
                    a: bv8, b: bv8, c: bv8, d: bv8, a': bv8, b': bv8, c': bv8, d': bv8)
    ensures Combine(k0, k1, k2, k3, Xor(a, a'), Xor(b, b'), Xor(c, c'), Xor(d, d'))
         == Xor(Combine(k0, k1, k2, k3, a, b, c, d), Combine(k0, k1, k2, k3, a', b', c', d'))
  {
    TimesAdds(a, a', k0); TimesAdds(b, b', k1); TimesAdds(c, c', k2); TimesAdds(d, d', k3);
    XorSwap(Times(a, k0), Times(a', k0), Times(b, k1), Times(b', k1));
    XorSwap(Times(c, k2), Times(c', k2), Times(d, k3), Times(d', k3));
    XorSwap(Xor(Times(a, k0), Times(b, k1)), Xor(Times(a', k0), Times(b', k1)),
            Xor(Times(c, k2), Times(d, k3)), Xor(Times(c', k2), Times(d', k3)));
    hide Xor, Times;
  }

  lemma XorOfThree(a: bv8, b: bv8, c: bv8)
    ensures Xor(a, b) == a ^ b && Xor(a, Xor(b, c)) == a ^ (b ^ c)
  {
  }

  lemma XorOfFour(a: bv8, b: bv8, c: bv8, d: bv8)
    ensures Xor(Xor(a, b), Xor(c, d)) == (a ^ b) ^ (c ^ d)
  {
  }

  // In the next two lemmas e, b, d, n are 0x0e, 0x0b, 0x0d and 0x09 times a byte, primed for
  // twice that byte; every power of x cancels in what InvMixColumns makes of them.

  lemma PowersCancel(a: bv8, a1: bv8, a2: bv8, a3: bv8, a4: bv8,
                     e: bv8, b: bv8, d: bv8, n: bv8, e': bv8, b': bv8, n': bv8, nn: bv8, ee: bv8)
    requires e == a1 ^ (a2 ^ a3) && b == a ^ (a1 ^ a3) && d == a ^ (a2 ^ a3) && n == a ^ a3
    requires e' == a2 ^ (a3 ^ a4) && b' == a1 ^ (a2 ^ a4) && n' == a1 ^ a4
    requires nn == n ^ n' && ee == e ^ e'
    ensures (e' ^ b) ^ (d ^ nn) == a
    ensures (ee ^ b') ^ (d ^ n) == 0
  {
  }

  lemma MorePowersCancel(a: bv8, a1: bv8, a2: bv8, a3: bv8, a4: bv8,
                         e: bv8, b: bv8, d: bv8, n: bv8, b': bv8, d': bv8, n': bv8, bb: bv8, dd: bv8)
    requires e == a1 ^ (a2 ^ a3) && b == a ^ (a1 ^ a3) && d == a ^ (a2 ^ a3) && n == a ^ a3
    requires b' == a1 ^ (a2 ^ a4) && d' == a1 ^ (a3 ^ a4) && n' == a1 ^ a4
    requires bb == b ^ b' && dd == d ^ d'
    ensures (e ^ bb) ^ (d' ^ n) == 0
    ensures (e ^ b) ^ (dd ^ n') == 0
  {
  }

  /**
   InvMixColumns applied to the four multiples of one byte that MixColumns spreads over its
   column: the two coefficient polynomials are inverse (FIPS 197, section 5.3.3).
   */
  lemma OneByteMixed(a: bv8)
    ensures InvMixByte(Times(a, 2), a, a, Times(a, 3)) == a
    ensures InvMixByte(Times(a, 3), Times(a, 2), a, a) == 0
    ensures InvMixByte(a, Times(a, 3), Times(a, 2), a) == 0
    ensures InvMixByte(a, a, Times(a, 3), Times(a, 2)) == 0
  {
    var a1 := Xtime(a);
    var a2 := Xtime(a1);
    var a3 := Xtime(a2);
    var a4 := Xtime(a3);
    ConstantTimes(a, a1, a2, a3);
    ConstantTimes(a1, a2, a3, a4);
    TimesAdds(a, a1, 0x0e); TimesAdds(a, a1, 0x0b); TimesAdds(a, a1, 0x0d); TimesAdds(a, a1, 0x09);
    hide *;
    XorOfThree(a1, a2, a3); XorOfThree(a, a1, a3); XorOfThree(a, a2, a3); XorOfThree(a, a3, 0);
    XorOfThree(a2, a3, a4); XorOfThree(a1, a2, a4); XorOfThree(a1, a3, a4); XorOfThree(a1, a4, 0);
    var e, b, d, n := Times(a, 0x0e), Times(a, 0x0b), Times(a, 0x0d), Times(a, 0x09);
    var e', b', d', n' := Times(a1, 0x0e), Times(a1, 0x0b), Times(a1, 0x0d), Times(a1, 0x09);
    var ee, bb, dd, nn := Xor(e, e'), Xor(b, b'), Xor(d, d'), Xor(n, n');
    XorOfThree(e, e', 0); XorOfThree(b, b', 0); XorOfThree(d, d', 0); XorOfThree(n, n', 0);
    PowersCancel(a, a1, a2, a3, a4, e, b, d, n, e', b', n', nn, ee);
    MorePowersCancel(a, a1, a2, a3, a4, e, b, d, n, b', d', n', bb, dd);
    XorOfFour(e', b, d, nn); XorOfFour(ee, b', d, n); XorOfFour(e, bb, d', n); XorOfFour(e, b, dd, n');
  }

  lemma XorRotates(p: bv8, q: bv8, r: bv8, s: bv8)
    ensures Xor(Xor(p, q), Xor(r, s)) == Xor(Xor(s, p), Xor(q, r)) == Xor(Xor(q, r), Xor(s, p))
  {
    assert (p ^ q) ^ (r ^ s) == (s ^ p) ^ (q ^ r) && (p ^ q) ^ (r ^ s) == (q ^ r) ^ (s ^ p);
    XorOfFour(p, q, r, s); XorOfFour(s, p, q, r); XorOfFour(q, r, s, p);
    hide *;
  }

  lemma ColumnInverse(a: bv8, b: bv8, c: bv8, d: bv8)
    ensures InvMixByte(MixByte(a, b, c, d), MixByte(b, c, d, a), MixByte(c, d, a, b), MixByte(d, a, b, c)) == a
  {
    var a2, a3, b2, b3 := Times(a, 2), Times(a, 3), Times(b, 2), Times(b, 3);
    var c2, c3, d2, d3 := Times(c, 2), Times(c, 3), Times(d, 2), Times(d, 3);
    TimesOne(a); TimesOne(b); TimesOne(c); TimesOne(d);
    hide Times, Xor;
    OneByteMixed(a); OneByteMixed(b); OneByteMixed(c); OneByteMixed(d);
    assert MixByte(a, b, c, d) == Xor(Xor(a2, b3), Xor(c, d));
    assert MixByte(b, c, d, a) == Xor(Xor(a, b2), Xor(c3, d)) by { XorRotates(b2, c3, d, a); }
    assert MixByte(c, d, a, b) == Xor(Xor(a, b), Xor(c2, d3)) by { XorLaws(Xor(c2, d3), Xor(a, b), 0); }
    assert MixByte(d, a, b, c) == Xor(Xor(a3, b), Xor(c, d2)) by { XorRotates(d2, a3, b, c); }
    CombineAdds(0x0e, 0x0b, 0x0d, 0x09, a2, a, a, a3, b3, b2, b, b);
    CombineAdds(0x0e, 0x0b, 0x0d, 0x09, c, c3, c2, c, d, d, d3, d2);
    CombineAdds(0x0e, 0x0b, 0x0d, 0x09, Xor(a2, b3), Xor(a, b2), Xor(a, b), Xor(a3, b),
                Xor(c, d), Xor(c3, d), Xor(c2, d3), Xor(c, d2));
    XorLaws(a, 0, 0); XorLaws(0, 0, 0);
    hide Combine;
  }

  lemma TimesOne(a: bv8)
    ensures Times(a, 1) == a
  {
    ConstantTimes(a, Xtime(a), Xtime(Xtime(a)), Xtime(Xtime(Xtime(a))));
    hide *;
  }

  // Theorems

  lemma XorTwice(x: bv8, k: bv8)
    ensures Xor(Xor(x, k), k) == x
  {
    hide *;
    XorLaws(x, k, k);
    XorLaws(k, k, k);
  }

  /** Every byte operation of the inverse cipher undoes the one of the cipher. */
  lemma OperationsUndone()
    ensures Undoes1(InvSbox, Sbox) && Undoes2(Xor) && Undoes4(InvMixByte, MixByte)
  {
    hide InvSbox, Sbox, Xor, MixByte, InvMixByte;
    forall x: bv8 ensures InvSbox(Sbox(x)) == x { SboxInverse(x); }
    forall x: bv8, k: bv8 ensures Xor(Xor(x, k), k) == x { XorTwice(x, k); }
    forall a: bv8, b: bv8, c: bv8, d: bv8
      ensures InvMixByte(MixByte(a, b, c, d), MixByte(b, c, d, a), MixByte(c, d, a, b), MixByte(d, a, b, c)) == a
    {
      ColumnInverse(a, b, c, d);
    }
  }

  /** For all eleven round keys and every block, the inverse cipher undoes the cipher. */
  lemma DecryptUndoesEncrypt(w: RoundKeys, plain: Block)
    ensures Decrypt(w, Encrypt(w, plain)) == plain
  {
    hide InvSbox, Sbox, Xor, MixByte, InvMixByte, Cipher, InvCipher;
    OperationsUndone();
    InvCipherUndoes(Sbox, InvSbox, Xor, MixByte, InvMixByte, w, plain);
  }

  /**
   Decrypting a CBC encryption under the same round keys and initialization vector gives back
   the plaintext.
   */
  lemma CbcRoundTripAes(w: RoundKeys, iv: Block, pt: seq<bv8>)
    requires |pt| % 16 == 0
    ensures CbcDecrypt(DecryptWith(w), Xor, iv, CbcEncrypt(EncryptWith(w), Xor, iv, pt)) == pt
  {
    hide InvSbox, Sbox, Xor, MixByte, InvMixByte, Cipher, InvCipher, CbcDecrypt, CbcEncrypt;
    OperationsUndone();
    forall b: Block ensures DecryptWith(w)(EncryptWith(w)(b)) == b { DecryptUndoesEncrypt(w, b); }
    CbcRoundTrip(EncryptWith(w), DecryptWith(w), Xor, iv, pt);
  }

  /**
   The kernel's key schedule is the standard one if and only if none of the bytes that the
   standard schedule substitutes is 0xa7, which is also to say that the kernel substitutes none.
   */
  lemma StandardKeysExactly(key: Block)
    ensures KernelKeys(key) == StandardKeys(key) <==> Avoids(StandardKeys(key), 0xa7)
    ensures Avoids(KernelKeys(key), 0xa7) <==> Avoids(StandardKeys(key), 0xa7)
  {
    hide InvSbox, Sbox, KeySbox, Xor, Expansion;
    forall x ensures KeySbox(x) == Sbox(x) <==> x != 0xa7 { KeySboxDiffers(x); }
    forall a, b, c ensures Xor(a, c) == Xor(b, c) ==> a == b { XorCancels(a, b, c); }
    forall a, b, c ensures Xor(c, a) == Xor(c, b) ==> a == b { XorCancels(a, b, c); }
    SameExpansionExactly(KeySbox, Sbox, Xor, Rcon, key, 0xa7);
    SameExpansionExactly(Sbox, KeySbox, Xor, Rcon, key, 0xa7);
  }

  lemma XorCancels(a: bv8, b: bv8, c: bv8)
    ensures Xor(a, c) == Xor(b, c) ==> a == b
    ensures Xor(c, a) == Xor(c, b) ==> a == b
  {
  }

  /** The kernel expands every key wrongly that has the byte 0xa7 in its last word. */
  lemma WrongSchedule(key: Block, k: nat)
    requires k < 4 && key[12 + k] == 0xa7
    ensures KernelKeys(key) != StandardKeys(key)
  {
    hide *;
    StandardKeysExactly(key);
    LastWordUsed(KeySbox, Xor, Rcon, key, 0xa7, k);
    KernelKeysOf(key);
  }

  /** For the keys that the kernel expands as the standard does, it decrypts what the standard encrypts. */
  lemma DecryptsStandard(key: Block, iv: Block, pt: seq<bv8>)
    requires |pt| % 16 == 0 && Avoids(StandardKeys(key), 0xa7)
    ensures var ct := CbcEncrypt(EncryptWith(StandardKeys(key)), Xor, iv, pt);
      CbcDecrypt(DecryptWith(KernelKeys(key)), Xor, iv, ct) == pt
  {
    hide *;
    StandardKeysExactly(key);
    CbcRoundTripAes(KernelKeys(key), iv, pt);
  }

  lemma KernelKeysOf(key: Block)
    ensures KernelKeys(key) == Expansion(KeySbox, Xor, Rcon, key)
  {
    hide Expansion;
  }

  // The key schedule, byte by byte

  lemma RconIs(r: nat)
    requires 1 <= r <= 10
    ensures Rcon(r) == [0x01, 0x02, 0x04, 0x08, 0x10, 0x20, 0x40, 0x80, 0x1b, 0x36][r - 1]
  {
    assert Rcon(1) == 0x01 && Rcon(2) == 0x02 && Rcon(3) == 0x04 && Rcon(4) == 0x08;
    assert Rcon(5) == 0x10 && Rcon(6) == 0x20 && Rcon(7) == 0x40 && Rcon(8) == 0x80;
    assert Rcon(9) == 0x1b && Rcon(10) == 0x36;
  }

  lemma XorIs(a: bv8, b: bv8)
    ensures Xor(a, b) == a ^ b
  {
  }

  /**
   The expanded key over any table, in its own bytes: the key itself, then each round key from
   the one before.
   */
  lemma KeyBytes(table: Op1, key: Block, r: nat, c: nat, j: nat)
    requires 1 <= r <= 10 && 1 <= c < 4 && j < 4
    ensures var e, at := Expansion(table, Xor, Rcon, key), 16 * r + 4 * c + j;
      && e[..16] == key
      && e[16 * r] == e[16 * r - 16]
           ^ (table(e[16 * r - 3]) ^ [0x01, 0x02, 0x04, 0x08, 0x10, 0x20, 0x40, 0x80, 0x1b, 0x36][r - 1])
      && e[16 * r + 1] == e[16 * r - 15] ^ table(e[16 * r - 2])
      && e[16 * r + 2] == e[16 * r - 14] ^ table(e[16 * r - 1])
      && e[16 * r + 3] == e[16 * r - 13] ^ table(e[16 * r - 4])
      && e[at] == e[at - 16] ^ e[at - 4]
  {
    hide *;
    FirstWords(table, Xor, Rcon, key);
    var e, at := Expansion(table, Xor, Rcon, key), 16 * r + 4 * c + j;
    FirstWordBytes(table, Xor, Rcon, key, r);
    LaterWordBytes(table, Xor, Rcon, key, r, c, j);
    RconIs(r);
    XorIs(table(e[16 * r - 3]), Rcon(r));
    XorIs(e[16 * r - 16], Xor(table(e[16 * r - 3]), Rcon(r)));
    XorIs(e[16 * r - 15], table(e[16 * r - 2]));
    XorIs(e[16 * r - 14], table(e[16 * r - 1]));
    XorIs(e[16 * r - 13], table(e[16 * r - 4]));
    XorIs(e[at - 16], e[at - 4]);
  }

  /** The round keys that the kernel makes with its own table. */
  lemma KernelKeyBytes(key: Block, r: nat, c: nat, j: nat)
    requires 1 <= r <= 10 && 1 <= c < 4 && j < 4
    ensures var e, at := KernelKeys(key), 16 * r + 4 * c + j;
      && e[..16] == key
      && e[16 * r] == e[16 * r - 16]
           ^ (KeySbox(e[16 * r - 3]) ^ [0x01, 0x02, 0x04, 0x08, 0x10, 0x20, 0x40, 0x80, 0x1b, 0x36][r - 1])
      && e[16 * r + 1] == e[16 * r - 15] ^ KeySbox(e[16 * r - 2])
      && e[16 * r + 2] == e[16 * r - 14] ^ KeySbox(e[16 * r - 1])
      && e[16 * r + 3] == e[16 * r - 13] ^ KeySbox(e[16 * r - 4])
      && e[at] == e[at - 16] ^ e[at - 4]
  {
    hide *;
    KernelKeysOf(key);
    KeyBytes(KeySbox, key, r, c, j);
  }
}
