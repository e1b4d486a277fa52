/**
 Worked examples: the key expansion of FIPS 197, appendix A.1, and the first block of the CBC
 example of NIST SP 800-38A, sections F.2.1 and F.2.2, which is under the same key. The values
 on the way are given, and every step from one to the next is proved.
 */
module AesExamples {
  import opened Gf256
  import opened AesTables
  import opened Blocks
  import opened KeySchedule
  import opened Cbc
  import opened Aes

  // The key expansion

  const K_0: Block := [0x2b, 0x7e, 0x15, 0x16, 0x28, 0xae, 0xd2, 0xa6, 0xab, 0xf7, 0x15, 0x88, 0x09, 0xcf, 0x4f, 0x3c]
  const K_1: Block := [0xa0, 0xfa, 0xfe, 0x17, 0x88, 0x54, 0x2c, 0xb1, 0x23, 0xa3, 0x39, 0x39, 0x2a, 0x6c, 0x76, 0x05]
  const K_2: Block := [0xf2, 0xc2, 0x95, 0xf2, 0x7a, 0x96, 0xb9, 0x43, 0x59, 0x35, 0x80, 0x7a, 0x73, 0x59, 0xf6, 0x7f]
  const K_3: Block := [0x3d, 0x80, 0x47, 0x7d, 0x47, 0x16, 0xfe, 0x3e, 0x1e, 0x23, 0x7e, 0x44, 0x6d, 0x7a, 0x88, 0x3b]
  const K_4: Block := [0xef, 0x44, 0xa5, 0x41, 0xa8, 0x52, 0x5b, 0x7f, 0xb6, 0x71, 0x25, 0x3b, 0xdb, 0x0b, 0xad, 0x00]
  const K_5: Block := [0xd4, 0xd1, 0xc6, 0xf8, 0x7c, 0x83, 0x9d, 0x87, 0xca, 0xf2, 0xb8, 0xbc, 0x11, 0xf9, 0x15, 0xbc]
  const K_6: Block := [0x6d, 0x88, 0xa3, 0x7a, 0x11, 0x0b, 0x3e, 0xfd, 0xdb, 0xf9, 0x86, 0x41, 0xca, 0x00, 0x93, 0xfd]
  const K_7: Block := [0x4e, 0x54, 0xf7, 0x0e, 0x5f, 0x5f, 0xc9, 0xf3, 0x84, 0xa6, 0x4f, 0xb2, 0x4e, 0xa6, 0xdc, 0x4f]
  const K_8: Block := [0xea, 0xd2, 0x73, 0x21, 0xb5, 0x8d, 0xba, 0xd2, 0x31, 0x2b, 0xf5, 0x60, 0x7f, 0x8d, 0x29, 0x2f]
  const K_9: Block := [0xac, 0x77, 0x66, 0xf3, 0x19, 0xfa, 0xdc, 0x21, 0x28, 0xd1, 0x29, 0x41, 0x57, 0x5c, 0x00, 0x6e]
  const K_10: Block := [0xd0, 0x14, 0xf9, 0xa8, 0xc9, 0xee, 0x25, 0x89, 0xe1, 0x3f, 0x0c, 0xc8, 0xb6, 0x63, 0x0c, 0xa6]

  lemma KeyBytes1()
    ensures Sbox(0xcf) == 0x8a && Sbox(0x4f) == 0x84 && Sbox(0x3c) == 0xeb && Sbox(0x09) == 0x01
  {
  }

  lemma Key1()
    ensures NextKey(Sbox, Xor, 0x01, K_0, K_1)
  {
    KeyBytes1();
    hide Sbox;
  }

  lemma KeyBytes2()
    ensures Sbox(0x6c) == 0x50 && Sbox(0x76) == 0x38 && Sbox(0x05) == 0x6b && Sbox(0x2a) == 0xe5
  {
  }

  lemma Key2()
    ensures NextKey(Sbox, Xor, 0x02, K_1, K_2)
  {
    KeyBytes2();
    hide Sbox;
  }

  lemma KeyBytes3()
    ensures Sbox(0x59) == 0xcb && Sbox(0xf6) == 0x42 && Sbox(0x7f) == 0xd2 && Sbox(0x73) == 0x8f
  {
  }

  lemma Key3()
    ensures NextKey(Sbox, Xor, 0x04, K_2, K_3)
  {
    KeyBytes3();
    hide Sbox;
  }

  lemma KeyBytes4()
    ensures Sbox(0x7a) == 0xda && Sbox(0x88) == 0xc4 && Sbox(0x3b) == 0xe2 && Sbox(0x6d) == 0x3c
  {
  }

  lemma Key4()
    ensures NextKey(Sbox, Xor, 0x08, K_3, K_4)
  {
    KeyBytes4();
    hide Sbox;
  }

  lemma KeyBytes5()
    ensures Sbox(0x0b) == 0x2b && Sbox(0xad) == 0x95 && Sbox(0x00) == 0x63 && Sbox(0xdb) == 0xb9
  {
  }

  lemma Key5()
    ensures NextKey(Sbox, Xor, 0x10, K_4, K_5)
  {
    KeyBytes5();
    hide Sbox;
  }

  lemma KeyBytes6()
    ensures Sbox(0xf9) == 0x99 && Sbox(0x15) == 0x59 && Sbox(0xbc) == 0x65 && Sbox(0x11) == 0x82
  {
  }

  lemma Key6()
    ensures NextKey(Sbox, Xor, 0x20, K_5, K_6)
  {
    KeyBytes6();
    hide Sbox;
  }

  lemma KeyBytes7()
    ensures Sbox(0x00) == 0x63 && Sbox(0x93) == 0xdc && Sbox(0xfd) == 0x54 && Sbox(0xca) == 0x74
  {
  }

  lemma Key7()
    ensures NextKey(Sbox, Xor, 0x40, K_6, K_7)
  {
    KeyBytes7();
    hide Sbox;
  }

  lemma KeyBytes8()
    ensures Sbox(0xa6) == 0x24 && Sbox(0xdc) == 0x86 && Sbox(0x4f) == 0x84 && Sbox(0x4e) == 0x2f
  {
  }

  lemma Key8()
    ensures NextKey(Sbox, Xor, 0x80, K_7, K_8)
  {
    KeyBytes8();
    hide Sbox;
  }

  lemma KeyBytes9()
    ensures Sbox(0x8d) == 0x5d && Sbox(0x29) == 0xa5 && Sbox(0x2f) == 0x15 && Sbox(0x7f) == 0xd2
  {
  }

  lemma Key9()
    ensures NextKey(Sbox, Xor, 0x1b, K_8, K_9)
  {
    KeyBytes9();
    hide Sbox;
  }

  lemma KeyBytes10()
    ensures Sbox(0x5c) == 0x4a && Sbox(0x00) == 0x63 && Sbox(0x6e) == 0x9f && Sbox(0x57) == 0x5b
  {
  }

  lemma Key10()
    ensures NextKey(Sbox, Xor, 0x36, K_9, K_10)
  {
    KeyBytes10();
    hide Sbox;
  }

  /** One step along the key expansion. */
  lemma NextKeyIs(r: nat, p: Block, n: Block)
    requires 1 <= r <= 10 && RoundKey(StandardKeys(K_0), r - 1) == p && NextKey(Sbox, Xor, Rcon(r), p, n)
    ensures RoundKey(StandardKeys(K_0), r) == n
  {
    KeyFollows(Sbox, Xor, Rcon, K_0, r);
    hide Sbox, Xor, Rcon, Expansion, NextKey, RoundKey;
    OneNext(Sbox, Xor, Rcon(r), p, n, RoundKey(StandardKeys(K_0), r));
  }

  lemma ExampleKeys()
    ensures RoundKey(StandardKeys(K_0), 0) == K_0
    ensures RoundKey(StandardKeys(K_0), 1) == K_1
    ensures RoundKey(StandardKeys(K_0), 2) == K_2
    ensures RoundKey(StandardKeys(K_0), 3) == K_3
    ensures RoundKey(StandardKeys(K_0), 4) == K_4
    ensures RoundKey(StandardKeys(K_0), 5) == K_5
    ensures RoundKey(StandardKeys(K_0), 6) == K_6
    ensures RoundKey(StandardKeys(K_0), 7) == K_7
    ensures RoundKey(StandardKeys(K_0), 8) == K_8
    ensures RoundKey(StandardKeys(K_0), 9) == K_9
    ensures RoundKey(StandardKeys(K_0), 10) == K_10
  {
    StartKey(Sbox, Xor, Rcon, K_0);
    StandardKeysOf(K_0);
    hide Sbox, Xor, Rcon, StandardKeys, NextKey, RoundKey;
    RconIs(1); Key1(); NextKeyIs(1, K_0, K_1);
    RconIs(2); Key2(); NextKeyIs(2, K_1, K_2);
    RconIs(3); Key3(); NextKeyIs(3, K_2, K_3);
    RconIs(4); Key4(); NextKeyIs(4, K_3, K_4);
    RconIs(5); Key5(); NextKeyIs(5, K_4, K_5);
    RconIs(6); Key6(); NextKeyIs(6, K_5, K_6);
    RconIs(7); Key7(); NextKeyIs(7, K_6, K_7);
    RconIs(8); Key8(); NextKeyIs(8, K_7, K_8);
    RconIs(9); Key9(); NextKeyIs(9, K_8, K_9);
    RconIs(10); Key10(); NextKeyIs(10, K_9, K_10);
  }

  lemma StandardKeysOf(key: Block)
    ensures StandardKeys(key) == Expansion(Sbox, Xor, Rcon, key)
  {
    hide Expansion;
  }

  /** FIPS 197, appendix A.1: the first and the last round key, and that no 0xa7 is looked up. */
  lemma ExpandedExample()
    ensures var e := StandardKeys([0x2b, 0x7e, 0x15, 0x16, 0x28, 0xae, 0xd2, 0xa6,
                                   0xab, 0xf7, 0x15, 0x88, 0x09, 0xcf, 0x4f, 0x3c]);
      && e[16..32] == [0xa0, 0xfa, 0xfe, 0x17, 0x88, 0x54, 0x2c, 0xb1, 0x23, 0xa3, 0x39, 0x39, 0x2a, 0x6c, 0x76, 0x05]
      && e[160..176] == [0xd0, 0x14, 0xf9, 0xa8, 0xc9, 0xee, 0x25, 0x89, 0xe1, 0x3f, 0x0c, 0xc8, 0xb6, 0x63, 0x0c, 0xa6]
      && Avoids(e, 0xa7)
  {
    ExampleKeys();
    var e := StandardKeys(K_0);
    hide StandardKeys;
    hide Avoids;
    NoneLookedUp(e);
  }

  lemma NoneLookedUp(e: RoundKeys)
    requires RoundKey(e, 0) == K_0
    requires RoundKey(e, 1) == K_1
    requires RoundKey(e, 2) == K_2
    requires RoundKey(e, 3) == K_3
    requires RoundKey(e, 4) == K_4
    requires RoundKey(e, 5) == K_5
    requires RoundKey(e, 6) == K_6
    requires RoundKey(e, 7) == K_7
    requires RoundKey(e, 8) == K_8
    requires RoundKey(e, 9) == K_9
    ensures Avoids(e, 0xa7)
  {
    hide RoundKey;
    LastWord(e, 0, K_0);
    LastWord(e, 1, K_1);
    LastWord(e, 2, K_2);
    LastWord(e, 3, K_3);
    LastWord(e, 4, K_4);
    LastWord(e, 5, K_5);
    LastWord(e, 6, K_6);
    LastWord(e, 7, K_7);
    LastWord(e, 8, K_8);
    LastWord(e, 9, K_9);
  }

  lemma LastWord(e: RoundKeys, r: nat, k: Block)
    requires r <= 10 && RoundKey(e, r) == k && k[12] != 0xa7 && k[13] != 0xa7 && k[14] != 0xa7 && k[15] != 0xa7
    ensures 0xa7 !in e[16 * r + 12..16 * r + 16]
  {
    WordBytes(e, 16 * r + 12);
    InKey(e, r, 12); InKey(e, r, 13); InKey(e, r, 14); InKey(e, r, 15);
  }

  // One block

  const S_0: Block := [0x40, 0xbe, 0xa9, 0xf7, 0x02, 0xeb, 0x4b, 0x37, 0x4a, 0xc3, 0x61, 0x92, 0x76, 0x51, 0x56, 0x19]
  const T_1: Block := [0x09, 0xe9, 0xef, 0xd4, 0x77, 0x2e, 0xb1, 0x68, 0xd6, 0xd1, 0xd3, 0x9a, 0x38, 0xae, 0xb3, 0x4f]
  const S_1: Block := [0xa9, 0xc4, 0xbc, 0xb9, 0xcd, 0xdf, 0xb4, 0x67, 0xb5, 0x38, 0x36, 0x75, 0x4f, 0x92, 0x4c, 0xce]
  const T_2: Block := [0xd3, 0x9e, 0x05, 0x8b, 0xbd, 0x07, 0x29, 0x56, 0xd5, 0x4f, 0x65, 0x85, 0x84, 0x1c, 0x8d, 0x9d]
  const S_2: Block := [0x78, 0xb2, 0x54, 0x0a, 0x6d, 0x08, 0xab, 0x1d, 0xd9, 0x54, 0x44, 0x25, 0x54, 0xf4, 0xd3, 0x58]
  const T_3: Block := [0xbc, 0x30, 0x1b, 0x6a, 0x3c, 0x20, 0x66, 0x67, 0x35, 0xbf, 0x20, 0xa4, 0x20, 0x37, 0x62, 0x3f]
  const S_3: Block := [0x7f, 0x1b, 0x43, 0x5d, 0x5e, 0xa7, 0x87, 0xf2, 0x2a, 0xb7, 0x43, 0xd7, 0x29, 0xad, 0x1a, 0x70]
  const T_4: Block := [0xd2, 0x5c, 0x1a, 0x51, 0x58, 0xa9, 0xa2, 0x4c, 0xe5, 0x95, 0x1a, 0x89, 0xa5, 0xaf, 0x17, 0x0e]
  const S_4: Block := [0xff, 0x51, 0xec, 0xc8, 0x16, 0xf2, 0x21, 0x04, 0x50, 0x02, 0xe1, 0x89, 0x79, 0xdc, 0x9b, 0x50]
  const T_5: Block := [0x16, 0x89, 0xf8, 0x53, 0x47, 0x77, 0x14, 0xe8, 0x53, 0x86, 0xce, 0xf2, 0xb6, 0xd1, 0xfd, 0xa7]
  const S_5: Block := [0xd3, 0x8e, 0x47, 0x15, 0x97, 0xfe, 0xa6, 0xe6, 0xc1, 0x0d, 0xe7, 0xfe, 0x54, 0x4d, 0x61, 0x04]
  const T_6: Block := [0x66, 0xbb, 0x94, 0xf2, 0x88, 0xd7, 0xef, 0x59, 0x78, 0xe3, 0xa0, 0x8e, 0x20, 0x19, 0x24, 0xbb]
  const S_6: Block := [0x11, 0xd6, 0x40, 0x00, 0xce, 0x45, 0x4f, 0xf4, 0x3b, 0x29, 0xcf, 0x8d, 0x3e, 0xc5, 0x34, 0xcd]
  const T_7: Block := [0x82, 0x6e, 0x8a, 0xbd, 0x8b, 0xa5, 0x18, 0x63, 0xe2, 0xa6, 0x09, 0xbf, 0xb2, 0xf6, 0x84, 0x5d]
  const S_7: Block := [0xd4, 0x32, 0xc8, 0x16, 0xdd, 0xce, 0x72, 0x0e, 0x1c, 0xb7, 0xc3, 0x45, 0xe9, 0x29, 0x6c, 0x4a]
  const T_8: Block := [0x48, 0x8b, 0x2e, 0xd6, 0xc1, 0xa9, 0x50, 0x47, 0x9c, 0xa5, 0xe8, 0xab, 0x1e, 0x23, 0x40, 0x6e]
  const S_8: Block := [0x04, 0x33, 0x8d, 0xeb, 0xdb, 0xb2, 0xbb, 0xfd, 0xa5, 0x6e, 0xe1, 0xdf, 0x08, 0x7b, 0x26, 0xb2]
  const T_9: Block := [0xf2, 0x37, 0xf8, 0x37, 0xb9, 0x9f, 0xf7, 0xe9, 0x06, 0x21, 0x5d, 0x54, 0x30, 0xc3, 0xea, 0x9e]
  const S_9: Block := [0xc5, 0xcf, 0x11, 0x5f, 0xd4, 0x8d, 0x2f, 0x50, 0x4e, 0x26, 0x48, 0x9f, 0x1d, 0x4a, 0x85, 0x30]
  const T_10: Block := [0xa6, 0x5d, 0x52, 0x04, 0x48, 0xf7, 0x97, 0xcf, 0x2f, 0xd6, 0x82, 0x53, 0xa4, 0x8a, 0x15, 0xdb]

  /** A byte of MixColumns with the round key added. */
  function MixedByte(a: bv8, b: bv8, c: bv8, d: bv8, k: bv8): bv8 {
    Xtime(a) ^ (b ^ Xtime(b)) ^ (c ^ d) ^ k
  }

  lemma MixedByteIs(a: bv8, b: bv8, c: bv8, d: bv8, k: bv8)
    ensures Xor(MixByte(a, b, c, d), k) == MixedByte(a, b, c, d, k)
  {
    MixByteIs(a, b, c, d);
    hide MixByte, Xtime;
  }

  lemma MixByteIs(a: bv8, b: bv8, c: bv8, d: bv8)
    ensures MixByte(a, b, c, d) == Xtime(a) ^ (b ^ Xtime(b)) ^ (c ^ d)
  {
    hide *;
    MixByteOf(a, b, c, d);
    ConstantTimes(a, Xtime(a), Xtime(Xtime(a)), Xtime(Xtime(Xtime(a))));
    ConstantTimes(b, Xtime(b), Xtime(Xtime(b)), Xtime(Xtime(Xtime(b))));
    TimesOne(c);
    TimesOne(d);
    XorIs(b, Xtime(b));
    XorOfFour(Xtime(a), Xor(b, Xtime(b)), c, d);
  }

  lemma MixByteOf(a: bv8, b: bv8, c: bv8, d: bv8)
    ensures MixByte(a, b, c, d) == Xor(Xor(Times(a, 0x02), Times(b, 0x03)), Xor(Times(c, 0x01), Times(d, 0x01)))
  {
    hide Times, Xor;
  }

  /** The four bytes of a column. */
  lemma ColumnIs(a: bv8, b: bv8, c: bv8, d: bv8, k0: bv8, k1: bv8, k2: bv8, k3: bv8)
    ensures Xor(MixByte(a, b, c, d), k0) == MixedByte(a, b, c, d, k0)
    ensures Xor(MixByte(b, c, d, a), k1) == MixedByte(b, c, d, a, k1)
    ensures Xor(MixByte(c, d, a, b), k2) == MixedByte(c, d, a, b, k2)
    ensures Xor(MixByte(d, a, b, c), k3) == MixedByte(d, a, b, c, k3)
  {
    hide *;
    MixedByteIs(a, b, c, d, k0); MixedByteIs(b, c, d, a, k1);
    MixedByteIs(c, d, a, b, k2); MixedByteIs(d, a, b, c, k3);
  }

  lemma SubBytes1()
    ensures Sbox(0x40) == 0x09 && Sbox(0xeb) == 0xe9 && Sbox(0x61) == 0xef && Sbox(0x19) == 0xd4
    ensures Sbox(0x02) == 0x77 && Sbox(0xc3) == 0x2e && Sbox(0x56) == 0xb1 && Sbox(0xf7) == 0x68
    ensures Sbox(0x4a) == 0xd6 && Sbox(0x51) == 0xd1 && Sbox(0xa9) == 0xd3 && Sbox(0x37) == 0x9a
    ensures Sbox(0x76) == 0x38 && Sbox(0xbe) == 0xae && Sbox(0x4b) == 0xb3 && Sbox(0x92) == 0x4f
  {
  }

  lemma MixedBytes1()
    ensures MixedByte(0x09, 0xe9, 0xef, 0xd4, 0xa0) == 0xa9 && MixedByte(0xe9, 0xef, 0xd4, 0x09, 0xfa) == 0xc4
    ensures MixedByte(0xef, 0xd4, 0x09, 0xe9, 0xfe) == 0xbc && MixedByte(0xd4, 0x09, 0xe9, 0xef, 0x17) == 0xb9
    ensures MixedByte(0x77, 0x2e, 0xb1, 0x68, 0x88) == 0xcd && MixedByte(0x2e, 0xb1, 0x68, 0x77, 0x54) == 0xdf
    ensures MixedByte(0xb1, 0x68, 0x77, 0x2e, 0x2c) == 0xb4 && MixedByte(0x68, 0x77, 0x2e, 0xb1, 0xb1) == 0x67
    ensures MixedByte(0xd6, 0xd1, 0xd3, 0x9a, 0x23) == 0xb5 && MixedByte(0xd1, 0xd3, 0x9a, 0xd6, 0xa3) == 0x38
    ensures MixedByte(0xd3, 0x9a, 0xd6, 0xd1, 0x39) == 0x36 && MixedByte(0x9a, 0xd6, 0xd1, 0xd3, 0x39) == 0x75
    ensures MixedByte(0x38, 0xae, 0xb3, 0x4f, 0x2a) == 0x4f && MixedByte(0xae, 0xb3, 0x4f, 0x38, 0x6c) == 0x92
    ensures MixedByte(0xb3, 0x4f, 0x38, 0xae, 0x76) == 0x4c && MixedByte(0x4f, 0x38, 0xae, 0xb3, 0x05) == 0xce
  {
  }

  lemma Round1()
    ensures Shifted(Sbox, S_0, T_1) && Mixed(MixByte, Xor, T_1, K_1, S_1)
  {
    SubBytes1();
    MixedBytes1();
    hide Sbox, MixByte, MixedByte, Xor;
    ColumnIs(0x09, 0xe9, 0xef, 0xd4, 0xa0, 0xfa, 0xfe, 0x17);
    ColumnIs(0x77, 0x2e, 0xb1, 0x68, 0x88, 0x54, 0x2c, 0xb1);
    ColumnIs(0xd6, 0xd1, 0xd3, 0x9a, 0x23, 0xa3, 0x39, 0x39);
    ColumnIs(0x38, 0xae, 0xb3, 0x4f, 0x2a, 0x6c, 0x76, 0x05);
  }

  lemma SubBytes2()
    ensures Sbox(0xa9) == 0xd3 && Sbox(0xdf) == 0x9e && Sbox(0x36) == 0x05 && Sbox(0xce) == 0x8b
    ensures Sbox(0xcd) == 0xbd && Sbox(0x38) == 0x07 && Sbox(0x4c) == 0x29 && Sbox(0xb9) == 0x56
    ensures Sbox(0xb5) == 0xd5 && Sbox(0x92) == 0x4f && Sbox(0xbc) == 0x65 && Sbox(0x67) == 0x85
    ensures Sbox(0x4f) == 0x84 && Sbox(0xc4) == 0x1c && Sbox(0xb4) == 0x8d && Sbox(0x75) == 0x9d
  {
  }

  lemma MixedBytes2()
    ensures MixedByte(0xd3, 0x9e, 0x05, 0x8b, 0xf2) == 0x78 && MixedByte(0x9e, 0x05, 0x8b, 0xd3, 0xc2) == 0xb2
    ensures MixedByte(0x05, 0x8b, 0xd3, 0x9e, 0x95) == 0x54 && MixedByte(0x8b, 0xd3, 0x9e, 0x05, 0xf2) == 0x0a
    ensures MixedByte(0xbd, 0x07, 0x29, 0x56, 0x7a) == 0x6d && MixedByte(0x07, 0x29, 0x56, 0xbd, 0x96) == 0x08
    ensures MixedByte(0x29, 0x56, 0xbd, 0x07, 0xb9) == 0xab && MixedByte(0x56, 0xbd, 0x07, 0x29, 0x43) == 0x1d
    ensures MixedByte(0xd5, 0x4f, 0x65, 0x85, 0x59) == 0xd9 && MixedByte(0x4f, 0x65, 0x85, 0xd5, 0x35) == 0x54
    ensures MixedByte(0x65, 0x85, 0xd5, 0x4f, 0x80) == 0x44 && MixedByte(0x85, 0xd5, 0x4f, 0x65, 0x7a) == 0x25
    ensures MixedByte(0x84, 0x1c, 0x8d, 0x9d, 0x73) == 0x54 && MixedByte(0x1c, 0x8d, 0x9d, 0x84, 0x59) == 0xf4
    ensures MixedByte(0x8d, 0x9d, 0x84, 0x1c, 0xf6) == 0xd3 && MixedByte(0x9d, 0x84, 0x1c, 0x8d, 0x7f) == 0x58
  {
  }

  lemma Round2()
    ensures Shifted(Sbox, S_1, T_2) && Mixed(MixByte, Xor, T_2, K_2, S_2)
  {
    SubBytes2();
    MixedBytes2();
    hide Sbox, MixByte, MixedByte, Xor;
    ColumnIs(0xd3, 0x9e, 0x05, 0x8b, 0xf2, 0xc2, 0x95, 0xf2);
    ColumnIs(0xbd, 0x07, 0x29, 0x56, 0x7a, 0x96, 0xb9, 0x43);
    ColumnIs(0xd5, 0x4f, 0x65, 0x85, 0x59, 0x35, 0x80, 0x7a);
    ColumnIs(0x84, 0x1c, 0x8d, 0x9d, 0x73, 0x59, 0xf6, 0x7f);
  }

  lemma SubBytes3()
    ensures Sbox(0x78) == 0xbc && Sbox(0x08) == 0x30 && Sbox(0x44) == 0x1b && Sbox(0x58) == 0x6a
    ensures Sbox(0x6d) == 0x3c && Sbox(0x54) == 0x20 && Sbox(0xd3) == 0x66 && Sbox(0x0a) == 0x67
    ensures Sbox(0xd9) == 0x35 && Sbox(0xf4) == 0xbf && Sbox(0x54) == 0x20 && Sbox(0x1d) == 0xa4
    ensures Sbox(0x54) == 0x20 && Sbox(0xb2) == 0x37 && Sbox(0xab) == 0x62 && Sbox(0x25) == 0x3f
  {
  }

  lemma MixedBytes3()
    ensures MixedByte(0xbc, 0x30, 0x1b, 0x6a, 0x3d) == 0x7f && MixedByte(0x30, 0x1b, 0x6a, 0xbc, 0x80) == 0x1b
    ensures MixedByte(0x1b, 0x6a, 0xbc, 0x30, 0x47) == 0x43 && MixedByte(0x6a, 0xbc, 0x30, 0x1b, 0x7d) == 0x5d
    ensures MixedByte(0x3c, 0x20, 0x66, 0x67, 0x47) == 0x5e && MixedByte(0x20, 0x66, 0x67, 0x3c, 0x16) == 0xa7
    ensures MixedByte(0x66, 0x67, 0x3c, 0x20, 0xfe) == 0x87 && MixedByte(0x67, 0x3c, 0x20, 0x66, 0x3e) == 0xf2
    ensures MixedByte(0x35, 0xbf, 0x20, 0xa4, 0x1e) == 0x2a && MixedByte(0xbf, 0x20, 0xa4, 0x35, 0x23) == 0xb7
    ensures MixedByte(0x20, 0xa4, 0x35, 0xbf, 0x7e) == 0x43 && MixedByte(0xa4, 0x35, 0xbf, 0x20, 0x44) == 0xd7
    ensures MixedByte(0x20, 0x37, 0x62, 0x3f, 0x6d) == 0x29 && MixedByte(0x37, 0x62, 0x3f, 0x20, 0x7a) == 0xad
    ensures MixedByte(0x62, 0x3f, 0x20, 0x37, 0x88) == 0x1a && MixedByte(0x3f, 0x20, 0x37, 0x62, 0x3b) == 0x70
  {
  }

  lemma Round3()
    ensures Shifted(Sbox, S_2, T_3) && Mixed(MixByte, Xor, T_3, K_3, S_3)
  {
    SubBytes3();
    MixedBytes3();
    hide Sbox, MixByte, MixedByte, Xor;
    ColumnIs(0xbc, 0x30, 0x1b, 0x6a, 0x3d, 0x80, 0x47, 0x7d);
    ColumnIs(0x3c, 0x20, 0x66, 0x67, 0x47, 0x16, 0xfe, 0x3e);
    ColumnIs(0x35, 0xbf, 0x20, 0xa4, 0x1e, 0x23, 0x7e, 0x44);
    ColumnIs(0x20, 0x37, 0x62, 0x3f, 0x6d, 0x7a, 0x88, 0x3b);
  }

  lemma SubBytes4()
    ensures Sbox(0x7f) == 0xd2 && Sbox(0xa7) == 0x5c && Sbox(0x43) == 0x1a && Sbox(0x70) == 0x51
    ensures Sbox(0x5e) == 0x58 && Sbox(0xb7) == 0xa9 && Sbox(0x1a) == 0xa2 && Sbox(0x5d) == 0x4c
    ensures Sbox(0x2a) == 0xe5 && Sbox(0xad) == 0x95 && Sbox(0x43) == 0x1a && Sbox(0xf2) == 0x89
    ensures Sbox(0x29) == 0xa5 && Sbox(0x1b) == 0xaf && Sbox(0x87) == 0x17 && Sbox(0xd7) == 0x0e
  {
  }

  lemma MixedBytes4()
    ensures MixedByte(0xd2, 0x5c, 0x1a, 0x51, 0xef) == 0xff && MixedByte(0x5c, 0x1a, 0x51, 0xd2, 0x44) == 0x51
    ensures MixedByte(0x1a, 0x51, 0xd2, 0x5c, 0xa5) == 0xec && MixedByte(0x51, 0xd2, 0x5c, 0x1a, 0x41) == 0xc8
    ensures MixedByte(0x58, 0xa9, 0xa2, 0x4c, 0xa8) == 0x16 && MixedByte(0xa9, 0xa2, 0x4c, 0x58, 0x52) == 0xf2
    ensures MixedByte(0xa2, 0x4c, 0x58, 0xa9, 0x5b) == 0x21 && MixedByte(0x4c, 0x58, 0xa9, 0xa2, 0x7f) == 0x04
    ensures MixedByte(0xe5, 0x95, 0x1a, 0x89, 0xb6) == 0x50 && MixedByte(0x95, 0x1a, 0x89, 0xe5, 0x71) == 0x02
    ensures MixedByte(0x1a, 0x89, 0xe5, 0x95, 0x25) == 0xe1 && MixedByte(0x89, 0xe5, 0x95, 0x1a, 0x3b) == 0x89
    ensures MixedByte(0xa5, 0xaf, 0x17, 0x0e, 0xdb) == 0x79 && MixedByte(0xaf, 0x17, 0x0e, 0xa5, 0x0b) == 0xdc
    ensures MixedByte(0x17, 0x0e, 0xa5, 0xaf, 0xad) == 0x9b && MixedByte(0x0e, 0xa5, 0xaf, 0x17, 0x00) == 0x50
  {
  }

  lemma Round4()
    ensures Shifted(Sbox, S_3, T_4) && Mixed(MixByte, Xor, T_4, K_4, S_4)
  {
    SubBytes4();
    MixedBytes4();
    hide Sbox, MixByte, MixedByte, Xor;
    ColumnIs(0xd2, 0x5c, 0x1a, 0x51, 0xef, 0x44, 0xa5, 0x41);
    ColumnIs(0x58, 0xa9, 0xa2, 0x4c, 0xa8, 0x52, 0x5b, 0x7f);
    ColumnIs(0xe5, 0x95, 0x1a, 0x89, 0xb6, 0x71, 0x25, 0x3b);
    ColumnIs(0xa5, 0xaf, 0x17, 0x0e, 0xdb, 0x0b, 0xad, 0x00);
  }

  lemma SubBytes5()
    ensures Sbox(0xff) == 0x16 && Sbox(0xf2) == 0x89 && Sbox(0xe1) == 0xf8 && Sbox(0x50) == 0x53
    ensures Sbox(0x16) == 0x47 && Sbox(0x02) == 0x77 && Sbox(0x9b) == 0x14 && Sbox(0xc8) == 0xe8
    ensures Sbox(0x50) == 0x53 && Sbox(0xdc) == 0x86 && Sbox(0xec) == 0xce && Sbox(0x04) == 0xf2
    ensures Sbox(0x79) == 0xb6 && Sbox(0x51) == 0xd1 && Sbox(0x21) == 0xfd && Sbox(0x89) == 0xa7
  {
  }

  lemma MixedBytes5()
    ensures MixedByte(0x16, 0x89, 0xf8, 0x53, 0xd4) == 0xd3 && MixedByte(0x89, 0xf8, 0x53, 0x16, 0xd1) == 0x8e
    ensures MixedByte(0xf8, 0x53, 0x16, 0x89, 0xc6) == 0x47 && MixedByte(0x53, 0x16, 0x89, 0xf8, 0xf8) == 0x15
    ensures MixedByte(0x47, 0x77, 0x14, 0xe8, 0x7c) == 0x97 && MixedByte(0x77, 0x14, 0xe8, 0x47, 0x83) == 0xfe
    ensures MixedByte(0x14, 0xe8, 0x47, 0x77, 0x9d) == 0xa6 && MixedByte(0xe8, 0x47, 0x77, 0x14, 0x87) == 0xe6
    ensures MixedByte(0x53, 0x86, 0xce, 0xf2, 0xca) == 0xc1 && MixedByte(0x86, 0xce, 0xf2, 0x53, 0xf2) == 0x0d
    ensures MixedByte(0xce, 0xf2, 0x53, 0x86, 0xb8) == 0xe7 && MixedByte(0xf2, 0x53, 0x86, 0xce, 0xbc) == 0xfe
    ensures MixedByte(0xb6, 0xd1, 0xfd, 0xa7, 0x11) == 0x54 && MixedByte(0xd1, 0xfd, 0xa7, 0xb6, 0xf9) == 0x4d
    ensures MixedByte(0xfd, 0xa7, 0xb6, 0xd1, 0x15) == 0x61 && MixedByte(0xa7, 0xb6, 0xd1, 0xfd, 0xbc) == 0x04
  {
  }

  lemma Round5()
    ensures Shifted(Sbox, S_4, T_5) && Mixed(MixByte, Xor, T_5, K_5, S_5)
  {
    SubBytes5();
    MixedBytes5();
    hide Sbox, MixByte, MixedByte, Xor;
    ColumnIs(0x16, 0x89, 0xf8, 0x53, 0xd4, 0xd1, 0xc6, 0xf8);
    ColumnIs(0x47, 0x77, 0x14, 0xe8, 0x7c, 0x83, 0x9d, 0x87);
    ColumnIs(0x53, 0x86, 0xce, 0xf2, 0xca, 0xf2, 0xb8, 0xbc);
    ColumnIs(0xb6, 0xd1, 0xfd, 0xa7, 0x11, 0xf9, 0x15, 0xbc);
  }

  lemma SubBytes6()
    ensures Sbox(0xd3) == 0x66 && Sbox(0xfe) == 0xbb && Sbox(0xe7) == 0x94 && Sbox(0x04) == 0xf2
    ensures Sbox(0x97) == 0x88 && Sbox(0x0d) == 0xd7 && Sbox(0x61) == 0xef && Sbox(0x15) == 0x59
    ensures Sbox(0xc1) == 0x78 && Sbox(0x4d) == 0xe3 && Sbox(0x47) == 0xa0 && Sbox(0xe6) == 0x8e
    ensures Sbox(0x54) == 0x20 && Sbox(0x8e) == 0x19 && Sbox(0xa6) == 0x24 && Sbox(0xfe) == 0xbb
  {
  }

  lemma MixedBytes6()
    ensures MixedByte(0x66, 0xbb, 0x94, 0xf2, 0x6d) == 0x11 && MixedByte(0xbb, 0x94, 0xf2, 0x66, 0x88) == 0xd6
    ensures MixedByte(0x94, 0xf2, 0x66, 0xbb, 0xa3) == 0x40 && MixedByte(0xf2, 0x66, 0xbb, 0x94, 0x7a) == 0x00
    ensures MixedByte(0x88, 0xd7, 0xef, 0x59, 0x11) == 0xce && MixedByte(0xd7, 0xef, 0x59, 0x88, 0x0b) == 0x45
    ensures MixedByte(0xef, 0x59, 0x88, 0xd7, 0x3e) == 0x4f && MixedByte(0x59, 0x88, 0xd7, 0xef, 0xfd) == 0xf4
    ensures MixedByte(0x78, 0xe3, 0xa0, 0x8e, 0xdb) == 0x3b && MixedByte(0xe3, 0xa0, 0x8e, 0x78, 0xf9) == 0x29
    ensures MixedByte(0xa0, 0x8e, 0x78, 0xe3, 0x86) == 0xcf && MixedByte(0x8e, 0x78, 0xe3, 0xa0, 0x41) == 0x8d
    ensures MixedByte(0x20, 0x19, 0x24, 0xbb, 0xca) == 0x3e && MixedByte(0x19, 0x24, 0xbb, 0x20, 0x00) == 0xc5
    ensures MixedByte(0x24, 0xbb, 0x20, 0x19, 0x93) == 0x34 && MixedByte(0xbb, 0x20, 0x19, 0x24, 0xfd) == 0xcd
  {
  }

  lemma Round6()
    ensures Shifted(Sbox, S_5, T_6) && Mixed(MixByte, Xor, T_6, K_6, S_6)
  {
    SubBytes6();
    MixedBytes6();
    hide Sbox, MixByte, MixedByte, Xor;
    ColumnIs(0x66, 0xbb, 0x94, 0xf2, 0x6d, 0x88, 0xa3, 0x7a);
    ColumnIs(0x88, 0xd7, 0xef, 0x59, 0x11, 0x0b, 0x3e, 0xfd);
    ColumnIs(0x78, 0xe3, 0xa0, 0x8e, 0xdb, 0xf9, 0x86, 0x41);
    ColumnIs(0x20, 0x19, 0x24, 0xbb, 0xca, 0x00, 0x93, 0xfd);
  }

  lemma SubBytes7()
    ensures Sbox(0x11) == 0x82 && Sbox(0x45) == 0x6e && Sbox(0xcf) == 0x8a && Sbox(0xcd) == 0xbd
    ensures Sbox(0xce) == 0x8b && Sbox(0x29) == 0xa5 && Sbox(0x34) == 0x18 && Sbox(0x00) == 0x63
    ensures Sbox(0x3b) == 0xe2 && Sbox(0xc5) == 0xa6 && Sbox(0x40) == 0x09 && Sbox(0xf4) == 0xbf
    ensures Sbox(0x3e) == 0xb2 && Sbox(0xd6) == 0xf6 && Sbox(0x4f) == 0x84 && Sbox(0x8d) == 0x5d
  {
  }

  lemma MixedBytes7()
    ensures MixedByte(0x82, 0x6e, 0x8a, 0xbd, 0x4e) == 0xd4 && MixedByte(0x6e, 0x8a, 0xbd, 0x82, 0x54) == 0x32
    ensures MixedByte(0x8a, 0xbd, 0x82, 0x6e, 0xf7) == 0xc8 && MixedByte(0xbd, 0x82, 0x6e, 0x8a, 0x0e) == 0x16
    ensures MixedByte(0x8b, 0xa5, 0x18, 0x63, 0x5f) == 0xdd && MixedByte(0xa5, 0x18, 0x63, 0x8b, 0x5f) == 0xce
    ensures MixedByte(0x18, 0x63, 0x8b, 0xa5, 0xc9) == 0x72 && MixedByte(0x63, 0x8b, 0xa5, 0x18, 0xf3) == 0x0e
    ensures MixedByte(0xe2, 0xa6, 0x09, 0xbf, 0x84) == 0x1c && MixedByte(0xa6, 0x09, 0xbf, 0xe2, 0xa6) == 0xb7
    ensures MixedByte(0x09, 0xbf, 0xe2, 0xa6, 0x4f) == 0xc3 && MixedByte(0xbf, 0xe2, 0xa6, 0x09, 0xb2) == 0x45
    ensures MixedByte(0xb2, 0xf6, 0x84, 0x5d, 0x4e) == 0xe9 && MixedByte(0xf6, 0x84, 0x5d, 0xb2, 0xa6) == 0x29
    ensures MixedByte(0x84, 0x5d, 0xb2, 0xf6, 0xdc) == 0x6c && MixedByte(0x5d, 0xb2, 0xf6, 0x84, 0x4f) == 0x4a
  {
  }

  lemma Round7()
    ensures Shifted(Sbox, S_6, T_7) && Mixed(MixByte, Xor, T_7, K_7, S_7)
  {
    SubBytes7();
    MixedBytes7();
    hide Sbox, MixByte, MixedByte, Xor;
    ColumnIs(0x82, 0x6e, 0x8a, 0xbd, 0x4e, 0x54, 0xf7, 0x0e);
    ColumnIs(0x8b, 0xa5, 0x18, 0x63, 0x5f, 0x5f, 0xc9, 0xf3);
    ColumnIs(0xe2, 0xa6, 0x09, 0xbf, 0x84, 0xa6, 0x4f, 0xb2);
    ColumnIs(0xb2, 0xf6, 0x84, 0x5d, 0x4e, 0xa6, 0xdc, 0x4f);
  }

  lemma SubBytes8()
    ensures Sbox(0xd4) == 0x48 && Sbox(0xce) == 0x8b && Sbox(0xc3) == 0x2e && Sbox(0x4a) == 0xd6
    ensures Sbox(0xdd) == 0xc1 && Sbox(0xb7) == 0xa9 && Sbox(0x6c) == 0x50 && Sbox(0x16) == 0x47
    ensures Sbox(0x1c) == 0x9c && Sbox(0x29) == 0xa5 && Sbox(0xc8) == 0xe8 && Sbox(0x0e) == 0xab
    ensures Sbox(0xe9) == 0x1e && Sbox(0x32) == 0x23 && Sbox(0x72) == 0x40 && Sbox(0x45) == 0x6e
  {
  }

  lemma MixedBytes8()
    ensures MixedByte(0x48, 0x8b, 0x2e, 0xd6, 0xea) == 0x04 && MixedByte(0x8b, 0x2e, 0xd6, 0x48, 0xd2) == 0x33
    ensures MixedByte(0x2e, 0xd6, 0x48, 0x8b, 0x73) == 0x8d && MixedByte(0xd6, 0x48, 0x8b, 0x2e, 0x21) == 0xeb
    ensures MixedByte(0xc1, 0xa9, 0x50, 0x47, 0xb5) == 0xdb && MixedByte(0xa9, 0x50, 0x47, 0xc1, 0x8d) == 0xb2
    ensures MixedByte(0x50, 0x47, 0xc1, 0xa9, 0xba) == 0xbb && MixedByte(0x47, 0xc1, 0xa9, 0x50, 0xd2) == 0xfd
    ensures MixedByte(0x9c, 0xa5, 0xe8, 0xab, 0x31) == 0xa5 && MixedByte(0xa5, 0xe8, 0xab, 0x9c, 0x2b) == 0x6e
    ensures MixedByte(0xe8, 0xab, 0x9c, 0xa5, 0xf5) == 0xe1 && MixedByte(0xab, 0x9c, 0xa5, 0xe8, 0x60) == 0xdf
    ensures MixedByte(0x1e, 0x23, 0x40, 0x6e, 0x7f) == 0x08 && MixedByte(0x23, 0x40, 0x6e, 0x1e, 0x8d) == 0x7b
    ensures MixedByte(0x40, 0x6e, 0x1e, 0x23, 0x29) == 0x26 && MixedByte(0x6e, 0x1e, 0x23, 0x40, 0x2f) == 0xb2
  {
  }

  lemma Round8()
    ensures Shifted(Sbox, S_7, T_8) && Mixed(MixByte, Xor, T_8, K_8, S_8)
  {
    SubBytes8();
    MixedBytes8();
    hide Sbox, MixByte, MixedByte, Xor;
    ColumnIs(0x48, 0x8b, 0x2e, 0xd6, 0xea, 0xd2, 0x73, 0x21);
    ColumnIs(0xc1, 0xa9, 0x50, 0x47, 0xb5, 0x8d, 0xba, 0xd2);
    ColumnIs(0x9c, 0xa5, 0xe8, 0xab, 0x31, 0x2b, 0xf5, 0x60);
    ColumnIs(0x1e, 0x23, 0x40, 0x6e, 0x7f, 0x8d, 0x29, 0x2f);
  }

  lemma SubBytes9()
    ensures Sbox(0x04) == 0xf2 && Sbox(0xb2) == 0x37 && Sbox(0xe1) == 0xf8 && Sbox(0xb2) == 0x37
    ensures Sbox(0xdb) == 0xb9 && Sbox(0x6e) == 0x9f && Sbox(0x26) == 0xf7 && Sbox(0xeb) == 0xe9
    ensures Sbox(0xa5) == 0x06 && Sbox(0x7b) == 0x21 && Sbox(0x8d) == 0x5d && Sbox(0xfd) == 0x54
    ensures Sbox(0x08) == 0x30 && Sbox(0x33) == 0xc3 && Sbox(0xbb) == 0xea && Sbox(0xdf) == 0x9e
  {
  }

  lemma MixedBytes9()
    ensures MixedByte(0xf2, 0x37, 0xf8, 0x37, 0xac) == 0xc5 && MixedByte(0x37, 0xf8, 0x37, 0xf2, 0x77) == 0xcf
    ensures MixedByte(0xf8, 0x37, 0xf2, 0x37, 0x66) == 0x11 && MixedByte(0x37, 0xf2, 0x37, 0xf8, 0xf3) == 0x5f
    ensures MixedByte(0xb9, 0x9f, 0xf7, 0xe9, 0x19) == 0xd4 && MixedByte(0x9f, 0xf7, 0xe9, 0xb9, 0xfa) == 0x8d
    ensures MixedByte(0xf7, 0xe9, 0xb9, 0x9f, 0xdc) == 0x2f && MixedByte(0xe9, 0xb9, 0x9f, 0xf7, 0x21) == 0x50
    ensures MixedByte(0x06, 0x21, 0x5d, 0x54, 0x28) == 0x4e && MixedByte(0x21, 0x5d, 0x54, 0x06, 0xd1) == 0x26
    ensures MixedByte(0x5d, 0x54, 0x06, 0x21, 0x29) == 0x48 && MixedByte(0x54, 0x06, 0x21, 0x5d, 0x41) == 0x9f
    ensures MixedByte(0x30, 0xc3, 0xea, 0x9e, 0x57) == 0x1d && MixedByte(0xc3, 0xea, 0x9e, 0x30, 0x5c) == 0x4a
    ensures MixedByte(0xea, 0x9e, 0x30, 0xc3, 0x00) == 0x85 && MixedByte(0x9e, 0x30, 0xc3, 0xea, 0x6e) == 0x30
  {
  }

  lemma Round9()
    ensures Shifted(Sbox, S_8, T_9) && Mixed(MixByte, Xor, T_9, K_9, S_9)
  {
    SubBytes9();
    MixedBytes9();
    hide Sbox, MixByte, MixedByte, Xor;
    ColumnIs(0xf2, 0x37, 0xf8, 0x37, 0xac, 0x77, 0x66, 0xf3);
    ColumnIs(0xb9, 0x9f, 0xf7, 0xe9, 0x19, 0xfa, 0xdc, 0x21);
    ColumnIs(0x06, 0x21, 0x5d, 0x54, 0x28, 0xd1, 0x29, 0x41);
    ColumnIs(0x30, 0xc3, 0xea, 0x9e, 0x57, 0x5c, 0x00, 0x6e);
  }

  lemma SubBytes10()
    ensures Sbox(0xc5) == 0xa6 && Sbox(0x8d) == 0x5d && Sbox(0x48) == 0x52 && Sbox(0x30) == 0x04
    ensures Sbox(0xd4) == 0x48 && Sbox(0x26) == 0xf7 && Sbox(0x85) == 0x97 && Sbox(0x5f) == 0xcf
    ensures Sbox(0x4e) == 0x2f && Sbox(0x4a) == 0xd6 && Sbox(0x11) == 0x82 && Sbox(0x50) == 0x53
    ensures Sbox(0x1d) == 0xa4 && Sbox(0xcf) == 0x8a && Sbox(0x2f) == 0x15 && Sbox(0x9f) == 0xdb
  {
  }

  const IV: Block := [0x00, 0x01, 0x02, 0x03, 0x04, 0x05, 0x06, 0x07, 0x08, 0x09, 0x0a, 0x0b, 0x0c, 0x0d, 0x0e, 0x0f]
  const PLAIN: Block := [0x6b, 0xc1, 0xbe, 0xe2, 0x2e, 0x40, 0x9f, 0x96, 0xe9, 0x3d, 0x7e, 0x11, 0x73, 0x93, 0x17, 0x2a]
  const INPUT: Block := [0x6b, 0xc0, 0xbc, 0xe1, 0x2a, 0x45, 0x99, 0x91, 0xe1, 0x34, 0x74, 0x1a, 0x7f, 0x9e, 0x19, 0x25]
  const CT: Block := [0x76, 0x49, 0xab, 0xac, 0x81, 0x19, 0xb2, 0x46, 0xce, 0xe9, 0x8e, 0x9b, 0x12, 0xe9, 0x19, 0x7d]

  lemma FirstSums()
    ensures Xor(0x6b, 0x00) == 0x6b && Xor(0xc1, 0x01) == 0xc0 && Xor(0xbe, 0x02) == 0xbc && Xor(0xe2, 0x03) == 0xe1
    ensures Xor(0x2e, 0x04) == 0x2a && Xor(0x40, 0x05) == 0x45 && Xor(0x9f, 0x06) == 0x99 && Xor(0x96, 0x07) == 0x91
    ensures Xor(0xe9, 0x08) == 0xe1 && Xor(0x3d, 0x09) == 0x34 && Xor(0x7e, 0x0a) == 0x74 && Xor(0x11, 0x0b) == 0x1a
    ensures Xor(0x73, 0x0c) == 0x7f && Xor(0x93, 0x0d) == 0x9e && Xor(0x17, 0x0e) == 0x19 && Xor(0x2a, 0x0f) == 0x25
    ensures Xor(0x6b, 0x2b) == 0x40 && Xor(0xc0, 0x7e) == 0xbe && Xor(0xbc, 0x15) == 0xa9 && Xor(0xe1, 0x16) == 0xf7
    ensures Xor(0x2a, 0x28) == 0x02 && Xor(0x45, 0xae) == 0xeb && Xor(0x99, 0xd2) == 0x4b && Xor(0x91, 0xa6) == 0x37
    ensures Xor(0xe1, 0xab) == 0x4a && Xor(0x34, 0xf7) == 0xc3 && Xor(0x74, 0x15) == 0x61 && Xor(0x1a, 0x88) == 0x92
    ensures Xor(0x7f, 0x09) == 0x76 && Xor(0x9e, 0xcf) == 0x51 && Xor(0x19, 0x4f) == 0x56 && Xor(0x25, 0x3c) == 0x19
  {
  }

  lemma LastSum()
    ensures Xor(0xa6, 0xd0) == 0x76 && Xor(0x5d, 0x14) == 0x49 && Xor(0x52, 0xf9) == 0xab && Xor(0x04, 0xa8) == 0xac
    ensures Xor(0x48, 0xc9) == 0x81 && Xor(0xf7, 0xee) == 0x19 && Xor(0x97, 0x25) == 0xb2 && Xor(0xcf, 0x89) == 0x46
    ensures Xor(0x2f, 0xe1) == 0xce && Xor(0xd6, 0x3f) == 0xe9 && Xor(0x82, 0x0c) == 0x8e && Xor(0x53, 0xc8) == 0x9b
    ensures Xor(0xa4, 0xb6) == 0x12 && Xor(0x8a, 0x63) == 0xe9 && Xor(0x15, 0x0c) == 0x19 && Xor(0xdb, 0xa6) == 0x7d
  {
  }

  lemma StartState()
    ensures AddRoundKey(Xor, PLAIN, IV) == INPUT && AddRoundKey(Xor, INPUT, K_0) == S_0
  {
    FirstSums();
    hide Xor, AddRoundKey;
    AddedBytes(Xor, PLAIN, IV, INPUT);
    AddedBytes(Xor, INPUT, K_0, S_0);
  }

  lemma LastSums()
    ensures Shifted(Sbox, S_9, T_10) && AddRoundKey(Xor, T_10, K_10) == CT
  {
    SubBytes10();
    LastSum();
    hide Xor, Sbox, AddRoundKey;
    AddedBytes(Xor, T_10, K_10, CT);
  }

  lemma RoundIs(w: RoundKeys, r: nat, s: Block, t: Block, k: Block, u: Block)
    requires 1 <= r <= 9 && CipherState(Sbox, Xor, MixByte, w, INPUT, r - 1) == s && RoundKey(w, r) == k
    requires Shifted(Sbox, s, t) && Mixed(MixByte, Xor, t, k, u)
    ensures CipherState(Sbox, Xor, MixByte, w, INPUT, r) == u
  {
    hide *;
    RoundBytes(Sbox, Xor, MixByte, w, INPUT, r, s, t, u);
  }

  lemma EncryptedBlock()
    ensures Encrypt(StandardKeys(K_0), INPUT) == CT
  {
    var w := StandardKeys(K_0);
    ExampleKeys();
    StartState();
    FirstCipherState(Sbox, Xor, MixByte, w, INPUT);
    hide Sbox, Xor, MixByte, StandardKeys, CipherState, Cipher, Shifted, Mixed, RoundKey, AddRoundKey;
    Round1(); RoundIs(w, 1, S_0, T_1, K_1, S_1);
    Round2(); RoundIs(w, 2, S_1, T_2, K_2, S_2);
    Round3(); RoundIs(w, 3, S_2, T_3, K_3, S_3);
    Round4(); RoundIs(w, 4, S_3, T_4, K_4, S_4);
    Round5(); RoundIs(w, 5, S_4, T_5, K_5, S_5);
    Round6(); RoundIs(w, 6, S_5, T_6, K_6, S_6);
    Round7(); RoundIs(w, 7, S_6, T_7, K_7, S_7);
    Round8(); RoundIs(w, 8, S_7, T_8, K_8, S_8);
    Round9(); RoundIs(w, 9, S_8, T_9, K_9, S_9);
    LastSums();
    LastRoundBytes(Sbox, Xor, MixByte, w, INPUT, S_9, T_10, CT);
  }

  /** NIST SP 800-38A, sections F.2.1 and F.2.2, first block, with the round keys of the kernel. */
  lemma CbcExample()
    ensures var key := [0x2b, 0x7e, 0x15, 0x16, 0x28, 0xae, 0xd2, 0xa6,
                        0xab, 0xf7, 0x15, 0x88, 0x09, 0xcf, 0x4f, 0x3c];
      var iv := [0x00, 0x01, 0x02, 0x03, 0x04, 0x05, 0x06, 0x07, 0x08, 0x09, 0x0a, 0x0b, 0x0c, 0x0d, 0x0e, 0x0f];
      var pt := [0x6b, 0xc1, 0xbe, 0xe2, 0x2e, 0x40, 0x9f, 0x96, 0xe9, 0x3d, 0x7e, 0x11, 0x73, 0x93, 0x17, 0x2a];
      var ct := [0x76, 0x49, 0xab, 0xac, 0x81, 0x19, 0xb2, 0x46, 0xce, 0xe9, 0x8e, 0x9b, 0x12, 0xe9, 0x19, 0x7d];
      && CbcEncrypt(EncryptWith(StandardKeys(key)), Xor, iv, pt) == ct
      && CbcDecrypt(DecryptWith(KernelKeys(key)), Xor, iv, ct) == pt
  {
    EncryptedBlock();
    StartState();
    ExpandedExample();
    hide Sbox, Xor, MixByte, StandardKeys, Encrypt, AddRoundKey, CbcDecrypt, Avoids;
    WithKeys(StandardKeys(K_0), INPUT);
    CbcOneBlock(EncryptWith(StandardKeys(K_0)), Xor, IV, PLAIN);
    DecryptsStandard(K_0, IV, PLAIN);
  }
}
