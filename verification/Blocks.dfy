/**
 The round structure of AES-128 (FIPS 197, sections 5.1 to 5.3) over any byte operations.

 A block is sixteen bytes, column by column (section 3.4): row r of column c is byte r + 4c.
 `w` is the expanded key, eleven round keys of sixteen bytes. The byte operations are
 parameters, so nothing here depends on how substitution and mixing are computed.
 */
module Blocks {

  type Word = s: seq<bv8> | |s| == 4 witness [0, 0, 0, 0]
  type Block = s: seq<bv8> | |s| == 16 witness seq(16, _ => 0)
  type RoundKeys = w: seq<bv8> | |w| == 176 witness seq(176, _ => 0)

  type Op1 = bv8 -> bv8
  type Op2 = (bv8, bv8) -> bv8
  type Op4 = (bv8, bv8, bv8, bv8) -> bv8

  /** `g` undoes `f`. */
  ghost predicate Undoes1(g: Op1, f: Op1) {
    forall x :: g(f(x)) == x
  }

  /** Adding the same byte twice changes nothing. */
  ghost predicate Undoes2(add: Op2) {
    forall x, k :: add(add(x, k), k) == x
  }

  /** `g`, applied to the four rotations of a column under `f`, gives back its first byte. */
  ghost predicate Undoes4(g: Op4, f: Op4) {
    forall a, b, c, d :: g(f(a, b, c, d), f(b, c, d, a), f(c, d, a, b), f(d, a, b, c)) == a
  }

  // The transformations

  function RoundKey(w: RoundKeys, r: nat): Block
    requires r <= 10
  {
    w[16 * r..16 * r + 16]
  }

  function AddRoundKey(add: Op2, s: Block, k: Block): Block {
    seq(16, i requires 0 <= i < 16 => add(s[i], k[i]))
  }

  function SubBytes(sub: Op1, s: Block): Block {
    seq(16, i requires 0 <= i < 16 => sub(s[i]))
  }

  function ShiftRows(s: Block): Block {
    seq(16, i requires 0 <= i < 16 => s[i % 4 + 4 * ((i / 4 + i % 4) % 4)])
  }

  function InvShiftRows(s: Block): Block {
    seq(16, i requires 0 <= i < 16 => s[i % 4 + 4 * ((i / 4 + 4 - i % 4) % 4)])
  }

  function MixColumn(mix: Op4, c: Word): Word {
    [mix(c[0], c[1], c[2], c[3]), mix(c[1], c[2], c[3], c[0]),
     mix(c[2], c[3], c[0], c[1]), mix(c[3], c[0], c[1], c[2])]
  }

  function MixColumns(mix: Op4, s: Block): Block {
    MixColumn(mix, s[0..4]) + MixColumn(mix, s[4..8]) + MixColumn(mix, s[8..12]) + MixColumn(mix, s[12..16])
  }

  // The cipher

  /** The state of the cipher after its first `r` rounds. */
  function CipherState(sub: Op1, add: Op2, mix: Op4, w: RoundKeys, plain: Block, r: nat): Block
    requires r <= 9
  {
    if r == 0 then AddRoundKey(add, plain, RoundKey(w, 0))
    else
      var s := CipherState(sub, add, mix, w, plain, r - 1);
      AddRoundKey(add, MixColumns(mix, ShiftRows(SubBytes(sub, s))), RoundKey(w, r))
  }

  /** FIPS 197, section 5.1. */
  function Cipher(sub: Op1, add: Op2, mix: Op4, w: RoundKeys, plain: Block): Block {
    AddRoundKey(add, ShiftRows(SubBytes(sub, CipherState(sub, add, mix, w, plain, 9))), RoundKey(w, 10))
  }

  /** The state of the inverse cipher after undoing rounds 10 down to `r`. */
  function InvCipherState(sub: Op1, add: Op2, mix: Op4, w: RoundKeys, ct: Block, r: nat): Block
    requires 1 <= r <= 10
    decreases 10 - r
  {
    if r == 10 then AddRoundKey(add, ct, RoundKey(w, 10))
    else
      var s := InvCipherState(sub, add, mix, w, ct, r + 1);
      MixColumns(mix, AddRoundKey(add, SubBytes(sub, InvShiftRows(s)), RoundKey(w, r)))
  }

  /** FIPS 197, section 5.3. */
  function InvCipher(sub: Op1, add: Op2, mix: Op4, w: RoundKeys, ct: Block): Block {
    AddRoundKey(add, SubBytes(sub, InvShiftRows(InvCipherState(sub, add, mix, w, ct, 1))), RoundKey(w, 0))
  }

  // Inverses

  lemma AddedTwice(add: Op2, x: bv8, k: bv8)
    requires Undoes2(add)
    ensures add(add(x, k), k) == x
  {
  }

  lemma AddRoundKeyTwice(add: Op2, s: Block, k: Block)
    requires Undoes2(add)
    ensures AddRoundKey(add, AddRoundKey(add, s, k), k) == s
  {
    forall i | 0 <= i < 16 ensures AddRoundKey(add, AddRoundKey(add, s, k), k)[i] == s[i] {
      AddedTwice(add, s[i], k[i]);
    }
  }

  lemma SubBytesInverse(inv: Op1, sub: Op1, s: Block)
    requires Undoes1(inv, sub)
    ensures SubBytes(inv, SubBytes(sub, s)) == s
  {
    forall i | 0 <= i < 16 ensures SubBytes(inv, SubBytes(sub, s))[i] == s[i] {
      assert inv(sub(s[i])) == s[i];
    }
  }

  /** Shifting row r by r columns and back. */
  lemma ShiftedIndex(i: nat, j: nat)
    requires i < 16 && j == i % 4 + 4 * ((i / 4 + 4 - i % 4) % 4)
    ensures j < 16 && j % 4 + 4 * ((j / 4 + j % 4) % 4) == i
  {
    var r, c := i % 4, i / 4;
    assert i == r + 4 * c;
    assert j % 4 == r && j / 4 == (c + 4 - r) % 4;
  }

  lemma ShiftRowsInverse(s: Block)
    ensures InvShiftRows(ShiftRows(s)) == s
  {
    forall i | 0 <= i < 16 ensures InvShiftRows(ShiftRows(s))[i] == s[i] {
      var j := i % 4 + 4 * ((i / 4 + 4 - i % 4) % 4);
      ShiftedIndex(i, j);
      assert InvShiftRows(ShiftRows(s))[i] == ShiftRows(s)[j];
    }
  }

  lemma Unmixed(inv: Op4, mix: Op4, a: bv8, b: bv8, c: bv8, d: bv8)
    requires Undoes4(inv, mix)
    ensures inv(mix(a, b, c, d), mix(b, c, d, a), mix(c, d, a, b), mix(d, a, b, c)) == a
  {
  }

  lemma MixColumnInverse(inv: Op4, mix: Op4, c: Word)
    requires Undoes4(inv, mix)
    ensures MixColumn(inv, MixColumn(mix, c)) == c
  {
    Unmixed(inv, mix, c[0], c[1], c[2], c[3]); Unmixed(inv, mix, c[1], c[2], c[3], c[0]);
    Unmixed(inv, mix, c[2], c[3], c[0], c[1]); Unmixed(inv, mix, c[3], c[0], c[1], c[2]);
    assert c == [c[0], c[1], c[2], c[3]];
  }

  lemma MixColumnsInverse(inv: Op4, mix: Op4, s: Block)
    requires Undoes4(inv, mix)
    ensures MixColumns(inv, MixColumns(mix, s)) == s
  {
    var m := MixColumns(mix, s);
    MixColumnInverse(inv, mix, s[0..4]); MixColumnInverse(inv, mix, s[4..8]);
    MixColumnInverse(inv, mix, s[8..12]); MixColumnInverse(inv, mix, s[12..16]);
    hide MixColumn;
    assert m[0..4] == MixColumn(mix, s[0..4]) && m[4..8] == MixColumn(mix, s[4..8]);
    assert m[8..12] == MixColumn(mix, s[8..12]) && m[12..16] == MixColumn(mix, s[12..16]);
    assert s == s[0..4] + s[4..8] + s[8..12] + s[12..16];
  }

  /** What is left of the encryption after undoing round 10 down to round r + 1. */
  lemma {:induction false} RoundsUndone(sub: Op1, inv: Op1, add: Op2, mix: Op4, unmix: Op4,
                                        w: RoundKeys, plain: Block, r: nat)
    requires r <= 9 && Undoes1(inv, sub) && Undoes2(add) && Undoes4(unmix, mix)
    ensures InvCipherState(inv, add, unmix, w, Cipher(sub, add, mix, w, plain), r + 1)
         == ShiftRows(SubBytes(sub, CipherState(sub, add, mix, w, plain, r)))
    decreases 9 - r
  {
    hide AddRoundKey, SubBytes, ShiftRows, InvShiftRows, MixColumns, Undoes1, Undoes2, Undoes4;
    var s := CipherState(sub, add, mix, w, plain, r);
    var shifted := ShiftRows(SubBytes(sub, s));
    if r == 9 {
      AddRoundKeyTwice(add, shifted, RoundKey(w, 10));
    } else {
      var s' := CipherState(sub, add, mix, w, plain, r + 1);
      RoundsUndone(sub, inv, add, mix, unmix, w, plain, r + 1);
      ShiftRowsInverse(SubBytes(sub, s'));
      SubBytesInverse(inv, sub, s');
      AddRoundKeyTwice(add, MixColumns(mix, shifted), RoundKey(w, r + 1));
      MixColumnsInverse(unmix, mix, shifted);
    }
  }

  /** When each byte operation is undone, so is the cipher, for all eleven round keys. */
  lemma InvCipherUndoes(sub: Op1, inv: Op1, add: Op2, mix: Op4, unmix: Op4, w: RoundKeys, plain: Block)
    requires Undoes1(inv, sub) && Undoes2(add) && Undoes4(unmix, mix)
    ensures InvCipher(inv, add, unmix, w, Cipher(sub, add, mix, w, plain)) == plain
  {
    hide AddRoundKey, SubBytes, ShiftRows, InvShiftRows, MixColumns, Undoes1, Undoes2, Undoes4;
    RoundsUndone(sub, inv, add, mix, unmix, w, plain, 0);
    var s := CipherState(sub, add, mix, w, plain, 0);
    ShiftRowsInverse(SubBytes(sub, s));
    SubBytesInverse(inv, sub, s);
    AddRoundKeyTwice(add, plain, RoundKey(w, 0));
  }

  // The recursion of the inverse cipher, one equation at a time

  lemma FirstState(sub: Op1, add: Op2, mix: Op4, w: RoundKeys, ct: Block)
    ensures InvCipherState(sub, add, mix, w, ct, 10) == AddRoundKey(add, ct, w[160..176])
  {
  }

  lemma NextState(sub: Op1, add: Op2, mix: Op4, w: RoundKeys, ct: Block, r: nat)
    requires 1 <= r <= 9
    ensures InvCipherState(sub, add, mix, w, ct, r)
         == MixColumns(mix, AddRoundKey(add, SubBytes(sub, InvShiftRows(InvCipherState(sub, add, mix, w, ct, r + 1))),
                                        w[16 * r..16 * r + 16]))
  {
  }

  lemma LastState(sub: Op1, add: Op2, mix: Op4, w: RoundKeys, ct: Block)
    ensures InvCipher(sub, add, mix, w, ct)
         == AddRoundKey(add, SubBytes(sub, InvShiftRows(InvCipherState(sub, add, mix, w, ct, 1))), w[0..16])
  {
  }

  // The transformations of a round, byte by byte

  /** SubBytes and ShiftRows: row `r` moves `r` columns to the left. */
  predicate Shifted(sub: Op1, s: Block, t: Block) {
    && t[0] == sub(s[0]) && t[1] == sub(s[5]) && t[2] == sub(s[10]) && t[3] == sub(s[15])
    && t[4] == sub(s[4]) && t[5] == sub(s[9]) && t[6] == sub(s[14]) && t[7] == sub(s[3])
    && t[8] == sub(s[8]) && t[9] == sub(s[13]) && t[10] == sub(s[2]) && t[11] == sub(s[7])
    && t[12] == sub(s[12]) && t[13] == sub(s[1]) && t[14] == sub(s[6]) && t[15] == sub(s[11])
  }

  lemma ShiftedByte(sub: Op1, s: Block, i: nat, j: nat)
    requires i < 16 && j == i % 4 + 4 * ((i / 4 + i % 4) % 4)
    ensures j < 16 && ShiftRows(SubBytes(sub, s))[i] == sub(s[j])
  {
    assert j < 16;
  }

  lemma ShiftedBytes(sub: Op1, s: Block, t: Block)
    requires Shifted(sub, s, t)
    ensures ShiftRows(SubBytes(sub, s)) == t
  {
    hide ShiftRows, SubBytes;
    ShiftedByte(sub, s, 0, 0); ShiftedByte(sub, s, 1, 5); ShiftedByte(sub, s, 2, 10); ShiftedByte(sub, s, 3, 15);
    ShiftedByte(sub, s, 4, 4); ShiftedByte(sub, s, 5, 9); ShiftedByte(sub, s, 6, 14); ShiftedByte(sub, s, 7, 3);
    ShiftedByte(sub, s, 8, 8); ShiftedByte(sub, s, 9, 13); ShiftedByte(sub, s, 10, 2); ShiftedByte(sub, s, 11, 7);
    ShiftedByte(sub, s, 12, 12); ShiftedByte(sub, s, 13, 1); ShiftedByte(sub, s, 14, 6); ShiftedByte(sub, s, 15, 11);
  }

  /** MixColumns and AddRoundKey. */
  predicate Mixed(mix: Op4, add: Op2, t: Block, k: Block, u: Block) {
    && u[0] == add(mix(t[0], t[1], t[2], t[3]), k[0]) && u[1] == add(mix(t[1], t[2], t[3], t[0]), k[1])
    && u[2] == add(mix(t[2], t[3], t[0], t[1]), k[2]) && u[3] == add(mix(t[3], t[0], t[1], t[2]), k[3])
    && u[4] == add(mix(t[4], t[5], t[6], t[7]), k[4]) && u[5] == add(mix(t[5], t[6], t[7], t[4]), k[5])
    && u[6] == add(mix(t[6], t[7], t[4], t[5]), k[6]) && u[7] == add(mix(t[7], t[4], t[5], t[6]), k[7])
    && u[8] == add(mix(t[8], t[9], t[10], t[11]), k[8]) && u[9] == add(mix(t[9], t[10], t[11], t[8]), k[9])
    && u[10] == add(mix(t[10], t[11], t[8], t[9]), k[10]) && u[11] == add(mix(t[11], t[8], t[9], t[10]), k[11])
    && u[12] == add(mix(t[12], t[13], t[14], t[15]), k[12]) && u[13] == add(mix(t[13], t[14], t[15], t[12]), k[13])
    && u[14] == add(mix(t[14], t[15], t[12], t[13]), k[14]) && u[15] == add(mix(t[15], t[12], t[13], t[14]), k[15])
  }

  lemma MixedBytes(mix: Op4, add: Op2, t: Block, k: Block, u: Block)
    requires Mixed(mix, add, t, k, u)
    ensures AddRoundKey(add, MixColumns(mix, t), k) == u
  {
    MixedColumnsAre(mix, t);
    var m := MixColumns(mix, t);
    hide MixColumns, MixColumn, AddRoundKey;
    ColumnBytes(mix, t, m, 0); ColumnBytes(mix, t, m, 4); ColumnBytes(mix, t, m, 8); ColumnBytes(mix, t, m, 12);
    AddedBytes(add, m, k, u);
  }

  lemma MixedColumnsAre(mix: Op4, t: Block)
    ensures var m := MixColumns(mix, t);
      && m[0..4] == MixColumn(mix, t[0..4]) && m[4..8] == MixColumn(mix, t[4..8])
      && m[8..12] == MixColumn(mix, t[8..12]) && m[12..16] == MixColumn(mix, t[12..16])
  {
    hide MixColumn;
  }

  lemma AddedBytes(add: Op2, m: Block, k: Block, u: Block)
    requires u[0] == add(m[0], k[0]) && u[1] == add(m[1], k[1]) && u[2] == add(m[2], k[2]) && u[3] == add(m[3], k[3])
    requires u[4] == add(m[4], k[4]) && u[5] == add(m[5], k[5]) && u[6] == add(m[6], k[6]) && u[7] == add(m[7], k[7])
    requires u[8] == add(m[8], k[8]) && u[9] == add(m[9], k[9]) && u[10] == add(m[10], k[10])
    requires u[11] == add(m[11], k[11]) && u[12] == add(m[12], k[12]) && u[13] == add(m[13], k[13])
    requires u[14] == add(m[14], k[14]) && u[15] == add(m[15], k[15])
    ensures AddRoundKey(add, m, k) == u
  {
    var a := AddRoundKey(add, m, k);
    assert forall i | 0 <= i < 16 :: a[i] == add(m[i], k[i]);
    hide AddRoundKey;
    assert a == u;
  }

  lemma ColumnBytes(mix: Op4, t: Block, m: Block, at: nat)
    requires at + 4 <= 16 && m[at..at + 4] == MixColumn(mix, t[at..at + 4])
    ensures m[at] == mix(t[at], t[at + 1], t[at + 2], t[at + 3])
    ensures m[at + 1] == mix(t[at + 1], t[at + 2], t[at + 3], t[at])
    ensures m[at + 2] == mix(t[at + 2], t[at + 3], t[at], t[at + 1])
    ensures m[at + 3] == mix(t[at + 3], t[at], t[at + 1], t[at + 2])
  {
    var c := m[at..at + 4];
    assert c[0] == m[at] && c[1] == m[at + 1] && c[2] == m[at + 2] && c[3] == m[at + 3];
  }

  lemma FirstCipherState(sub: Op1, add: Op2, mix: Op4, w: RoundKeys, plain: Block)
    ensures CipherState(sub, add, mix, w, plain, 0) == AddRoundKey(add, plain, RoundKey(w, 0))
  {
  }

  /** One round of the cipher, byte by byte. */
  lemma RoundBytes(sub: Op1, add: Op2, mix: Op4, w: RoundKeys, plain: Block, r: nat, s: Block, t: Block, u: Block)
    requires 1 <= r <= 9 && CipherState(sub, add, mix, w, plain, r - 1) == s
    requires Shifted(sub, s, t) && Mixed(mix, add, t, RoundKey(w, r), u)
    ensures CipherState(sub, add, mix, w, plain, r) == u
  {
    ShiftedBytes(sub, s, t);
    MixedBytes(mix, add, t, RoundKey(w, r), u);
    hide ShiftRows, SubBytes, MixColumns, AddRoundKey, RoundKey, Shifted, Mixed;
  }

  /** The last round has no MixColumns. */
  lemma LastRoundBytes(sub: Op1, add: Op2, mix: Op4, w: RoundKeys, plain: Block, s: Block, t: Block, u: Block)
    requires CipherState(sub, add, mix, w, plain, 9) == s
    requires Shifted(sub, s, t) && u == AddRoundKey(add, t, RoundKey(w, 10))
    ensures Cipher(sub, add, mix, w, plain) == u
  {
    ShiftedBytes(sub, s, t);
    hide ShiftRows, SubBytes, MixColumns, AddRoundKey, RoundKey, Shifted;
  }
}
