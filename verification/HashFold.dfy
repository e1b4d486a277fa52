/**
 Iterated hashing, FIPS 180-4, sections 5.1.1 and 6.2: a message is padded to whole blocks
 and a compression function is folded over them. Lengths are byte counts.
 */
module HashFold {
  import opened Memory

  type Chunk = s: seq<bv8> | |s| == 64 witness seq(64, _ => 0)

  /** The state after compressing the blocks of `m`, one after the other. */
  function Fold<S>(f: (S, Chunk) -> S, h: S, m: seq<bv8>): S
    requires |m| % 64 == 0
    decreases |m|
  {
    if m == [] then h else f(Fold(f, h, m[..|m| - 64]), m[|m| - 64..])
  }

  function ToByte(n: nat): bv8
    requires n < 256
  {
    n as bv8
  }

  /** `n` in `k` bytes, the most significant first. */
  function BigEndian(n: nat, k: nat): seq<bv8> {
    if k == 0 then [] else BigEndian(n / 256, k - 1) + [ToByte(n % 256)]
  }

  /** The number of zero bytes that bring a message and the byte 0x80 to 56 modulo 64. */
  function ZeroCount(len: nat): (z: nat)
    ensures z < 64 && (len + 1 + z) % 64 == 56
  {
    (119 - len % 64) % 64
  }

  function Zeros(n: nat): (z: seq<bv8>)
    ensures |z| == n
  {
    seq(n, _ => 0)
  }

  /** The padding of section 5.1.1: a one bit, zero bits and the length in bits. */
  function Padding(len: nat): seq<bv8> {
    [0x80] + Zeros(ZeroCount(len)) + BigEndian(8 * len, 8)
  }

  lemma {:induction false} BigEndianLength(n: nat, k: nat)
    ensures |BigEndian(n, k)| == k
  {
    if k > 0 { BigEndianLength(n / 256, k - 1); }
  }

  lemma PaddingLength(len: nat)
    ensures |Padding(len)| == 1 + ZeroCount(len) + 8
  {
    BigEndianLength(8 * len, 8);
    hide BigEndian, ZeroCount;
  }

  lemma EightMore(x: nat)
    requires x % 64 == 56
    ensures (x + 8) % 64 == 0
  {
  }

  lemma PaddedToBlocks(m: seq<bv8>)
    ensures |m + Padding(|m|)| % 64 == 0
  {
    hide *;
    PaddingLength(|m|);
    EightMore(|m| + 1 + ZeroCount(|m|));
  }

  lemma FoldOne<S>(f: (S, Chunk) -> S, h: S, m: seq<bv8>, block: Chunk)
    requires |m| % 64 == 0
    ensures Fold(f, h, m + block) == f(Fold(f, h, m), block)
  {
    assert (m + block)[..|m|] == m && (m + block)[|m|..] == block;
  }

  // Streaming: the whole blocks are folded, the bytes after them wait in a buffer

  /** After `m` the state is the fold over its whole blocks and `rest` is what is left. */
  ghost predicate Absorbed<S>(f: (S, Chunk) -> S, h: S, s: S, rest: seq<bv8>, m: seq<bv8>) {
    |rest| == |m| % 64 && m[|m| - |rest|..] == rest && s == Fold(f, h, m[..|m| - |rest|])
  }

  /** More bytes that do not complete a block only lengthen the rest. */
  lemma AbsorbedTail<S>(f: (S, Chunk) -> S, h: S, s: S, rest: seq<bv8>, m: seq<bv8>, more: seq<bv8>)
    requires Absorbed(f, h, s, rest, m) && |rest| + |more| < 64
    ensures Absorbed(f, h, s, rest + more, m + more)
  {
    hide Fold;
    SumModulo(|m|, |rest|, |more|);
    Regrouped(m, rest, more);
    assert |m + more| - |rest + more| == |m| - |rest|;
  }

  lemma Modulo(q: nat, r: nat)
    ensures r < 64 ==> (64 * q + r) % 64 == r
    ensures r == 64 ==> (64 * q + r) % 64 == 0
  {
  }

  lemma SumModulo(n: nat, r: nat, k: nat)
    requires n % 64 == r
    ensures r + k < 64 ==> (n + k) % 64 == r + k
    ensures r + k == 64 ==> (n + k) % 64 == 0
  {
    Modulo(n / 64, r + k);
  }

  lemma Regrouped<T>(m: seq<T>, rest: seq<T>, more: seq<T>)
    requires |rest| <= |m| && m[|m| - |rest|..] == rest
    ensures (m + more)[|m| - |rest|..] == rest + more && (m + more)[..|m| - |rest|] == m[..|m| - |rest|]
    ensures m + more == m[..|m| - |rest|] + (rest + more)
  {
    assert m == m[..|m| - |rest|] + rest;
  }

  /** Bytes that complete a block are compressed together with the rest. */
  lemma AbsorbedBlock<S>(f: (S, Chunk) -> S, h: S, s: S, rest: seq<bv8>, m: seq<bv8>, more: seq<bv8>)
    requires Absorbed(f, h, s, rest, m) && |rest| + |more| == 64
    ensures Absorbed(f, h, f(s, rest + more), [], m + more)
  {
    hide Fold;
    SumModulo(|m|, |rest|, |more|);
    Regrouped(m, rest, more);
    FoldOne(f, h, m[..|m| - |rest|], rest + more);
    assert (m + more)[..|m + more|] == m + more;
  }

  lemma AbsorbedAll<S>(f: (S, Chunk) -> S, h: S, s: S, rest: seq<bv8>, m: seq<bv8>)
    requires Absorbed(f, h, s, rest, m) && |m| % 64 == 0
    ensures s == Fold(f, h, m)
  {
    assert m[..|m|] == m;
    hide Fold;
  }

  lemma AbsorbedNothing<S>(f: (S, Chunk) -> S, h: S)
    ensures Absorbed(f, h, h, [], [])
  {
  }

  /** The kernel's count of padding bytes before the length, and its padding table. */
  lemma KernelPadding(len: nat)
    ensures var last := len % 64; (if last < 56 then 56 - last else 120 - last) == 1 + ZeroCount(len) <= 64
  {
  }

  // The kernel's length words

  function PutUint32(n: nat): seq<bv8>
    requires n < TWO32
  {
    [ToByte(n / 0x1000000), ToByte(n / 0x10000 % 256), ToByte(n / 0x100 % 256), ToByte(n % 256)]
  }

  lemma BigEndianByte(n: nat, k: nat)
    ensures BigEndian(n, k + 1) == BigEndian(n / 256, k) + [ToByte(n % 256)]
  {
  }

  lemma Peel(n: nat, q: nat, r: nat)
    requires n == 256 * q + r
    ensures n / 256 == q + r / 256 && n % 256 == r % 256
  {
  }

  lemma Shifts(r: nat)
    ensures r / 256 / 256 == r / 0x10000 && r / 256 / 256 / 256 == r / 0x1000000
  {
  }

  lemma PutDigits(r: nat)
    requires r < TWO32
    ensures r / 256 / 256 / 256 < 256
    ensures PutUint32(r)
         == [ToByte(r / 256 / 256 / 256), ToByte(r / 256 / 256 % 256), ToByte(r / 256 % 256), ToByte(r % 256)]
  {
    Shifts(r);
    hide ToByte;
  }

  lemma Below(n: nat, d3: nat, d2: nat, d1: nat, d0: nat)
    requires d3 < 256 && d2 < 256 && d1 < 256 && d0 < 256 && n == ((d3 * 256 + d2) * 256 + d1) * 256 + d0
    ensures n < TWO32
  {
  }

  lemma DigitsAre(n: nat, d3: nat, d2: nat, d1: nat, d0: nat)
    requires d3 < 256 && d2 < 256 && d1 < 256 && d0 < 256 && n == ((d3 * 256 + d2) * 256 + d1) * 256 + d0
    ensures n % 256 == d0 && n / 256 % 256 == d1 && n / 256 / 256 % 256 == d2 && n / 256 / 256 / 256 == d3
  {
    hide *;
    Peel(n, (d3 * 256 + d2) * 256 + d1, d0);
    Peel((d3 * 256 + d2) * 256 + d1, d3 * 256 + d2, d1);
    Peel(d3 * 256 + d2, d3, d2);
  }

  /** The four bytes are the digits in base 256, the most significant first. */
  lemma DigitsOf(n: nat, d3: nat, d2: nat, d1: nat, d0: nat)
    requires d3 < 256 && d2 < 256 && d1 < 256 && d0 < 256 && n == ((d3 * 256 + d2) * 256 + d1) * 256 + d0
    ensures n < TWO32 && PutUint32(n) == [ToByte(d3), ToByte(d2), ToByte(d1), ToByte(d0)]
  {
    hide *;
    Below(n, d3, d2, d1, d0);
    PutDigits(n);
    DigitsAre(n, d3, d2, d1, d0);
  }

  /** Four bytes at a time. */
  lemma BigEndianSplits(n: nat, k: nat, q: nat, r: nat)
    requires n == q * TWO32 + r && r < TWO32
    ensures BigEndian(n, k + 4) == BigEndian(q, k) + PutUint32(r)
  {
    var n1, n2, n3 := n / 256, n / 256 / 256, n / 256 / 256 / 256;
    var r1, r2, r3 := r / 256, r / 256 / 256, r / 256 / 256 / 256;
    Peel(n, q * 0x1000000, r);
    Peel(n1, q * 0x10000, r1);
    Peel(n2, q * 0x100, r2);
    Peel(n3, q, r3);
    PutDigits(r);
    BigEndianByte(n, k + 3);
    BigEndianByte(n1, k + 2);
    BigEndianByte(n2, k + 1);
    BigEndianByte(n3, k);
    FourBytes(BigEndian(q, k), ToByte(r3), ToByte(r2 % 256), ToByte(r1 % 256), ToByte(r % 256));
    hide BigEndian, ToByte, PutUint32;
  }

  lemma FourBytes(head: seq<bv8>, a: bv8, b: bv8, c: bv8, d: bv8)
    ensures head + [a] + [b] + [c] + [d] == head + [a, b, c, d]
  {
  }

  lemma NoBytes(n: nat)
    ensures BigEndian(n, 0) == []
  {
  }

  lemma EightBytes(n: nat)
    requires n < TWO32 * TWO32
    ensures BigEndian(n, 8) == PutUint32(n / TWO32) + PutUint32(n % TWO32)
  {
    hide BigEndian, PutUint32;
    BigEndianSplits(n, 4, n / TWO32, n % TWO32);
    assert n / TWO32 < TWO32;
    BigEndianSplits(n / TWO32, 0, 0, n / TWO32);
    NoBytes(0);
  }

  /** The bitwise or of two natural numbers. */
  function Or(x: nat, y: nat): nat
    decreases x + y
  {
    if x == 0 && y == 0 then 0
    else 2 * Or(x / 2, y / 2) + (if x % 2 == 1 || y % 2 == 1 then 1 else 0)
  }

  lemma {:induction false} OrZero(y: nat)
    ensures Or(0, y) == y
  {
    if y > 0 { OrZero(y / 2); }
  }

  lemma OrEven(x: nat, q: nat)
    ensures Or(x, 2 * q) == 2 * Or(x / 2, q) + x % 2
  {
  }

  lemma ThreeBits(x: nat)
    requires x < 8
    ensures x / 2 / 2 / 2 == 0 && x == 4 * (x / 2 / 2 % 2) + 2 * (x / 2 % 2) + x % 2
  {
  }

  /** Three low bits beside a multiple of eight. */
  lemma OrDisjoint(x: nat, q: nat)
    requires x < 8
    ensures Or(x, 8 * q) == x + 8 * q
  {
    hide Or;
    var x1, x2 := x / 2, x / 2 / 2;
    ThreeBits(x);
    OrEven(x, 4 * q);
    OrEven(x1, 2 * q);
    OrEven(x2, q);
    OrZero(q);
    assert 8 * q == 2 * (4 * q) && 4 * q == 2 * (2 * q);
  }

  /** The two length words of the kernel are the two halves of the length in bits. */
  lemma LengthWords(len: nat, total0: nat, total1: nat)
    requires len < 0x2000_0000_0000_0000
    requires total0 == len % TWO32 && total1 == len / TWO32 % TWO32
    ensures Or(total0 / 0x2000_0000, total1 * 8 % TWO32) == 8 * len / TWO32 < TWO32
    ensures total0 * 8 % TWO32 == 8 * len % TWO32
  {
    hide Or;
    var a, b := total0 / 0x2000_0000, total0 % 0x2000_0000;
    HighWord(len);
    assert total1 * 8 % TWO32 == 8 * total1;
    OrDisjoint(a, total1);
    assert 8 * len == (8 * total1 + a) * TWO32 + 8 * b;
    DivMod(8 * len, 8 * total1 + a, 8 * b);
    assert total0 * 8 == a * TWO32 + 8 * b;
    DivMod(total0 * 8, a, 8 * b);
  }

  lemma HighWord(len: nat)
    requires len < 0x2000_0000_0000_0000
    ensures len / TWO32 < 0x2000_0000 && len / TWO32 % TWO32 == len / TWO32
    ensures len == len / TWO32 * TWO32 + len % TWO32
  {
  }

  lemma DivMod(n: nat, q: nat, r: nat)
    requires n == q * TWO32 + r && r < TWO32
    ensures n / TWO32 == q && n % TWO32 == r
  {
  }

  /** The carry of the byte count, with both words wrapping at 2^32. */
  lemma CountedOn(len: nat, n: nat, total0: nat, total1: nat)
    requires n < TWO32 && total0 == len % TWO32 && total1 == len / TWO32 % TWO32
    ensures var t := (total0 + n) % TWO32;
      && t == (len + n) % TWO32
      && (if t < n then (total1 + 1) % TWO32 else total1) == (len + n) / TWO32 % TWO32
  {
    var q := len / TWO32;
    if total0 + n < TWO32 {
      DivMod(len + n, q, total0 + n);
    } else {
      DivMod(len + n, q + 1, total0 + n - TWO32);
    }
  }

  /**
   The padding: the byte 0x80, as few zeros as make whole blocks, and the number of bits in eight
   bytes.
   */
  lemma PaddingIs(len: nat)
    requires 8 * len < TWO32 * TWO32
    ensures var p := Padding(len);
      && 9 <= |p| <= 72 && (len + |p|) % 64 == 0 && p[0] == 0x80
      && (forall i | 1 <= i < |p| - 8 :: p[i] == 0)
      && p[|p| - 8..] == PutUint32(8 * len / TWO32) + PutUint32(8 * len % TWO32)
  {
    PaddingLength(len);
    EightBytes(8 * len);
    EightMore(len + 1 + ZeroCount(len));
    hide BigEndian, PutUint32, ZeroCount;
  }

  /** The fold of `n` blocks as a chain of states. */
  lemma {:induction false} Chain<S>(f: (S, Chunk) -> S, h: S, p: seq<bv8>, n: nat) returns (states: seq<S>)
    requires |p| == 64 * n
    ensures |states| == n + 1 && states[0] == h && states[n] == Fold(f, h, p)
    ensures forall i | 0 <= i < n :: states[i + 1] == f(states[i], p[64 * i..64 * i + 64])
  {
    if n == 0 {
      states := [h];
    } else {
      var before, block: Chunk := p[..64 * (n - 1)], p[64 * (n - 1)..];
      var prev := Chain(f, h, before, n - 1);
      FoldOne(f, h, before, block);
      hide Fold;
      assert before + block == p;
      states := prev + [f(prev[n - 1], block)];
      forall i | 0 <= i < n ensures states[i + 1] == f(states[i], p[64 * i..64 * i + 64]) {
        Linked(f, p, prev, states, i);
      }
    }
  }

  lemma Linked<S>(f: (S, Chunk) -> S, p: seq<bv8>, prev: seq<S>, states: seq<S>, i: nat)
    requires i < |prev| && |p| == 64 * |prev| && states == prev + [f(prev[|prev| - 1], p[64 * (|prev| - 1)..])]
    requires i + 1 < |prev| ==> prev[i + 1] == f(prev[i], p[..64 * (|prev| - 1)][64 * i..64 * i + 64])
    ensures states[i + 1] == f(states[i], p[64 * i..64 * i + 64])
  {
    if i + 1 < |prev| {
      Within(p, 64 * (|prev| - 1), 64 * i);
    } else {
      assert p[64 * i..64 * i + 64] == p[64 * i..];
    }
  }

  lemma Within<T>(p: seq<T>, k: nat, at: nat)
    requires at + 64 <= k <= |p|
    ensures p[at..at + 64] == p[..k][at..at + 64]
  {
  }
}
