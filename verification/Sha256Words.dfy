/**
 The word operations of SHA-256, FIPS 180-4, section 4.1.2, with the two that the kernel
 computes in another form, and the compression function they make.
 */
module Sha256Words {
  import opened Compression
  import opened HashFold

  type State = s: seq<bv32> | |s| == 8 witness seq(8, _ => 0)
  type Words = s: seq<bv32> | |s| == 16 witness seq(16, _ => 0)
  type Constants = s: seq<bv32> | |s| == 64 witness seq(64, _ => 0)

  const K: Constants :=
    [0x428a2f98, 0x71374491, 0xb5c0fbcf, 0xe9b5dba5, 0x3956c25b, 0x59f111f1, 0x923f82a4, 0xab1c5ed5,
     0xd807aa98, 0x12835b01, 0x243185be, 0x550c7dc3, 0x72be5d74, 0x80deb1fe, 0x9bdc06a7, 0xc19bf174] +
    [0xe49b69c1, 0xefbe4786, 0x0fc19dc6, 0x240ca1cc, 0x2de92c6f, 0x4a7484aa, 0x5cb0a9dc, 0x76f988da,
     0x983e5152, 0xa831c66d, 0xb00327c8, 0xbf597fc7, 0xc6e00bf3, 0xd5a79147, 0x06ca6351, 0x14292967] +
    [0x27b70a85, 0x2e1b2138, 0x4d2c6dfc, 0x53380d13, 0x650a7354, 0x766a0abb, 0x81c2c92e, 0x92722c85,
     0xa2bfe8a1, 0xa81a664b, 0xc24b8b70, 0xc76c51a3, 0xd192e819, 0xd6990624, 0xf40e3585, 0x106aa070] +
    [0x19a4c116, 0x1e376c08, 0x2748774c, 0x34b0bcb5, 0x391c0cb3, 0x4ed8aa4a, 0x5b9cca4f, 0x682e6ff3,
     0x748f82ee, 0x78a5636f, 0x84c87814, 0x8cc70208, 0x90befffa, 0xa4506ceb, 0xbef9a3f7, 0xc67178f2]

  /** The initial hash value, section 5.3.3. */
  const H0: State := [
    0x6a09e667, 0xbb67ae85, 0x3c6ef372, 0xa54ff53a, 0x510e527f, 0x9b05688c, 0x1f83d9ab, 0x5be0cd19
  ]

  function Add(x: bv32, y: bv32): bv32 { x + y }

  // Rotations to the right, written as the two shifts they are made of

  function BigSigma0(x: bv32): bv32 {
    ((x >> 2) | (x << 30)) ^ ((x >> 13) | (x << 19)) ^ ((x >> 22) | (x << 10))
  }

  function BigSigma1(x: bv32): bv32 {
    ((x >> 6) | (x << 26)) ^ ((x >> 11) | (x << 21)) ^ ((x >> 25) | (x << 7))
  }

  function SmallSigma0(x: bv32): bv32 {
    ((x >> 7) | (x << 25)) ^ ((x >> 18) | (x << 14)) ^ (x >> 3)
  }

  function SmallSigma1(x: bv32): bv32 {
    ((x >> 17) | (x << 15)) ^ ((x >> 19) | (x << 13)) ^ (x >> 10)
  }

  function Ch(x: bv32, y: bv32, z: bv32): bv32 { (x & y) ^ (!x & z) }
  function Maj(x: bv32, y: bv32, z: bv32): bv32 { ((x & y) ^ (x & z)) ^ (y & z) }

  const FIPS: Ops<bv32> := Ops(Add, BigSigma0, BigSigma1, SmallSigma0, SmallSigma1, Ch, Maj)

  // The kernel's macros F1 and F0

  function F1(x: bv32, y: bv32, z: bv32): bv32 { z ^ (x & (y ^ z)) }
  function F0(x: bv32, y: bv32, z: bv32): bv32 { (x & y) | (z & (x | y)) }

  const KERNEL: Ops<bv32> := Ops(Add, BigSigma0, BigSigma1, SmallSigma0, SmallSigma1, F1, F0)

  lemma ChAsF1(x: bv32, y: bv32, z: bv32)
    ensures z ^ (x & (y ^ z)) == (x & y) ^ (!x & z)
  {
  }

  lemma MajAsF0(x: bv32, y: bv32, z: bv32)
    ensures (x & y) | (z & (x | y)) == ((x & y) ^ (x & z)) ^ (y & z)
  {
  }

  lemma KernelForms(x: bv32, y: bv32, z: bv32)
    ensures F1(x, y, z) == Ch(x, y, z) && F0(x, y, z) == Maj(x, y, z)
  {
    ChAsF1(x, y, z);
    MajAsF0(x, y, z);
  }

  lemma SameOperations()
    ensures SameOps(KERNEL, FIPS)
  {
    forall x, y, z ensures F1(x, y, z) == Ch(x, y, z) && F0(x, y, z) == Maj(x, y, z) {
      KernelForms(x, y, z);
    }
    hide F1, F0, Ch, Maj;
  }

  /** A word from four bytes, the most significant first. */
  function GetUint32(b3: bv8, b2: bv8, b1: bv8, b0: bv8): bv32 {
    (b3 as bv32 << 24) | (b2 as bv32 << 16) | (b1 as bv32 << 8) | (b0 as bv32)
  }

  /** The value of the four bytes in base 256. */
  lemma WordValue(b3: bv8, b2: bv8, b1: bv8, b0: bv8)
    ensures GetUint32(b3, b2, b1, b0)
         == ((b3 as bv32 * 256 + b2 as bv32) * 256 + b1 as bv32) * 256 + b0 as bv32
  {
  }

  function WordsOf(block: Chunk): Words {
    seq(16, t requires 0 <= t < 16 =>
      GetUint32(block[4 * t], block[4 * t + 1], block[4 * t + 2], block[4 * t + 3]))
  }

  /** The compression function of section 6.2.2. */
  function CompressBlock(s: State, block: Chunk): State {
    Compress(FIPS, K, s, WordsOf(block))
  }

  lemma KernelCompression(s: State, block: Chunk)
    ensures Compress(KERNEL, K, s, WordsOf(block)) == CompressBlock(s, block)
  {
    hide *;
    SameOperations();
    SameCompression(KERNEL, FIPS, K, s, WordsOf(block));
    CompressBlockOf(s, block);
  }

  lemma CompressBlockOf(s: State, block: Chunk)
    ensures CompressBlock(s, block) == Compress(FIPS, K, s, WordsOf(block))
  {
    hide Compress, WordsOf;
  }

  /** The bytes of the words of a digest. */
  function Bytes(s: State): seq<bv8> {
    BigEndian(s[0] as nat, 4) + BigEndian(s[1] as nat, 4) + BigEndian(s[2] as nat, 4) + BigEndian(s[3] as nat, 4)
    + BigEndian(s[4] as nat, 4) + BigEndian(s[5] as nat, 4) + BigEndian(s[6] as nat, 4) + BigEndian(s[7] as nat, 4)
  }

  lemma BytesOf(s: State)
    ensures Bytes(s) == BigEndian(s[0] as nat, 4) + BigEndian(s[1] as nat, 4) + BigEndian(s[2] as nat, 4)
                      + BigEndian(s[3] as nat, 4) + BigEndian(s[4] as nat, 4) + BigEndian(s[5] as nat, 4)
                      + BigEndian(s[6] as nat, 4) + BigEndian(s[7] as nat, 4)
  {
    hide BigEndian;
  }

  function Folded(m: seq<bv8>): State
    requires |m| % 64 == 0
  {
    Fold(CompressBlock, H0, m)
  }

  /** SHA-256 of a message, section 6.2. */
  function Digest(m: seq<bv8>): seq<bv8> {
    PaddedToBlocks(m);
    Bytes(Folded(m + Padding(|m|)))
  }

  lemma DigestIsFold(m: seq<bv8>)
    ensures |m + Padding(|m|)| % 64 == 0 && Digest(m) == Bytes(Fold(CompressBlock, H0, m + Padding(|m|)))
  {
    PaddedToBlocks(m);
    hide Padding, Bytes, Fold;
  }

  lemma InitialIs()
    ensures H0 == [
      0x6a09e667, 0xbb67ae85, 0x3c6ef372, 0xa54ff53a, 0x510e527f, 0x9b05688c, 0x1f83d9ab, 0x5be0cd19]
  {
  }

  /** Some blocks as a chain of states. */
  lemma StateChain(p: seq<bv8>, n: nat) returns (states: seq<State>)
    requires |p| == 64 * n
    ensures |states| == n + 1 && states[0] == H0 && states[n] == Fold(CompressBlock, H0, p)
    ensures forall i | 0 <= i < n :: states[i + 1] == CompressBlock(states[i], p[64 * i..64 * i + 64])
  {
    hide *;
    states := Chain<State>(CompressBlock, H0, p, n);
  }

  /** The digest as a chain of states, one block of the padded message after the other. */
  lemma DigestChain(m: seq<bv8>, p: seq<bv8>, n: nat) returns (states: seq<State>)
    requires p == m + Padding(|m|) && n == |p| / 64
    ensures |p| == 64 * n && |states| == n + 1 && states[0] == [
      0x6a09e667, 0xbb67ae85, 0x3c6ef372, 0xa54ff53a, 0x510e527f, 0x9b05688c, 0x1f83d9ab, 0x5be0cd19]
    ensures forall i | 0 <= i < n :: states[i + 1] == CompressBlock(states[i], p[64 * i..64 * i + 64])
    ensures Digest(m) == Bytes(states[n])
  {
    hide *;
    DigestIsFold(m);
    InitialIs();
    states := StateChain(p, n);
  }
}
