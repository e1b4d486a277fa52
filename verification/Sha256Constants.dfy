/**
 Where the constants of SHA-256 come from (FIPS 180-4, sections 4.2.2 and 5.3.3): the round
 constants are the first 32 bits of the fractional parts of the cube roots of the first 64
 primes, the initial hash value those of the square roots of the first eight.
 */
module Sha256Constants {
  import opened Sha256Words

  /** The cube root of `p` has the whole part `q`, and `f` for the first 32 bits after the point. */
  predicate CubeRoot(p: nat, q: nat, f: nat) {
    var n := q * 0x1_0000_0000 + f;
    f < 0x1_0000_0000 && n * n * n <= p * 0x1_0000_0000_0000_0000_0000_0000 < (n + 1) * (n + 1) * (n + 1)
  }

  /** The same of the square root. */
  predicate SquareRoot(p: nat, q: nat, f: nat) {
    var n := q * 0x1_0000_0000 + f;
    f < 0x1_0000_0000 && n * n <= p * 0x1_0000_0000_0000_0000 < (n + 1) * (n + 1)
  }

  /** Round constants 0 to 7. */
  lemma ConstantsFrom0()
    ensures CubeRoot(2, 1, 0x428a2f98) && K[0] == 0x428a2f98
    ensures CubeRoot(3, 1, 0x71374491) && K[1] == 0x71374491
    ensures CubeRoot(5, 1, 0xb5c0fbcf) && K[2] == 0xb5c0fbcf
    ensures CubeRoot(7, 1, 0xe9b5dba5) && K[3] == 0xe9b5dba5
    ensures CubeRoot(11, 2, 0x3956c25b) && K[4] == 0x3956c25b
    ensures CubeRoot(13, 2, 0x59f111f1) && K[5] == 0x59f111f1
    ensures CubeRoot(17, 2, 0x923f82a4) && K[6] == 0x923f82a4
    ensures CubeRoot(19, 2, 0xab1c5ed5) && K[7] == 0xab1c5ed5
  {
  }

  /** Round constants 8 to 15. */
  lemma ConstantsFrom8()
    ensures CubeRoot(23, 2, 0xd807aa98) && K[8] == 0xd807aa98
    ensures CubeRoot(29, 3, 0x12835b01) && K[9] == 0x12835b01
    ensures CubeRoot(31, 3, 0x243185be) && K[10] == 0x243185be
    ensures CubeRoot(37, 3, 0x550c7dc3) && K[11] == 0x550c7dc3
    ensures CubeRoot(41, 3, 0x72be5d74) && K[12] == 0x72be5d74
    ensures CubeRoot(43, 3, 0x80deb1fe) && K[13] == 0x80deb1fe
    ensures CubeRoot(47, 3, 0x9bdc06a7) && K[14] == 0x9bdc06a7
    ensures CubeRoot(53, 3, 0xc19bf174) && K[15] == 0xc19bf174
  {
  }

  /** Round constants 16 to 23. */
  lemma ConstantsFrom16()
    ensures CubeRoot(59, 3, 0xe49b69c1) && K[16] == 0xe49b69c1
    ensures CubeRoot(61, 3, 0xefbe4786) && K[17] == 0xefbe4786
    ensures CubeRoot(67, 4, 0x0fc19dc6) && K[18] == 0x0fc19dc6
    ensures CubeRoot(71, 4, 0x240ca1cc) && K[19] == 0x240ca1cc
    ensures CubeRoot(73, 4, 0x2de92c6f) && K[20] == 0x2de92c6f
    ensures CubeRoot(79, 4, 0x4a7484aa) && K[21] == 0x4a7484aa
    ensures CubeRoot(83, 4, 0x5cb0a9dc) && K[22] == 0x5cb0a9dc
    ensures CubeRoot(89, 4, 0x76f988da) && K[23] == 0x76f988da
  {
  }

  /** Round constants 24 to 31. */
  lemma ConstantsFrom24()
    ensures CubeRoot(97, 4, 0x983e5152) && K[24] == 0x983e5152
    ensures CubeRoot(101, 4, 0xa831c66d) && K[25] == 0xa831c66d
    ensures CubeRoot(103, 4, 0xb00327c8) && K[26] == 0xb00327c8
    ensures CubeRoot(107, 4, 0xbf597fc7) && K[27] == 0xbf597fc7
    ensures CubeRoot(109, 4, 0xc6e00bf3) && K[28] == 0xc6e00bf3
    ensures CubeRoot(113, 4, 0xd5a79147) && K[29] == 0xd5a79147
    ensures CubeRoot(127, 5, 0x06ca6351) && K[30] == 0x06ca6351
    ensures CubeRoot(131, 5, 0x14292967) && K[31] == 0x14292967
  {
  }

  /** Round constants 32 to 39. */
  lemma ConstantsFrom32()
    ensures CubeRoot(137, 5, 0x27b70a85) && K[32] == 0x27b70a85
    ensures CubeRoot(139, 5, 0x2e1b2138) && K[33] == 0x2e1b2138
    ensures CubeRoot(149, 5, 0x4d2c6dfc) && K[34] == 0x4d2c6dfc
    ensures CubeRoot(151, 5, 0x53380d13) && K[35] == 0x53380d13
    ensures CubeRoot(157, 5, 0x650a7354) && K[36] == 0x650a7354
    ensures CubeRoot(163, 5, 0x766a0abb) && K[37] == 0x766a0abb
    ensures CubeRoot(167, 5, 0x81c2c92e) && K[38] == 0x81c2c92e
    ensures CubeRoot(173, 5, 0x92722c85) && K[39] == 0x92722c85
  {
  }

  /** Round constants 40 to 47. */
  lemma ConstantsFrom40()
    ensures CubeRoot(179, 5, 0xa2bfe8a1) && K[40] == 0xa2bfe8a1
    ensures CubeRoot(181, 5, 0xa81a664b) && K[41] == 0xa81a664b
    ensures CubeRoot(191, 5, 0xc24b8b70) && K[42] == 0xc24b8b70
    ensures CubeRoot(193, 5, 0xc76c51a3) && K[43] == 0xc76c51a3
    ensures CubeRoot(197, 5, 0xd192e819) && K[44] == 0xd192e819
    ensures CubeRoot(199, 5, 0xd6990624) && K[45] == 0xd6990624
    ensures CubeRoot(211, 5, 0xf40e3585) && K[46] == 0xf40e3585
    ensures CubeRoot(223, 6, 0x106aa070) && K[47] == 0x106aa070
  {
  }

  /** Round constants 48 to 55. */
  lemma ConstantsFrom48()
    ensures CubeRoot(227, 6, 0x19a4c116) && K[48] == 0x19a4c116
    ensures CubeRoot(229, 6, 0x1e376c08) && K[49] == 0x1e376c08
    ensures CubeRoot(233, 6, 0x2748774c) && K[50] == 0x2748774c
    ensures CubeRoot(239, 6, 0x34b0bcb5) && K[51] == 0x34b0bcb5
    ensures CubeRoot(241, 6, 0x391c0cb3) && K[52] == 0x391c0cb3
    ensures CubeRoot(251, 6, 0x4ed8aa4a) && K[53] == 0x4ed8aa4a
    ensures CubeRoot(257, 6, 0x5b9cca4f) && K[54] == 0x5b9cca4f
    ensures CubeRoot(263, 6, 0x682e6ff3) && K[55] == 0x682e6ff3
  {
  }

  /** Round constants 56 to 63. */
  lemma ConstantsFrom56()
    ensures CubeRoot(269, 6, 0x748f82ee) && K[56] == 0x748f82ee
    ensures CubeRoot(271, 6, 0x78a5636f) && K[57] == 0x78a5636f
    ensures CubeRoot(277, 6, 0x84c87814) && K[58] == 0x84c87814
    ensures CubeRoot(281, 6, 0x8cc70208) && K[59] == 0x8cc70208
    ensures CubeRoot(283, 6, 0x90befffa) && K[60] == 0x90befffa
    ensures CubeRoot(293, 6, 0xa4506ceb) && K[61] == 0xa4506ceb
    ensures CubeRoot(307, 6, 0xbef9a3f7) && K[62] == 0xbef9a3f7
    ensures CubeRoot(311, 6, 0xc67178f2) && K[63] == 0xc67178f2
  {
  }

  /** The initial hash value. */
  lemma InitialHash()
    ensures SquareRoot(2, 1, 0x6a09e667) && H0[0] == 0x6a09e667
    ensures SquareRoot(3, 1, 0xbb67ae85) && H0[1] == 0xbb67ae85
    ensures SquareRoot(5, 2, 0x3c6ef372) && H0[2] == 0x3c6ef372
    ensures SquareRoot(7, 2, 0xa54ff53a) && H0[3] == 0xa54ff53a
    ensures SquareRoot(11, 3, 0x510e527f) && H0[4] == 0x510e527f
    ensures SquareRoot(13, 3, 0x9b05688c) && H0[5] == 0x9b05688c
    ensures SquareRoot(17, 4, 0x1f83d9ab) && H0[6] == 0x1f83d9ab
    ensures SquareRoot(19, 4, 0x5be0cd19) && H0[7] == 0x5be0cd19
  {
  }
}
