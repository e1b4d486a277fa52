/**
 Cipher block chaining, NIST SP 800-38A, section 6.2, over any block cipher `enc` with
 inverse `dec` and any addition of bytes.
 */
module Cbc {
  import opened Blocks

  /** The block before position `at`: the initialization vector or a ciphertext block. */
  function Previous(iv: Block, ct: seq<bv8>, at: nat): Block
    requires at <= |ct| && at % 16 == 0
  {
    if at == 0 then iv else ct[at - 16..at]
  }

  /** The start of the block that holds byte `k`. */
  function BlockOf(k: nat, len: nat): (at: nat)
    requires k < len && len % 16 == 0
    ensures at % 16 == 0 && at <= k < at + 16 <= len
  {
    k / 16 * 16
  }

  /** Plaintext byte `k`: the deciphered block that holds it, plus the block before. */
  function CbcDecrypt(dec: Block -> Block, add: Op2, iv: Block, ct: seq<bv8>): (pt: seq<bv8>)
    requires |ct| % 16 == 0
    ensures |pt| == |ct|
  {
    seq(|ct|, k requires 0 <= k < |ct| =>
      var at := BlockOf(k, |ct|);
      add(dec(ct[at..at + 16])[k - at], Previous(iv, ct, at)[k - at]))
  }

  /** CBC encryption, block after block. */
  function CbcEncrypt(enc: Block -> Block, add: Op2, iv: Block, pt: seq<bv8>): (ct: seq<bv8>)
    requires |pt| % 16 == 0
    ensures |ct| == |pt|
    decreases |pt|
  {
    if pt == [] then []
    else
      var c := enc(AddRoundKey(add, pt[..16], iv));
      c + CbcEncrypt(enc, add, c, pt[16..])
  }

  lemma SliceOfSlice(s: seq<bv8>, a: nat, b: nat, c: nat, d: nat)
    requires a <= b <= |s| && c <= d <= b - a
    ensures s[a..b][c..d] == s[a + c..a + d]
  {
    assert forall k | 0 <= k < d - c :: s[a..b][c..d][k] == s[a + c + k];
  }

  lemma FirstPrevious(iv: Block, ct: seq<bv8>)
    ensures Previous(iv, ct, 0) == iv
  {
  }

  lemma NextPrevious(iv: Block, ct: seq<bv8>, at: nat)
    requires at % 16 == 0 && at + 16 <= |ct|
    ensures Previous(iv, ct, at + 16) == ct[at..at + 16]
  {
  }

  lemma CbcByte(dec: Block -> Block, add: Op2, iv: Block, ct: seq<bv8>, at: nat, k: nat)
    requires |ct| % 16 == at % 16 == 0 && at + 16 <= |ct| && k < 16
    ensures CbcDecrypt(dec, add, iv, ct)[at + k] == add(dec(ct[at..at + 16])[k], Previous(iv, ct, at)[k])
  {
    hide Previous;
    assert (at + k) / 16 * 16 == at;
  }

  lemma CbcBlock(dec: Block -> Block, add: Op2, iv: Block, ct: seq<bv8>, at: nat)
    requires |ct| % 16 == at % 16 == 0 && at + 16 <= |ct|
    ensures CbcDecrypt(dec, add, iv, ct)[at..at + 16]
         == AddRoundKey(add, dec(ct[at..at + 16]), Previous(iv, ct, at))
    ensures forall k | 0 <= k < 16 ::
      CbcDecrypt(dec, add, iv, ct)[at + k] == add(dec(ct[at..at + 16])[k], Previous(iv, ct, at)[k])
  {
    hide CbcDecrypt, Previous;
    forall k | 0 <= k < 16
      ensures CbcDecrypt(dec, add, iv, ct)[at + k] == add(dec(ct[at..at + 16])[k], Previous(iv, ct, at)[k])
    {
      CbcByte(dec, add, iv, ct, at, k);
    }
  }

  /** One block of a chunk: `staged` are the bytes of `ct` from `base` on, `p` is a block in them. */
  lemma BlockOfChunk(dec: Block -> Block, add: Op2, iv: Block, ct: seq<bv8>, base: nat, staged: seq<bv8>, p: nat)
    requires |ct| % 16 == base % 16 == p % 16 == 0 && base <= p && p + 16 <= base + |staged| <= |ct|
    requires staged == ct[base..base + |staged|]
    ensures var plain, c := CbcDecrypt(dec, add, iv, ct), staged[p - base..p - base + 16];
      && Previous(iv, ct, p + 16) == c
      && plain[base..p + 16] == plain[base..p] + AddRoundKey(add, dec(c), Previous(iv, ct, p))
  {
    hide *;
    SliceOfSlice(ct, base, base + |staged|, p - base, p - base + 16);
    NextPrevious(iv, ct, p);
    CbcBlock(dec, add, iv, ct, p);
    var plain := CbcDecrypt(dec, add, iv, ct);
    assert plain[base..p + 16] == plain[base..p] + plain[p..p + 16];
  }

  lemma PreviousShifts(iv: Block, c: Block, rest: seq<bv8>, at: nat)
    requires 16 <= at <= |rest| + 16 && at % 16 == 0
    ensures Previous(iv, c + rest, at) == Previous(c, rest, at - 16)
  {
  }

  /** The chaining value of a later block does not reach past the block before it. */
  lemma CbcSplits(dec: Block -> Block, add: Op2, iv: Block, c: Block, rest: seq<bv8>)
    requires |rest| % 16 == 0
    ensures CbcDecrypt(dec, add, iv, c + rest) == AddRoundKey(add, dec(c), iv) + CbcDecrypt(dec, add, c, rest)
  {
    hide *;
    var ct := c + rest;
    CbcBlock(dec, add, iv, ct, 0);
    FirstPrevious(iv, ct);
    assert ct[0..16] == c;
    forall k | 16 <= k < |ct| ensures CbcDecrypt(dec, add, iv, ct)[k] == CbcDecrypt(dec, add, c, rest)[k - 16] {
      var at := BlockOf(k, |ct|);
      assert at >= 16;
      CbcByte(dec, add, iv, ct, at, k - at);
      CbcByte(dec, add, c, rest, at - 16, k - at);
      assert ct[at..at + 16] == rest[at - 16..at];
      PreviousShifts(iv, c, rest, at);
    }
  }

  lemma CbcOneBlock(enc: Block -> Block, add: Op2, iv: Block, pt: Block)
    ensures CbcEncrypt(enc, add, iv, pt) == enc(AddRoundKey(add, pt, iv))
  {
    assert pt[..16] == pt && pt[16..] == [];
    hide AddRoundKey;
  }

  /** Decrypting an encryption under the same initialization vector gives the plaintext. */
  lemma {:induction false} CbcRoundTrip(enc: Block -> Block, dec: Block -> Block, add: Op2, iv: Block, pt: seq<bv8>)
    requires |pt| % 16 == 0 && Undoes2(add) && forall b :: dec(enc(b)) == b
    ensures CbcDecrypt(dec, add, iv, CbcEncrypt(enc, add, iv, pt)) == pt
    decreases |pt|
  {
    hide AddRoundKey, CbcDecrypt, Undoes2;
    if pt != [] {
      var x := AddRoundKey(add, pt[..16], iv);
      var c := enc(x);
      AddRoundKeyTwice(add, pt[..16], iv);
      CbcRoundTrip(enc, dec, add, c, pt[16..]);
      CbcSplits(dec, add, iv, c, CbcEncrypt(enc, add, c, pt[16..]));
      assert pt == pt[..16] + pt[16..];
    }
  }
}
