/**
 The AES part of the SPU kernel: key expansion, block decryption and the chunked CBC command,
 over the kernel's static buffers.
 */
module AesKernel {
  import opened Memory
  import opened Gf256
  import opened AesTables
  import opened Blocks
  import opened KeySchedule
  import opened Cbc
  import opened Aes
  import opened BlockLoops

  /** The table of round constants; its entry 0 is never used. */
  const RCON: seq<bv8> := [0x8d, 0x01, 0x02, 0x04, 0x08, 0x10, 0x20, 0x40, 0x80, 0x1b, 0x36]

  /** The size of the two staging buffers in local store. */
  const MAX_CHUNK_SIZE := 16384

  lemma RconTable()
    ensures |RCON| == 11 && forall i | 1 <= i <= 10 :: RCON[i] == Rcon(i)
  {
    assert Rcon(1) == 0x01 && Rcon(2) == 0x02 && Rcon(3) == 0x04 && Rcon(4) == 0x08;
    assert Rcon(5) == 0x10 && Rcon(6) == 0x20 && Rcon(7) == 0x40 && Rcon(8) == 0x80;
    assert Rcon(9) == 0x1b && Rcon(10) == 0x36;
  }

  class Engine {
    const roundKeys: array<bv8>
    const bufferIn: array<bv8>
    const bufferOut: array<bv8>

    ghost predicate Valid()
      reads this
    {
      roundKeys.Length == 176 && bufferIn.Length == bufferOut.Length == MAX_CHUNK_SIZE
      && roundKeys != bufferIn && roundKeys != bufferOut && bufferIn != bufferOut
    }

    ghost function Keys(): RoundKeys
      requires Valid()
      reads this, roundKeys
    {
      roundKeys[..]
    }

    lemma Sizes()
      requires Valid()
      ensures roundKeys.Length == 176 && bufferIn.Length == bufferOut.Length == MAX_CHUNK_SIZE == 16384
      ensures roundKeys != bufferIn && roundKeys != bufferOut && bufferIn != bufferOut
      ensures Keys() == roundKeys[..]
    {
    }

    constructor ()
      ensures Valid() && fresh(roundKeys) && fresh(bufferIn) && fresh(bufferOut)
    {
      roundKeys := new bv8[176](_ => 0);
      bufferIn := new bv8[MAX_CHUNK_SIZE](_ => 0);
      bufferOut := new bv8[MAX_CHUNK_SIZE](_ => 0);
    }

    method KeyExpansion(key: Block)
      requires Valid()
      modifies roundKeys
      ensures Keys() == KernelKeys(key)
    {
      hide *;
      Sizes();
      RconTable();
      KernelKeysOf(key);
      ExpandKey(KeySbox, Xor, Rcon, RCON, key, roundKeys);
      Sizes();
    }

    /** The sixteen products of one column. */
    static method InvMixedColumn(a: bv8, b: bv8, c: bv8, d: bv8) returns (s0: bv8, s1: bv8, s2: bv8, s3: bv8)
      ensures s0 == InvMixByte(a, b, c, d) && s1 == InvMixByte(b, c, d, a)
      ensures s2 == InvMixByte(c, d, a, b) && s3 == InvMixByte(d, a, b, c)
    {
      hide *;
      var p0 := Gmul(a, 0x0e); var q0 := Gmul(b, 0x0b); var r0 := Gmul(c, 0x0d); var t0 := Gmul(d, 0x09);
      var p1 := Gmul(a, 0x09); var q1 := Gmul(b, 0x0e); var r1 := Gmul(c, 0x0b); var t1 := Gmul(d, 0x0d);
      var p2 := Gmul(a, 0x0d); var q2 := Gmul(b, 0x09); var r2 := Gmul(c, 0x0e); var t2 := Gmul(d, 0x0b);
      var p3 := Gmul(a, 0x0b); var q3 := Gmul(b, 0x0d); var r3 := Gmul(c, 0x09); var t3 := Gmul(d, 0x0e);
      FourProducts(a, b, c, d, p0, q0, r0, t0);
      FourProducts(b, c, d, a, q1, r1, t1, p1);
      FourProducts(c, d, a, b, r2, t2, p2, q2);
      FourProducts(d, a, b, c, t3, p3, q3, r3);
      s0, s1 := p0 ^ q0 ^ r0 ^ t0, p1 ^ q1 ^ r1 ^ t1;
      s2, s3 := p2 ^ q2 ^ r2 ^ t2, p3 ^ q3 ^ r3 ^ t3;
    }

    /** One column; those before it stay. */
    static method InvMixColumnInto(temp: array<bv8>, state: array<bv8>, i: nat)
      requires state.Length == 16 && temp.Length == 16 && state != temp && i < 4
      modifies state
      ensures state[4 * i..4 * i + 4] == MixColumn(InvMixByte, temp[4 * i..4 * i + 4])
      ensures state[..4 * i] == old(state[..4 * i])
    {
      hide *;
      var at := i * 4;
      var a, b, c, d := temp[at], temp[at + 1], temp[at + 2], temp[at + 3];
      var s0, s1, s2, s3 := InvMixedColumn(a, b, c, d);
      state[at], state[at + 1], state[at + 2], state[at + 3] := s0, s1, s2, s3;
      FourAt(temp, at);
      FourAt(state, at);
      MixedColumn(InvMixByte, a, b, c, d, s0, s1, s2, s3);
    }

    static method InvMixColumnsInto(temp: array<bv8>, state: array<bv8>)
      requires state.Length == 16 && temp.Length == 16 && state != temp
      modifies state
      ensures state[..] == MixColumns(InvMixByte, temp[..])
    {
      hide *;
      for i := 0 to 4
        invariant forall k | 0 <= k < i :: state[4 * k..4 * k + 4] == MixColumn(InvMixByte, temp[4 * k..4 * k + 4])
      {
        ghost var done := state[..4 * i];
        InvMixColumnInto(temp, state, i);
        assert forall k | 0 <= k < i ::
          state[4 * k..4 * k + 4] == state[..4 * i][4 * k..4 * k + 4] == done[4 * k..4 * k + 4];
      }
      MixedColumns(InvMixByte, temp[..], state[..]);
    }

    method DecryptBlock(ct: Block, out: array<bv8>, at: nat)
      requires Valid() && out != roundKeys && at + 16 <= out.Length
      modifies out
      ensures out[..] == old(out[..at]) + Decrypt(Keys(), ct) + old(out[at + 16..])
    {
      hide *;
      Sizes();
      ghost var w := roundKeys[..];
      var state, temp := new bv8[16], new bv8[16];
      SumInto(Xor, ct, roundKeys, 160, state);
      FirstState(InvSbox, Xor, InvMixByte, w, ct);
      var r := 9;
      while r > 0
        invariant 0 <= r <= 9 && roundKeys[..] == w && out[..] == old(out[..])
        invariant state[..] == InvCipherState(InvSbox, Xor, InvMixByte, w, ct, r + 1)
      {
        InvShiftRowsInto(state, temp);
        SubInPlace(InvSbox, temp);
        AddInPlace(Xor, temp, 0, roundKeys, 16 * r);
        InvMixColumnsInto(temp, state);
        NextState(InvSbox, Xor, InvMixByte, w, ct, r);
        r := r - 1;
      }
      InvShiftRowsInto(state, temp);
      SubAddInto(InvSbox, Xor, temp, roundKeys, out, at);
      LastState(InvSbox, Xor, InvMixByte, w, ct);
      DecryptOf(w, ct);
      Sizes();
    }

    /** The ciphertext of a block set aside, for the next one. */
    method KeepBlock(ghost staged: seq<bv8>, b: nat, nextPrev: array<bv8>)
      requires bufferIn.Length == MAX_CHUNK_SIZE && nextPrev.Length == 16 && nextPrev != bufferIn
      requires 16 * b + 16 <= |staged| <= MAX_CHUNK_SIZE && staged == bufferIn[..|staged|]
      modifies nextPrev
      ensures nextPrev[..] == staged[16 * b..16 * b + 16]
    {
      hide *;
      ghost var whole := bufferIn[..];
      assert whole[0..|staged|] == staged && whole[16 * b..16 * b + 16] == bufferIn[16 * b..16 * b + 16];
      SliceOfSlice(whole, 0, |staged|, 16 * b, 16 * b + 16);
      CopyBytes(bufferIn, b * 16, nextPrev, 0, 16);
    }

    /** One block of the CBC loop: block `b` of the `staged` bytes, chained with the block before. */
    method ChainBlock(ghost staged: seq<bv8>, b: nat, prev: array<bv8>, nextPrev: array<bv8>)
      requires Valid() && 16 * b + 16 <= |staged| <= MAX_CHUNK_SIZE && staged == bufferIn[..|staged|]
      requires prev.Length == nextPrev.Length == 16 && prev != nextPrev
      requires {prev, nextPrev} !! {roundKeys, bufferIn, bufferOut}
      modifies bufferOut, prev, nextPrev
      ensures prev[..] == staged[16 * b..16 * b + 16]
      ensures bufferOut[..16 * b + 16]
           == old(bufferOut[..16 * b]) + AddRoundKey(Xor, Decrypt(Keys(), staged[16 * b..16 * b + 16]), old(prev[..]))
    {
      hide *;
      Sizes();
      ghost var ct: Block := staged[16 * b..16 * b + 16];
      KeepBlock(staged, b, nextPrev);
      ghost var before, rest, chained := bufferOut[..16 * b], bufferOut[16 * b + 16..], prev[..];
      DecryptBlock(nextPrev[..], bufferOut, b * 16);
      Placed(bufferOut[..], before, Decrypt(Keys(), ct), rest);
      assert prev[0..16] == chained;
      ghost var after := bufferOut[16 * b + 16..];
      AddInPlace(Xor, bufferOut, b * 16, prev, 0);
      Placed(bufferOut[..], before, AddRoundKey(Xor, Decrypt(Keys(), ct), chained), after);
      CopyBytes(nextPrev, 0, prev, 0, 16);
      Sizes();
    }

    /** The blocks of one chunk: its `count` whole bytes staged in `bufferIn` are those at `base` of `ct`. */
    method DecryptChunk(ghost iv: Block, ghost ct: seq<bv8>, ghost base: nat, chunk: nat, ghost count: nat,
                        prev: array<bv8>)
      requires Valid() && count == chunk / 16 * 16 && base % 16 == |ct| % 16 == 0
      requires chunk <= MAX_CHUNK_SIZE && base + count <= |ct|
      requires bufferIn[..count] == ct[base..base + count]
      requires prev.Length == 16 && prev !in {roundKeys, bufferIn, bufferOut} && prev[..] == Previous(iv, ct, base)
      modifies bufferOut, prev
      ensures bufferOut[..count] == CbcDecrypt(DecryptWith(Keys()), Xor, iv, ct)[base..base + count]
      ensures prev[..] == Previous(iv, ct, base + count)
    {
      hide *;
      Sizes();
      ghost var w, staged := roundKeys[..], bufferIn[..count];
      ghost var dec := DecryptWith(w);
      ghost var plain := CbcDecrypt(dec, Xor, iv, ct);
      var nextPrev := new bv8[16];
      var chunkBlocks := chunk / 16;
      for b := 0 to chunkBlocks
        invariant roundKeys[..] == w && bufferIn[..count] == staged
        invariant (base + 16 * b) % 16 == 0 && prev[..] == Previous(iv, ct, base + 16 * b)
        invariant bufferOut[..16 * b] == plain[base..base + 16 * b]
      {
        Sizes();
        ChainBlock(staged, b, prev, nextPrev);
        BlockOfChunk(dec, Xor, iv, ct, base, staged, base + 16 * b);
        WithKeys(w, staged[16 * b..16 * b + 16]);
        Sizes();
      }
      Sizes();
    }

    /**
     The body of the CBC loop: one chunk transferred in, its whole blocks decrypted, and as many
     quadwords transferred out as the chunk needs.
     */
    method NextChunk(ghost iv: Block, input: array<bv8>, output: array<bv8>, at: nat, chunk: nat, ghost whole: nat,
                     prev: array<bv8>)
      requires Valid() && at % 16 == whole % 16 == 0 && chunk <= MAX_CHUNK_SIZE && at + chunk / 16 * 16 <= whole
      requires whole <= input.Length && at + QuadBytes(chunk) <= input.Length && at + QuadBytes(chunk) <= output.Length
      requires input !in {roundKeys, bufferIn, bufferOut, output, prev} && prev.Length == 16
      requires output !in {roundKeys, bufferIn, bufferOut, prev} && prev !in {roundKeys, bufferIn, bufferOut}
      requires prev[..] == Previous(iv, input[..whole], at)
      requires output[..at] == CbcDecrypt(DecryptWith(Keys()), Xor, iv, input[..whole])[..at]
      modifies bufferIn, bufferOut, output, prev
      ensures prev[..] == Previous(iv, input[..whole], at + chunk / 16 * 16)
      ensures output[..at + chunk / 16 * 16]
           == CbcDecrypt(DecryptWith(Keys()), Xor, iv, input[..whole])[..at + chunk / 16 * 16]
      ensures forall k | at + QuadBytes(chunk) <= k < output.Length :: output[k] == old(output[k])
    {
      hide *;
      Sizes();
      ghost var ct, count := input[..whole], chunk / 16 * 16;
      ghost var plain := CbcDecrypt(DecryptWith(Keys()), Xor, iv, ct);
      ChunkFits(chunk);
      var dmaSize := QuadBytes(chunk);
      CopyBytes(input, at, bufferIn, 0, dmaSize);
      FetchedPart(bufferIn[..], input[..], at, dmaSize, count, whole);
      assert bufferIn[..][..count] == bufferIn[..count];
      Sizes();
      DecryptChunk(iv, ct, at, chunk, count, prev);
      SendBack(output, at, dmaSize, count);
      assert plain[..at + count] == plain[..at] + plain[at..at + count];
      Sizes();
    }

    /** A transfer of `size` bytes out, of which the first `count` matter. */
    method SendBack(output: array<bv8>, at: nat, size: nat, ghost count: nat)
      requires Valid() && count <= size <= MAX_CHUNK_SIZE && at + size <= output.Length && output != bufferOut
      modifies output
      ensures output[..at + count] == old(output[..at]) + bufferOut[..count]
      ensures forall k | at + size <= k < output.Length :: output[k] == old(output[k])
    {
      hide *;
      Sizes();
      ghost var before := output[..];
      CopyBytes(bufferOut, 0, output, at, size);
      PartPlaced(output[..], before[..at], bufferOut[0..size], before[at + size..], count);
      assert bufferOut[0..size][..count] == bufferOut[..count];
      assert output[..][..at + count] == output[..at + count];
      assert forall k | at + size <= k < output.Length :: output[k] == before[k];
    }

    /**
     The CBC command: the whole blocks of `dataLen` bytes of `input` are decrypted into `output`,
     chunk by chunk. Transfers are whole quadwords, so a last partial block overwrites the output
     up to the next multiple of sixteen, and nothing behind it.
     */
    method CbcCommand(key: Block, iv: Block, input: array<bv8>, output: array<bv8>, dataLen: nat)
      requires Valid() && QuadBytes(dataLen) <= input.Length && QuadBytes(dataLen) <= output.Length
      requires input !in {roundKeys, bufferIn, bufferOut, output} && output !in {roundKeys, bufferIn, bufferOut}
      modifies roundKeys, bufferIn, bufferOut, output
      ensures Keys() == KernelKeys(key)
      ensures var whole := dataLen / 16 * 16;
        output[..whole] == CbcDecrypt(DecryptWith(Keys()), Xor, iv, input[..whole])
      ensures output[QuadBytes(dataLen)..] == old(output[QuadBytes(dataLen)..])
    {
      hide *;
      Sizes();
      KeyExpansion(key);
      var whole := dataLen / 16 * 16;
      ghost var w, ct := Keys(), input[..whole];
      ghost var plain := CbcDecrypt(DecryptWith(w), Xor, iv, ct);
      var prev := new bv8[16](i requires 0 <= i < 16 => iv[i]);
      FirstPrevious(iv, ct);
      assert prev[..] == iv;
      var remaining, at := dataLen, 0;
      ghost var done := 0;
      NoData(dataLen);
      while remaining > 0
        invariant 0 <= at <= dataLen && at + remaining == dataLen && 0 <= done <= whole
        invariant if remaining > 0 then at == done && at % 16 == 0 else done == whole
        invariant Keys() == w && input[..whole] == ct && prev[..] == Previous(iv, ct, done)
        invariant output[..done] == plain[..done]
        invariant forall k | QuadBytes(dataLen) <= k < output.Length :: output[k] == old(output[k])
      {
        Sizes();
        var chunk := if remaining > MAX_CHUNK_SIZE then MAX_CHUNK_SIZE else remaining;
        ChunkInData(at, chunk, dataLen);
        NextChunk(iv, input, output, at, chunk, whole, prev);
        done := done + chunk / 16 * 16;
        at := at + chunk;
        remaining := remaining - chunk;
        Sizes();
      }
      assert output[QuadBytes(dataLen)..] == old(output[QuadBytes(dataLen)..]);
    }
  }

  lemma FetchedPart(staged: seq<bv8>, source: seq<bv8>, at: nat, size: nat, count: nat, whole: nat)
    requires count <= size <= |staged| && at + size <= |source| && at + count <= whole <= |source|
    requires staged == source[at..at + size] + staged[size..]
    ensures staged[..count] == source[..whole][at..at + count]
  {
    assert forall k | 0 <= k < count :: staged[k] == source[at + k] == source[..whole][at + k];
  }

  lemma PartPlaced(whole: seq<bv8>, before: seq<bv8>, middle: seq<bv8>, after: seq<bv8>, count: nat)
    requires whole == before + middle + after && count <= |middle|
    ensures whole[..|before| + count] == before + middle[..count]
  {
  }

  lemma NoData(dataLen: nat)
    ensures dataLen / 16 * 16 <= dataLen && (dataLen == 0 ==> dataLen / 16 * 16 == 0)
    ensures dataLen / 16 * 16 % 16 == 0 && dataLen <= QuadBytes(dataLen)
  {
  }

  lemma ChunkFits(chunk: nat)
    requires chunk <= MAX_CHUNK_SIZE
    ensures chunk / 16 * 16 <= QuadBytes(chunk) <= MAX_CHUNK_SIZE == 16384
  {
  }

  lemma ChunkInData(at: nat, chunk: nat, dataLen: nat)
    requires at % 16 == 0 && at + chunk <= dataLen
    ensures at + chunk / 16 * 16 <= dataLen / 16 * 16 && at + QuadBytes(chunk) <= QuadBytes(dataLen)
    ensures at + chunk == dataLen ==> at + chunk / 16 * 16 == dataLen / 16 * 16
    ensures chunk == MAX_CHUNK_SIZE ==> chunk / 16 * 16 == chunk && (at + chunk) % 16 == 0
  {
    var q := at / 16;
    assert at == 16 * q;
    assert (16 * q + chunk) / 16 == q + chunk / 16;
  }

  lemma FourAt(a: array<bv8>, at: nat)
    requires at + 4 <= a.Length
    ensures a[at..at + 4] == [a[at], a[at + 1], a[at + 2], a[at + 3]]
  {
  }

  lemma MixedColumn(mix: Op4, a: bv8, b: bv8, c: bv8, d: bv8, s0: bv8, s1: bv8, s2: bv8, s3: bv8)
    requires s0 == mix(a, b, c, d) && s1 == mix(b, c, d, a) && s2 == mix(c, d, a, b) && s3 == mix(d, a, b, c)
    ensures [s0, s1, s2, s3] == MixColumn(mix, [a, b, c, d])
  {
  }

  lemma MixedColumns(mix: Op4, t: Block, s: Block)
    requires forall k | 0 <= k < 4 :: s[4 * k..4 * k + 4] == MixColumn(mix, t[4 * k..4 * k + 4])
    ensures s == MixColumns(mix, t)
  {
    hide MixColumn;
    assert s[0..4] == s[4 * 0..4 * 0 + 4] && s[4..8] == s[4 * 1..4 * 1 + 4];
    assert s[8..12] == s[4 * 2..4 * 2 + 4] && s[12..16] == s[4 * 3..4 * 3 + 4];
    assert s == s[0..4] + s[4..8] + s[8..12] + s[12..16];
  }

  /** The kernel's sum of four products, in any of its four orders, is one byte of InvMixColumns. */
  lemma FourProducts(a: bv8, b: bv8, c: bv8, d: bv8, p: bv8, q: bv8, r: bv8, s: bv8)
    requires p == Times(a, 0x0e) && q == Times(b, 0x0b) && r == Times(c, 0x0d) && s == Times(d, 0x09)
    ensures InvMixByte(a, b, c, d) == p ^ q ^ r ^ s == s ^ p ^ q ^ r == r ^ s ^ p ^ q == q ^ r ^ s ^ p
  {
    assert p ^ q ^ r ^ s == (p ^ q) ^ (r ^ s) && p ^ q ^ r ^ s == s ^ p ^ q ^ r;
    assert p ^ q ^ r ^ s == r ^ s ^ p ^ q && p ^ q ^ r ^ s == q ^ r ^ s ^ p;
    XorOfFour(p, q, r, s);
    hide Xor, Times;
  }

  lemma DecryptOf(w: RoundKeys, ct: Block)
    ensures Decrypt(w, ct) == InvCipher(InvSbox, Xor, InvMixByte, w, ct)
  {
    hide InvCipher, Xor, InvSbox, InvMixByte;
  }
}
