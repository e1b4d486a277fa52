/**
 The streaming SHA-256 of the SPU kernel: the context with its byte count in two words, its
 hash state and its block buffer.
 */
module Sha256 {
  import opened Compression
  import opened HashFold
  import opened Memory
  import opened Sha256Words

  /** The padding table: one bit, then zeros. */
  const PADDING: Chunk := [0x80] + Zeros(63)

  lemma PaddingTable(len: nat)
    requires 1 + ZeroCount(len) <= 64
    ensures PADDING[..1 + ZeroCount(len)] == [0x80] + Zeros(ZeroCount(len))
  {
    hide ZeroCount;
  }

  /** A word of the byte count is enough to know the bytes past the last block. */
  lemma LowSixBits(len: nat)
    ensures len % TWO32 % 64 == len % 64
  {
    var q := len / TWO32;
    assert len == 64 * (q * 0x400_0000) + len % TWO32;
  }

  class Context {
    var total0: nat
    var total1: nat
    const state: array<bv32>
    const buffer: array<bv8>

    /** What has been absorbed since the start. */
    ghost var message: seq<bv8>

    ghost predicate Valid()
      reads this, state, buffer
    {
      && state.Length == 8 && buffer.Length == 64
      && total0 == |message| % TWO32 && total1 == |message| / TWO32 % TWO32
      && Absorbed<State>(CompressBlock, H0, state[..], buffer[..|message| % 64], message)
    }

    lemma Fields()
      requires Valid()
      ensures state.Length == 8 && buffer.Length == 64
      ensures total0 == |message| % TWO32 && total1 == |message| / TWO32 % TWO32
      ensures total0 % 64 == |message| % 64
      ensures Absorbed<State>(CompressBlock, H0, state[..], buffer[..|message| % 64], message)
    {
      hide Absorbed;
      LowSixBits(|message|);
    }

    lemma Established()
      requires state.Length == 8 && buffer.Length == 64
      requires total0 == |message| % TWO32 && total1 == |message| / TWO32 % TWO32
      requires Absorbed<State>(CompressBlock, H0, state[..], buffer[..|message| % 64], message)
      ensures Valid()
    {
    }

    constructor ()
      ensures Valid() && message == [] && fresh(state) && fresh(buffer)
    {
      total0, total1 := 0, 0;
      state := new bv32[8](i requires 0 <= i < 8 => H0[i]);
      buffer := new bv8[64](_ => 0);
      message := [];
      new;
      hide *;
      assert state[..] == H0;
      AbsorbedNothing<State>(CompressBlock, H0);
      assert buffer[..0] == [];
      Established();
    }

    /** One block compressed into the state. */
    method Process(data: Chunk)
      requires state.Length == 8
      modifies state
      ensures state[..] == CompressBlock(old(state[..]), data)
    {
      hide *;
      KernelCompression(state[..], data);
      Compression.Process(KERNEL, K, state, WordsOf(data));
    }

    method Count(n: nat)
      requires n < TWO32 && total0 == |message| % TWO32 && total1 == |message| / TWO32 % TWO32
      modifies this`total0, this`total1
      ensures total0 == (|message| + n) % TWO32 && total1 == (|message| + n) / TWO32 % TWO32
    {
      hide *;
      CountedOn(|message|, n, total0, total1);
      total0 := (total0 + n) % TWO32;
      if total0 < n {
        total1 := (total1 + 1) % TWO32;
      }
    }

    /** The first branch of the update: the bytes that complete the block in the buffer. */
    method Complete(left: nat, more: seq<bv8>, ghost m: seq<bv8>)
      requires state.Length == 8 && buffer.Length == 64 && left + |more| == 64 && left == |m| % 64
      requires Absorbed<State>(CompressBlock, H0, state[..], buffer[..left], m)
      modifies state, buffer
      ensures Absorbed<State>(CompressBlock, H0, state[..], [], m + more)
    {
      hide *;
      ghost var s, rest := state[..], buffer[..left];
      CopyInto(more, buffer, left);
      assert buffer[..] == rest + more;
      Process(buffer[..]);
      AbsorbedBlock<State>(CompressBlock, H0, s, rest, m, more);
    }

    /** The last step of the update: what does not fill a block goes into the buffer. */
    method Keep(left: nat, more: seq<bv8>, ghost m: seq<bv8>)
      requires state.Length == 8 && buffer.Length == 64 && left + |more| < 64 && left == |m| % 64
      requires Absorbed<State>(CompressBlock, H0, state[..], buffer[..left], m)
      modifies buffer
      ensures Absorbed<State>(CompressBlock, H0, state[..], buffer[..|m + more| % 64], m + more)
    {
      hide *;
      ghost var rest := buffer[..left];
      CopyInto(more, buffer, left);
      AbsorbedTail<State>(CompressBlock, H0, state[..], rest, m, more);
      Modulo(|m| / 64, left + |more|);
      assert buffer[..left + |more|] == rest + more;
    }

    /** The branch, the loop over whole blocks and the tail of the update. */
    method Absorb(left: nat, input: seq<bv8>, ghost m: seq<bv8>)
      requires state.Length == 8 && buffer.Length == 64 && left == |m| % 64
      requires Absorbed<State>(CompressBlock, H0, state[..], buffer[..left], m)
      modifies state, buffer
      ensures Absorbed<State>(CompressBlock, H0, state[..], buffer[..|m + input| % 64], m + input)
    {
      hide *;
      var left, rest, fill := left, input, 64 - left;
      ghost var done := m;
      if left != 0 && |rest| >= fill {
        Complete(left, rest[..fill], done);
        done := done + rest[..fill];
        Modulo(|m| / 64, 64);
        rest, left := rest[fill..], 0;
      }
      assert done + rest == m + input;
      while |rest| >= 64
        invariant done + rest == m + input && left == |done| % 64 && (left != 0 ==> left + |rest| < 64)
        invariant Absorbed<State>(CompressBlock, H0, state[..], buffer[..left], done)
      {
        assert buffer[..0] == [];
        Complete(0, rest[..64], done);
        Modulo(|done| / 64, 64);
        assert rest == rest[..64] + rest[64..];
        done, rest := done + rest[..64], rest[64..];
      }
      Keep(left, rest, done);
    }

    /** Absorbs more bytes; `size_t` has 32 bits on the SPU. */
    method Update(input: seq<bv8>)
      requires Valid() && |input| < TWO32
      modifies this, state, buffer
      ensures Valid() && message == old(message) + input
    {
      hide *;
      if |input| == 0 {
        assert message + input == message;
        return;
      }
      Fields();
      var left := total0 % 64;
      Count(|input|);
      Absorb(left, input, message);
      message := message + input;
      Established();
    }

    /** The two length words, as the kernel computes them. */
    method LengthBytes() returns (msglen: seq<bv8>)
      requires Valid() && |message| < 0x2000_0000_0000_0000
      ensures msglen == BigEndian(8 * |message|, 8)
    {
      hide *;
      Fields();
      LengthBytesOf(|message|, total0, total1);
      var high := Or(total0 / 0x2000_0000, total1 * 8 % TWO32);
      var low := total0 * 8 % TWO32;
      msglen := PutUint32(high) + PutUint32(low);
    }

    /** How much of the padding table comes before the length. */
    method PadCount() returns (padn: nat)
      requires Valid()
      ensures padn == 1 + ZeroCount(|message|) <= 64
    {
      hide *;
      Fields();
      var last := total0 % 64;
      padn := if last < 56 then 56 - last else 120 - last;
      KernelPadding(|message|);
    }

    /** Pads the message and hands out its digest. */
    method Finish() returns (output: seq<bv8>)
      requires Valid() && |message| < 0x2000_0000_0000_0000
      modifies this, state, buffer
      ensures output == Digest(old(message))
    {
      hide *;
      ghost var m := message;
      var msglen := LengthBytes();
      var padn := PadCount();
      PaddingTable(|m|);
      FewBytes(padn);
      Update(PADDING[..padn]);
      BigEndianLength(8 * |m|, 8);
      FewBytes(8);
      Update(msglen);
      PaddingOf(|m|);
      assert message == m + Padding(|m|);
      output := Output();
      DigestOf(m);
    }

    /** The digest of a message that ends on a block boundary. */
    method Output() returns (output: seq<bv8>)
      requires Valid() && |message| % 64 == 0
      ensures output == Bytes(Folded(message))
    {
      hide *;
      Fields();
      AbsorbedAll<State>(CompressBlock, H0, state[..], buffer[..|message| % 64], message);
      FoldedOf(message);
      output := WordBytes(state[..]);
    }
  }

  lemma FewBytes(n: nat)
    requires n <= 64
    ensures n < TWO32
  {
  }

  lemma PaddingOf(len: nat)
    ensures Padding(len) == [0x80] + Zeros(ZeroCount(len)) + BigEndian(8 * len, 8)
  {
    hide ZeroCount, BigEndian;
  }

  lemma FoldedOf(m: seq<bv8>)
    requires |m| % 64 == 0
    ensures Folded(m) == Fold<State>(CompressBlock, H0, m)
  {
    hide Fold;
  }

  lemma DigestOf(m: seq<bv8>)
    ensures |m + Padding(|m|)| % 64 == 0 && Digest(m) == Bytes(Folded(m + Padding(|m|)))
  {
    hide Folded, Bytes, Padding;
    PaddedToBlocks(m);
  }

  lemma PutIsBigEndian(n: nat)
    requires n < TWO32
    ensures PutUint32(n) == BigEndian(n, 4)
  {
    hide BigEndian, PutUint32;
    BigEndianSplits(n, 0, 0, n);
    NoBytes(0);
  }

  lemma LengthBytesOf(len: nat, total0: nat, total1: nat)
    requires len < 0x2000_0000_0000_0000
    requires total0 == len % TWO32 && total1 == len / TWO32 % TWO32
    ensures Or(total0 / 0x2000_0000, total1 * 8 % TWO32) < TWO32 && total0 * 8 % TWO32 < TWO32
    ensures BigEndian(8 * len, 8)
         == PutUint32(Or(total0 / 0x2000_0000, total1 * 8 % TWO32)) + PutUint32(total0 * 8 % TWO32)
  {
    hide Or, PutUint32, BigEndian;
    LengthWords(len, total0, total1);
    EightBytes(8 * len);
  }

  /** The eight words written out one after the other. */
  method WordBytes(s: State) returns (b: seq<bv8>)
    ensures b == Bytes(s)
  {
    hide *;
    Uint32Bytes(s[0]); Uint32Bytes(s[1]); Uint32Bytes(s[2]); Uint32Bytes(s[3]);
    Uint32Bytes(s[4]); Uint32Bytes(s[5]); Uint32Bytes(s[6]); Uint32Bytes(s[7]);
    BytesOf(s);
    b := PutUint32(s[0] as nat) + PutUint32(s[1] as nat) + PutUint32(s[2] as nat) + PutUint32(s[3] as nat)
       + PutUint32(s[4] as nat) + PutUint32(s[5] as nat) + PutUint32(s[6] as nat) + PutUint32(s[7] as nat);
  }

  lemma Uint32Bytes(w: bv32)
    ensures w as nat < TWO32 && PutUint32(w as nat) == BigEndian(w as nat, 4)
  {
    hide BigEndian, PutUint32;
    PutIsBigEndian(w as nat);
  }

  function Joined(pieces: seq<seq<bv8>>): seq<bv8> {
    if pieces == [] then [] else Joined(pieces[..|pieces| - 1]) + pieces[|pieces| - 1]
  }

  lemma JoinedOne(pieces: seq<seq<bv8>>, i: nat)
    requires i < |pieces|
    ensures Joined(pieces[..i + 1]) == Joined(pieces[..i]) + pieces[i]
  {
    assert pieces[..i + 1][..i] == pieces[..i];
  }

  /** However a message is cut into updates, the digest is that of the whole. */
  method HashPieces(pieces: seq<seq<bv8>>) returns (output: seq<bv8>)
    requires |Joined(pieces)| < 0x2000_0000_0000_0000
    requires forall i | 0 <= i < |pieces| :: |pieces[i]| < TWO32
    ensures output == Digest(Joined(pieces))
  {
    hide Digest, Context.Valid;
    var ctx := new Context();
    for i := 0 to |pieces|
      invariant ctx.Valid() && fresh(ctx) && fresh(ctx.state) && fresh(ctx.buffer)
      invariant ctx.message == Joined(pieces[..i])
    {
      JoinedOne(pieces, i);
      ctx.Update(pieces[i]);
    }
    assert pieces[..|pieces|] == pieces;
    output := ctx.Finish();
  }
}
