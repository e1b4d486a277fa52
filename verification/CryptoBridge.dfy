/**
 The two crypto commands from end to end: the bridge checks and stages its caller's bytes in
 bounce buffers, the SPU command works on those in chunks, and the bridge hands out the result.
 How the two processors take turns is module Mailbox.
 */
module CryptoBridge {
  import opened HashFold
  import opened Memory
  import opened Sha256Words
  import opened Sha256
  import opened Blocks
  import opened Cbc
  import opened Gf256
  import opened Aes
  import opened BlockLoops
  import opened AesKernel
  import opened KeySchedule
  import opened Wrappers

  datatype Error = Invalid | NoMemory | TimedOut

  const BOUNCE_SIZE := 16384

  lemma RoundedStays(n: nat, limit: nat)
    requires n <= limit && limit % 16 == 0
    ensures QuadBytes(n) <= limit
  {
  }

  lemma RoundedRest(n: nat, at: nat, chunk: nat)
    requires at + chunk <= n && at % 16 == 0
    ensures at + QuadBytes(chunk) <= QuadBytes(n)
  {
  }

  lemma ChunkSize()
    ensures 0 < MAX_CHUNK_SIZE == BOUNCE_SIZE == 16384 < TWO32 == 0x1_0000_0000 && MAX_CHUNK_SIZE % 16 == 0
  {
  }

  /** One chunk of the SHA command: transferred in and absorbed. */
  method HashChunk(ctx: Context, bufferIn: array<bv8>, input: array<bv8>, at: nat, chunk: nat)
    requires ctx.Valid() && {bufferIn, input} !! {ctx.buffer} && bufferIn != input
    requires chunk <= MAX_CHUNK_SIZE == bufferIn.Length && at + QuadBytes(chunk) <= input.Length
    modifies ctx, ctx.state, ctx.buffer, bufferIn
    ensures ctx.Valid() && ctx.message == old(ctx.message) + input[at..at + chunk]
  {
    hide *;
    ChunkSize();
    var dmaSize := QuadBytes(chunk);
    RoundedStays(chunk, MAX_CHUNK_SIZE);
    ghost var staged := input[at..at + chunk];
    CopyBytes(input, at, bufferIn, 0, dmaSize);
    assert bufferIn[..chunk] == staged;
    ctx.Update(bufferIn[..chunk]);
  }

  /** The SHA command: `dataLen` bytes of `input`, chunk by chunk. */
  method HashCommand(bufferIn: array<bv8>, input: array<bv8>, dataLen: nat) returns (hash: seq<bv8>)
    requires dataLen < TWO32 && QuadBytes(dataLen) <= input.Length
    requires bufferIn.Length == MAX_CHUNK_SIZE && bufferIn != input
    modifies bufferIn
    ensures hash == Digest(input[..dataLen])
  {
    hide *;
    ChunkSize();
    var ctx := new Context();
    ghost var m := input[..dataLen];
    var remaining, at := dataLen, 0;
    while remaining > 0
      invariant 0 <= at <= dataLen == at + remaining && ctx.Valid() && input[..dataLen] == m
      invariant fresh(ctx) && fresh(ctx.state) && fresh(ctx.buffer)
      invariant ctx.message == m[..at]
      invariant at % 16 == 0 || remaining == 0
    {
      var chunk := if remaining > MAX_CHUNK_SIZE then MAX_CHUNK_SIZE else remaining;
      RoundedRest(dataLen, at, chunk);
      HashChunk(ctx, bufferIn, input, at, chunk);
      assert m[..at] + input[at..at + chunk] == m[..at + chunk];
      at := at + chunk;
      remaining := remaining - chunk;
    }
    assert m[..dataLen] == m;
    hash := ctx.Finish();
  }

  /**
   The caller's side: the static bounce buffers and the engine that serves the commands. A call
   whose poll gives up leaves the worker at work; `late` says that it may still be, and `busy`
   whether the status field of the command block reads busy between calls. The two agree as long
   as no call is made while the field reads busy.
   */
  class Bridge {
    const engine: Engine
    const bounceIn: array<bv8>
    const bounceOut: array<bv8>
    var initialized: bool
    var busy: bool
    var late: bool

    ghost predicate Valid()
      reads this, engine
    {
      && engine.Valid() && bounceIn.Length == bounceOut.Length == BOUNCE_SIZE && bounceIn != bounceOut
      && bounceIn !in {engine.roundKeys, engine.bufferIn, engine.bufferOut}
      && bounceOut !in {engine.roundKeys, engine.bufferIn, engine.bufferOut}
    }

    lemma Fields()
      requires Valid()
      ensures engine.Valid() && bounceIn.Length == bounceOut.Length == BOUNCE_SIZE && bounceIn != bounceOut
      ensures bounceIn !in {engine.roundKeys, engine.bufferIn, engine.bufferOut}
      ensures bounceOut !in {engine.roundKeys, engine.bufferIn, engine.bufferOut}
    {
      hide Engine.Valid;
    }

    /**
     Initialization up to the self-test, which is a first call. The command block is all zeros
     before that, and zero reads as busy.
     */
    constructor (inTime: bool)
      ensures Valid() && initialized && busy == late == !inTime && fresh(bounceIn) && fresh(bounceOut)
      ensures fresh(engine) && fresh({engine.roundKeys, engine.bufferIn, engine.bufferOut})
    {
      engine := new Engine();
      bounceIn := new bv8[BOUNCE_SIZE](_ => 0);
      bounceOut := new bv8[BOUNCE_SIZE](_ => 0);
      initialized, busy, late := true, true, false;
      new;
      var _ := Sha256(true, [0x61, 0x62, 0x63], inTime, []);
    }

    /** Between two calls the worker ends what it was left with, and goes to sleep. */
    method WritesBack()
      requires Valid() && late
      modifies this`busy, this`late
      ensures Valid() && !busy && !late
    {
      busy, late := false, false;
    }

    /** The poll after a command has been staged. */
    method Poll(inTime: bool)
      requires Valid()
      modifies this`busy, this`late
      ensures Valid() && busy == !inTime && late == (old(late) || !inTime)
    {
      busy := !inTime;
      late := late || !inTime;
    }

    /**
     Hashes at most one bounce buffer of bytes. `present` says that no pointer argument is null,
     `inTime` that a write-back ends the poll before it gives up. While the worker is late that
     may be the write-back for an earlier call, and `found` is what the caller then reads.
     */
    method Sha256(present: bool, input: seq<bv8>, inTime: bool, found: seq<bv8>) returns (r: Result<seq<bv8>, Error>)
      requires Valid()
      modifies bounceIn, engine.bufferIn, this`busy, this`late
      ensures Valid()
      ensures r == if !initialized || !present then Err(Invalid)
                   else if |input| > 16384 then Err(NoMemory)
                   else if !inTime then Err(TimedOut)
                   else if old(late) then Ok(found)
                   else Ok(Digest(input))
      ensures late == (old(late) || r == Err(TimedOut))
      ensures busy == if r.Ok? then false else if r == Err(TimedOut) then true else old(busy)
      ensures old(busy == late) && !old(busy) ==> busy == late && (r.Ok? ==> r.value == Digest(input))
    {
      hide *;
      ChunkSize();
      if !initialized || !present {
        return Err(Invalid);
      }
      if |input| > BOUNCE_SIZE {
        return Err(NoMemory);
      }
      Fields();
      engine.Sizes();
      CopyInto(input, bounceIn, 0);
      RoundedStays(|input|, BOUNCE_SIZE);
      CopyInto(Zeros(QuadBytes(|input|) - |input|), bounceIn, |input|);
      assert bounceIn[..|input|] == input;
      var hash := HashCommand(engine.bufferIn, bounceIn, |input|);
      var wasLate := late;
      Poll(inTime);
      r := if !inTime then Err(TimedOut) else Ok(if wasLate then found else hash);
    }

    /**
     Decrypts whole blocks, at most one bounce buffer of them. Unless the worker is late, what
     was encrypted with the standard's keys comes back if their schedule never looks up 0xa7.
     */
    method Aes128CbcDecrypt(present: bool, key: Block, iv: Block, input: seq<bv8>, inTime: bool, found: seq<bv8>)
      returns (r: Result<seq<bv8>, Error>)
      requires Valid()
      modifies bounceIn, bounceOut, engine.roundKeys, engine.bufferIn, engine.bufferOut, this`busy, this`late
      ensures Valid()
      ensures r == if !initialized || !present || |input| % 16 != 0 || |input| == 0 then Err(Invalid)
                   else if |input| > 16384 then Err(NoMemory)
                   else if !inTime then Err(TimedOut)
                   else if old(late) then Ok(found)
                   else Ok(CbcDecrypt(DecryptWith(KernelKeys(key)), Xor, iv, input))
      ensures r.Ok? && !old(late) && Avoids(StandardKeys(key), 0xa7) ==>
        forall pt: seq<bv8> | |pt| % 16 == 0 && input == CbcEncrypt(EncryptWith(StandardKeys(key)), Xor, iv, pt) ::
          r.value == pt
      ensures late == (old(late) || r == Err(TimedOut))
      ensures busy == if r.Ok? then false else if r == Err(TimedOut) then true else old(busy)
      ensures old(busy == late) && !old(busy) ==>
        busy == late && (r.Ok? ==> r.value == CbcDecrypt(DecryptWith(KernelKeys(key)), Xor, iv, input))
    {
      hide *;
      ChunkSize();
      if !initialized || !present || |input| % 16 != 0 || |input| == 0 {
        return Err(Invalid);
      }
      if |input| > BOUNCE_SIZE {
        return Err(NoMemory);
      }
      Fields();
      WholeQuads(|input|);
      CopyInto(input, bounceIn, 0);
      assert bounceIn[..|input|] == input;
      engine.CbcCommand(key, iv, bounceIn, bounceOut, |input|);
      var wasLate := late;
      Poll(inTime);
      if !inTime {
        return Err(TimedOut);
      }
      r := Ok(if wasLate then found else bounceOut[..|input|]);
      if !wasLate && Avoids(StandardKeys(key), 0xa7) {
        forall pt: seq<bv8> | |pt| % 16 == 0 && input == CbcEncrypt(EncryptWith(StandardKeys(key)), Xor, iv, pt)
          ensures r.value == pt
        {
          DecryptsStandard(key, iv, pt);
        }
      }
    }
  }

  lemma WholeQuads(n: nat)
    requires n % 16 == 0
    ensures QuadBytes(n) == n && n / 16 * 16 == n
  {
  }
}
