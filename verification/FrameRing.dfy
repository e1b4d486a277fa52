/**
 The frame pool as the program keeps it: a ring of six ready entries with head, tail and count.
 Every method is one atomic section of the two threads and is proved to be that step of the
 pool.
 */
module FrameRing {
  import opened Circular
  import opened FramePool

  class Ring<T> {
    const readyQueue: array<Buffer>
    var readyHead: nat
    var readyTail: nat
    var readyCount: nat
    var writeBuf: Buffer
    var frontBuf: int

    /** What the six frame buffers hold. */
    var frames: seq<T>

    ghost var published: seq<T>
    ghost var shown: seq<int>
    ghost var dropped: nat

    ghost predicate Shape()
      reads this
    {
      && readyQueue.Length == FRAME_COUNT && |frames| == FRAME_COUNT
      && readyTail < FRAME_COUNT && readyCount <= QUEUE_LIMIT
      && readyHead == Place(FRAME_COUNT, readyTail, readyCount)
    }

    ghost function Pool(): (s: State<T>)
      requires Shape()
      reads this, readyQueue
      ensures |s.contents| == FRAME_COUNT
    {
      State(Slots(readyQueue[..], readyTail, readyCount), writeBuf, frontBuf, frames, published, shown, dropped)
    }

    ghost predicate Valid()
      reads this, readyQueue
    {
      Shape() && Safe(Pool())
    }

    constructor (bufs: seq<T>)
      requires |bufs| == FRAME_COUNT
      ensures Valid() && Pool() == Start(bufs) && fresh(readyQueue)
      ensures Pool() == State([], 0, -1, bufs, [], [], 0)
    {
      readyQueue := new Buffer[FRAME_COUNT](_ => 0);
      frames := bufs;
      readyHead, readyTail, readyCount := 0, 0, 0;
      writeBuf, frontBuf := 0, -1;
      published, shown, dropped := [], [], 0;
    }

    /** A piece of the picture write, outside the lock. */
    method Write(data: T)
      requires Valid()
      modifies this`frames
      ensures Valid() && Pool() == Next(old(Pool()), Step.Write(data))
    {
      hide Safe;
      StepKeeps(Pool(), Step.Write(data));
      frames := frames[writeBuf := data];
    }

    /** The scan of the ready entries. */
    method IsFree(b: Buffer) returns (free: bool)
      requires Shape()
      ensures free <==> !Taken(Pool(), b)
    {
      free := b != frontBuf;
      var j := 0;
      while j < readyCount
        invariant 0 <= j <= readyCount && (forall i | 0 <= i < j :: Pool().queue[i] != b)
        invariant free <==> b != frontBuf
      {
        if readyQueue[(readyTail + j) % FRAME_COUNT] == b {
          assert Pool().queue[j] == b;
          free := false;
          return;
        }
        j := j + 1;
      }
    }

    /** The search for the next write buffer; it ends within five probes. */
    method FindFree() returns (next: Buffer, ghost probes: nat)
      requires Shape() && Taken(Pool(), writeBuf)
      ensures next == FirstFree(Pool(), (writeBuf + 1) % FRAME_COUNT, 4) && !Taken(Pool(), next)
      ensures 1 <= probes <= 5
    {
      hide FirstFree, Taken;
      ghost var s := Pool();
      FreeWithinFive(s, writeBuf);
      next := (writeBuf + 1) % FRAME_COUNT;
      probes := 1;
      while true
        invariant 1 <= probes <= 5
        invariant FirstFree(s, (writeBuf + 1) % FRAME_COUNT, 4) == FirstFree(s, next, 5 - probes)
        decreases 5 - probes
      {
        var free := IsFree(next);
        Probe(s, next, 5 - probes);
        if free { return; }
        LastProbe(s, next);
        next := (next + 1) % FRAME_COUNT;
        probes := probes + 1;
      }
    }

    /** The push, which makes room by dropping the oldest entry of a full queue. */
    method Push()
      requires Shape()
      modifies this, readyQueue
      ensures Shape() && Pool() == Pushed(old(Pool())) && writeBuf == old(writeBuf)
    {
      hide Slots, Place;
      SlotsPushed(readyQueue[..], readyTail, readyCount, writeBuf);
      published := published + [frames[writeBuf]];
      readyQueue[readyHead] := writeBuf;
      Wrapped(readyTail, readyCount);
      readyHead := (readyHead + 1) % FRAME_COUNT;
      if readyCount < FRAME_COUNT - 2 {
        readyCount := readyCount + 1;
      } else {
        SlotsDropped(readyQueue[..], readyTail, readyCount + 1, 1);
        readyTail := (readyTail + 1) % FRAME_COUNT;
        dropped := dropped + 1;
      }
    }

    /** The section that publishes the picture just written. */
    method Publish()
      requires Valid()
      modifies this, readyQueue
      ensures Valid() && Pool() == Next(old(Pool()), Step.Publish)
    {
      hide Safe, SafeButWrite, Pushed, FirstFree, Taken, Slots;
      StepKeeps(Pool(), Step.Publish);
      PushKeeps(Pool());
      Push();
      var next, _ := FindFree();
      writeBuf := next;
    }

    /** The drain of all entries but the newest. */
    method Drain()
      requires Shape() && readyCount > 0
      modifies this`readyTail, this`readyCount, this`dropped
      ensures Shape() && readyCount == 1 && dropped == old(dropped) + old(readyCount) - 1
      ensures Pool().queue[0] == old(Pool()).queue[old(readyCount) - 1]
    {
      hide Slots, Place;
      ghost var q := Pool().queue;
      while readyCount > 1
        invariant Shape() && 1 <= readyCount <= |q| && Pool().queue == q[|q| - readyCount..]
        invariant dropped == old(dropped) + |q| - readyCount
      {
        SlotsDropped(readyQueue[..], readyTail, readyCount, 1);
        Wrapped(readyTail, readyCount - 1);
        readyTail := (readyTail + 1) % FRAME_COUNT;
        readyCount := readyCount - 1;
        dropped := dropped + 1;
      }
    }

    /** The section that picks the newest picture for the screen. */
    method Draw() returns (drawIdx: int)
      requires Valid()
      modifies this
      ensures Valid() && Pool() == Next(old(Pool()), Step.Draw) && drawIdx == frontBuf
    {
      hide Safe;
      StepKeeps(Pool(), Step.Draw);
      if readyCount > 0 {
        Drain();
        frontBuf := readyQueue[readyTail];
        readyTail := (readyTail + 1) % FRAME_COUNT;
        readyCount := readyCount - 1;
        shown := shown + [|published| - 1];
      }
      drawIdx := frontBuf;
    }

    /** The section of the other thread, if it comes here. */
    method DrawIf(drawn: bool, ghost start: State<T>, ghost steps: seq<Step<T>>) returns (ghost steps': seq<Step<T>>)
      requires Valid() && |start.contents| == FRAME_COUNT && Pool() == Run(start, steps)
      modifies this
      ensures Valid() && Pool() == Run(start, steps') && steps' == steps + DrawSteps(drawn)
    {
      hide Safe, Next, Run, Slots;
      RunOne(start, steps, Step.Draw);
      steps' := steps + DrawSteps(drawn);
      if drawn { var _ := Draw(); }
    }

    /** One poll: every picture the decoder hands out is published, whenever the other thread draws. */
    method Poll(pictures: seq<Decoded<T>>)
      requires Valid()
      modifies this, readyQueue
      ensures Valid() && Pool() == Run(old(Pool()), PollSteps(pictures))
      ensures published == old(published) + seq(|pictures|, i requires 0 <= i < |pictures| => pictures[i].data)
    {
      hide Safe, Next, Run, Slots, PollSteps, DrawSteps, PictureSteps;
      ghost var start := Pool();
      PollPublishes(start, pictures);
      NoPictures(start);
      for i := 0 to |pictures|
        invariant Valid() && Pool() == Run(start, PollSteps(pictures[..i]))
      {
        var p := pictures[i];
        ghost var steps := PollSteps(pictures[..i]);
        PollOneMore(pictures, i);
        RunOne(start, steps, Step.Write(p.data));
        Write(p.data);
        steps := DrawIf(p.drawnBefore, start, steps + [Step.Write(p.data)]);
        RunOne(start, steps, Step.Publish);
        Publish();
        steps := DrawIf(p.drawnAfter, start, steps + [Step.Publish]);
      }
      assert pictures[..|pictures|] == pictures;
    }
  }

  /** A picture that the decoder hands out, and whether a draw comes before and after its publication. */
  datatype Decoded<T> = Decoded(data: T, drawnBefore: bool, drawnAfter: bool)

  function DrawSteps<T>(drawn: bool): seq<Step<T>> {
    if drawn then [Draw] else []
  }

  function PictureSteps<T>(p: Decoded<T>): seq<Step<T>> {
    [Step.Write(p.data)] + DrawSteps(p.drawnBefore) + [Step.Publish] + DrawSteps(p.drawnAfter)
  }

  function PollSteps<T>(pictures: seq<Decoded<T>>): seq<Step<T>> {
    if pictures == [] then []
    else PollSteps(pictures[..|pictures| - 1]) + PictureSteps(pictures[|pictures| - 1])
  }

  lemma NoPictures<T>(s: State<T>)
    requires |s.contents| == FRAME_COUNT
    ensures Run(s, PollSteps([])) == s
  {
  }

  /** The steps of one more picture. */
  lemma PollOneMore<T>(pictures: seq<Decoded<T>>, i: nat)
    requires i < |pictures|
    ensures var p, steps := pictures[i], PollSteps(pictures[..i]);
      PollSteps(pictures[..i + 1])
        == steps + [Step.Write(p.data)] + DrawSteps(p.drawnBefore) + [Step.Publish] + DrawSteps(p.drawnAfter)
  {
    assert pictures[..i + 1][..i] == pictures[..i];
    hide DrawSteps;
  }

  /** Every picture of a poll is published, in order. */
  lemma {:induction false} PollPublishes<T>(s: State<T>, pictures: seq<Decoded<T>>)
    requires |s.contents| == FRAME_COUNT
    ensures Run(s, PollSteps(pictures)).published
         == s.published + seq(|pictures|, i requires 0 <= i < |pictures| => pictures[i].data)
  {
    hide Next, Run;
    if pictures == [] {
      NoPictures(s);
    } else {
      var n := |pictures| - 1;
      var p, steps := pictures[n], PollSteps(pictures[..n]);
      PollPublishes(s, pictures[..n]);
      PollOneMore(pictures, n);
      assert pictures[..n + 1] == pictures;
      hide PollSteps;
      PicturePublishes(s, steps, p);
    }
  }

  lemma PicturePublishes<T>(s: State<T>, steps: seq<Step<T>>, p: Decoded<T>)
    requires |s.contents| == FRAME_COUNT
    ensures Run(s, steps + [Step.Write(p.data)] + DrawSteps(p.drawnBefore) + [Step.Publish] + DrawSteps(p.drawnAfter))
      .published == Run(s, steps).published + [p.data]
  {
    var written := steps + [Step.Write(p.data)];
    var drawn := written + DrawSteps(p.drawnBefore);
    RunOne(s, steps, Step.Write(p.data));
    RunOne(s, drawn, Step.Publish);
    PublishedState(Run(s, drawn));
    hide Run, FirstFree;
    DrawsKeep(s, written, DrawSteps(p.drawnBefore));
    DrawsKeep(s, drawn + [Step.Publish], DrawSteps(p.drawnAfter));
  }

  lemma RunOne<T>(s: State<T>, steps: seq<Step<T>>, step: Step<T>)
    requires |s.contents| == FRAME_COUNT
    ensures Run(s, steps + [step]) == Next(Run(s, steps), step)
    ensures Run(s, steps + []) == Run(s, steps)
  {
    assert (steps + [step])[..|steps|] == steps;
    assert steps + [] == steps;
    hide Next;
  }

  /** The head follows the tail by the count, one step at a time. */
  lemma Wrapped(tail: nat, count: nat)
    requires tail < FRAME_COUNT && count < FRAME_COUNT
    ensures (Place(FRAME_COUNT, tail, count) + 1) % FRAME_COUNT == Place(FRAME_COUNT, tail, count + 1)
         == Place(FRAME_COUNT, (tail + 1) % FRAME_COUNT, count)
    ensures Place(FRAME_COUNT, tail, 1) == (tail + 1) % FRAME_COUNT
  {
  }

  lemma LastProbe<T>(s: State<T>, b: Buffer)
    requires Taken(s, b)
    ensures FirstFree(s, b, 0) == b
  {
  }
}
