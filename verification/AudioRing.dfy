/**
 The ring between the audio decoder and the playback thread: a queue that drops its oldest
 floats when it overflows and skips ahead when too much has piled up.
 */
module AudioRing {
  import opened Circular

  const RING_SIZE := 32768
  const BACKLOG := 4096
  const KEPT := 1024

  // The queue and its history

  function Last<T>(s: seq<T>, n: nat): (r: seq<T>)
    ensures |r| == if |s| <= n then |s| else n
  {
    if |s| <= n then s else s[|s| - n..]
  }

  /** A write keeps the last floats that the ring can hold. */
  function Written<T>(q: seq<T>, data: seq<T>): seq<T> {
    Last(q + data, RING_SIZE - 1)
  }

  /** What a successful read of `n` floats leaves. */
  function Remaining<T>(q: seq<T>, n: nat): (r: seq<T>)
    requires n <= |q|
    ensures |r| <= BACKLOG
  {
    if |q| - n > BACKLOG then Last(q[n..], KEPT) else q[n..]
  }

  /** `decoded` is everything written so far, `played` the positions in it that were read. */
  datatype State<T> = State(queue: seq<T>, decoded: seq<T>, played: seq<int>)

  datatype Op<T> = Write(data: seq<T>) | Read(count: nat)

  function Next<T>(s: State<T>, op: Op<T>): State<T> {
    match op
    case Write(data) => s.(queue := Written(s.queue, data), decoded := s.decoded + data)
    case Read(count) =>
      if |s.queue| < count then s
      else
        var from := |s.decoded| - |s.queue|;
        s.(queue := Remaining(s.queue, count),
           played := s.played + seq(count, i requires 0 <= i < count => from + i))
  }

  function Run<T>(s: State<T>, ops: seq<Op<T>>): State<T> {
    if ops == [] then s else Next(Run(s, ops[..|ops| - 1]), ops[|ops| - 1])
  }

  /** The queue is the end of the stream, and what was played lies before it, in order. */
  ghost predicate InOrder<T>(s: State<T>) {
    && |s.queue| < RING_SIZE && |s.queue| <= |s.decoded|
    && s.queue == s.decoded[|s.decoded| - |s.queue|..]
    && (forall i, j | 0 <= i < j < |s.played| :: s.played[i] < s.played[j])
    && (forall i | 0 <= i < |s.played| :: 0 <= s.played[i] < |s.decoded| - |s.queue|)
  }

  /** A successful read plays the oldest floats queued and keeps the rest, or the last 1024 of more than 4096. */
  lemma ReadPlaysOldest<T>(s: State<T>, count: nat)
    requires InOrder(s) && count <= |s.queue|
    ensures var s', k, rest := Next(s, Read(count)), |s.played|, |s.queue| - count;
      && s'.queue == s.decoded[|s.decoded| - (if rest > 4096 then 1024 else rest)..] && |s'.played| == k + count
      && forall i | 0 <= i < count :: 0 <= s'.played[k + i] < |s.decoded| && s.decoded[s'.played[k + i]] == s.queue[i]
  {
    var from, rest := |s.decoded| - |s.queue|, |s.queue| - count;
    assert s.queue[count..] == s.decoded[from + count..];
    if rest > 4096 { assert s.queue[count..][rest - 1024..] == s.decoded[|s.decoded| - 1024..]; }
  }

  /** A read of more than is queued plays nothing and changes nothing. */
  lemma Underrun<T>(s: State<T>, count: nat)
    requires |s.queue| < count
    ensures Next(s, Read(count)) == s
  {
  }

  /** A write leaves the last 32767 floats of what was queued and the data. */
  lemma WriteKeepsLast<T>(s: State<T>, data: seq<T>)
    requires InOrder(s)
    ensures var s', n := Next(s, Write(data)), |s.queue| + |data|;
      s'.queue == (s.decoded + data)[|s.decoded| + |data| - (if n > 32767 then 32767 else n)..]
  {
    var d, n := s.decoded + data, |s.queue| + |data|;
    assert s.queue + data == d[|d| - n..];
    if n > 32767 { assert d[|d| - n..][n - 32767..] == d[|d| - 32767..]; }
  }

  lemma WriteKeepsOrder<T>(s: State<T>, data: seq<T>)
    requires InOrder(s)
    ensures InOrder(Next(s, Write(data)))
  {
    WriteKeepsLast(s, data);
    var s' := Next(s, Write(data));
    assert s'.played == s.played && |s'.decoded| - |s'.queue| >= |s.decoded| - |s.queue|;
    hide Written, Last;
  }

  lemma ReadKeepsOrder<T>(s: State<T>, count: nat)
    requires InOrder(s) && count <= |s.queue|
    ensures InOrder(Next(s, Read(count)))
  {
    ReadPlaysOldest(s, count);
    var s', k, from := Next(s, Read(count)), |s.played|, |s.decoded| - |s.queue|;
    assert |s'.decoded| - |s'.queue| >= from + count;
    assert forall i | 0 <= i < |s'.played| :: s'.played[i] == if i < k then s.played[i] else from + (i - k);
    hide Remaining, Last;
  }

  lemma StepKeepsOrder<T>(s: State<T>, op: Op<T>)
    requires InOrder(s)
    ensures InOrder(Next(s, op))
  {
    match op
    case Write(data) => WriteKeepsOrder(s, data);
    case Read(count) => if count <= |s.queue| { ReadKeepsOrder(s, count); }
    hide InOrder, Written, Remaining;
  }

  /** Over any run the floats played are a subsequence of those decoded. */
  lemma {:induction false} PlayedInOrder<T>(ops: seq<Op<T>>)
    ensures InOrder(Run(State([], [], []), ops))
  {
    if ops != [] {
      PlayedInOrder(ops[..|ops| - 1]);
      StepKeepsOrder(Run(State([], [], []), ops[..|ops| - 1]), ops[|ops| - 1]);
    }
  }

  // Stereo pairs

  /** Writes of whole pairs and reads of one block. */
  predicate Stereo<T>(ops: seq<Op<T>>) {
    forall i | 0 <= i < |ops| :: if ops[i].Write? then |ops[i].data| % 2 == 0 else ops[i].count == 512
  }

  /** The queue starts on the left channel unless the ring, of odd capacity, is exactly full. */
  predicate Aligned<T>(s: State<T>) {
    |s.decoded| % 2 == 0 && (|s.queue| % 2 == 0 || |s.queue| == RING_SIZE - 1)
  }

  lemma {:induction false} AlwaysAligned<T>(ops: seq<Op<T>>)
    requires Stereo(ops)
    ensures Aligned(Run(State([], [], []), ops))
  {
    if ops != [] {
      AlwaysAligned(ops[..|ops| - 1]);
    }
  }

  /** A successful read leaves the queue at the start of a pair. */
  lemma ReadAligns<T>(ops: seq<Op<T>>)
    requires Stereo(ops) && 512 <= |Run(State([], [], []), ops).queue|
    ensures var s := Next(Run(State([], [], []), ops), Read(512));
      |s.queue| % 2 == 0 && (|s.decoded| - |s.queue|) % 2 == 0
  {
    AlwaysAligned(ops);
  }

  /** The block a read plays begins with a left channel exactly when the ring is not full. */
  lemma BlockStartsPair<T>(ops: seq<Op<T>>)
    requires Stereo(ops)
    ensures var s := Run(State([], [], []), ops);
      |s.queue| >= 512 ==>
        var s' := Next(s, Read(512));
        |s'.played| == |s.played| + 512 && (s'.played[|s.played|] % 2 == 0 <==> |s.queue| != RING_SIZE - 1)
  {
    AlwaysAligned(ops);
    PlayedInOrder(ops);
    hide Run;
  }

  /** Three frames of the greatest length fill it, and the next block starts with a right channel. */
  lemma RightFirst<T>(a: seq<T>, b: seq<T>, c: seq<T>)
    requires |a| == |b| == |c| == 11520
    ensures var ops := [Op.Write(a), Op.Write(b), Op.Write(c)]; var s := Run(State([], [], []), ops);
      && Stereo(ops) && |s.queue| == RING_SIZE - 1 && s.played == []
      && Next(s, Read(512)).played[0] % 2 == 1
  {
    var start: State<T>, ops := State([], [], []), [Op.Write(a), Op.Write(b), Op.Write(c)];
    assert ops[..2][..1] == ops[..1] == [Op.Write(a)] && ops[..1][..0] == [];
    assert Run(start, ops[..1]) == Next(start, ops[0]);
    assert Run(start, ops[..2]) == Next(Run(start, ops[..1]), ops[1]);
    assert |Run(start, ops).queue| == RING_SIZE - 1 && |Run(start, ops).decoded| == 34560;
  }

  // The ring

  datatype Indices = Indices(read: nat, write: nat)

  predicate InRing(x: Indices) {
    x.read < RING_SIZE && x.write < RING_SIZE
  }

  function Available(x: Indices): (n: nat)
    requires InRing(x)
    ensures n < RING_SIZE && x.write == Place(RING_SIZE, x.read, n)
  {
    (x.write - x.read + RING_SIZE) % RING_SIZE
  }

  lemma AvailableIs(x: Indices, n: nat)
    requires InRing(x) && n < RING_SIZE && x.write == Place(RING_SIZE, x.read, n)
    ensures Available(x) == n
  {
  }

  lemma FreeSpace(x: Indices)
    requires InRing(x)
    ensures (x.read - x.write - 1 + RING_SIZE) % RING_SIZE == RING_SIZE - 1 - Available(x)
  {
  }

  /** The two indices have the same parity exactly when an even number of floats is queued. */
  lemma SameParity(x: Indices)
    requires InRing(x)
    ensures x.read % 2 == x.write % 2 <==> Available(x) % 2 == 0
  {
    hide Available;
  }

  /** How many of `n` floats the ring keeps, and where they start if the first of them was at `start`. */
  function Kept(n: nat): (k: nat)
    ensures k < RING_SIZE
  {
    if n < RING_SIZE then n else RING_SIZE - 1
  }

  function Start(start: nat, n: nat): (s: nat)
    ensures s < RING_SIZE
  {
    (start + n - Kept(n)) % RING_SIZE
  }

  lemma StartOf(start: nat, n: nat)
    requires start < RING_SIZE
    ensures n < RING_SIZE ==> Start(start, n) == start && Kept(n) == n
    ensures Kept(n + 1) == if Kept(n) == RING_SIZE - 1 then Kept(n) else Kept(n) + 1
    ensures Start(start, n + 1)
         == if Kept(n) == RING_SIZE - 1 then (Start(start, n) + 1) % RING_SIZE else Start(start, n)
  {
  }

  /** The read index that a write of `n` floats sets. */
  lemma StartIs(start: nat, queued: nat, n: nat)
    requires start < RING_SIZE && queued < RING_SIZE
    ensures var free := RING_SIZE - 1 - queued;
      Start(start, queued + n) == if free < n then (start + (n - free)) % RING_SIZE else start
  {
  }

  lemma NothingWritten<T>(q: seq<T>)
    requires |q| < RING_SIZE
    ensures Written(q, []) == q
  {
    assert q + [] == q;
  }

  /** Writing one float more drops the oldest of a full ring. */
  lemma OneMoreWritten<T>(q: seq<T>, data: seq<T>, i: nat)
    requires i < |data|
    ensures var w := Written(q, data[..i]);
      Written(q, data[..i + 1]) == (if |w| == RING_SIZE - 1 then w[1..] else w) + [data[i]]
  {
    assert q + data[..i + 1] == q + data[..i] + [data[i]];
  }

  lemma NextIndex(at: nat, i: nat)
    ensures ((at + i) % RING_SIZE + 1) % RING_SIZE == (at + (i + 1)) % RING_SIZE
  {
  }

  lemma IndexAdds(a: nat, n: nat)
    ensures (a % RING_SIZE + n) % RING_SIZE == (a + n) % RING_SIZE
  {
  }

  class Ring<T(0)> {
    const buffer: array<T>
    var readIdx: nat
    var writeIdx: nat

    ghost var decoded: seq<T>
    ghost var played: seq<int>

    ghost predicate Shape()
      reads this
    {
      buffer.Length == RING_SIZE && InRing(Indices(readIdx, writeIdx))
    }

    ghost function Queue(): (q: seq<T>)
      requires Shape()
      reads this, buffer
      ensures |q| == Available(Indices(readIdx, writeIdx))
    {
      Slots(buffer[..], readIdx, Available(Indices(readIdx, writeIdx)))
    }

    ghost function History(): State<T>
      requires Shape()
      reads this, buffer
    {
      State(Queue(), decoded, played)
    }

    ghost predicate Valid()
      reads this, buffer
    {
      Shape() && InOrder(History()) && writeIdx == |decoded| % RING_SIZE
    }

    constructor ()
      ensures Valid() && History() == State([], [], []) && fresh(buffer)
    {
      buffer := new T[RING_SIZE];
      readIdx, writeIdx := 0, 0;
      decoded, played := [], [];
    }

    /** Moves the read index past `k` floats. */
    method Drop(k: nat)
      requires Shape() && k <= |Queue()|
      modifies this`readIdx
      ensures Shape() && Queue() == old(Queue())[k..] && readIdx == (old(readIdx) + k) % RING_SIZE
    {
      hide Slots;
      ghost var count := |Queue()|;
      SlotsDropped(buffer[..], readIdx, count, k);
      readIdx := (readIdx + k) % RING_SIZE;
      AvailableIs(Indices(readIdx, writeIdx), count - k);
    }

    /** Stores one float behind the `count` that start at `from`, as the code goes on to see them. */
    method Put(x: T, ghost from: nat, ghost count: nat)
      requires buffer.Length == RING_SIZE && from < RING_SIZE && count < RING_SIZE - 1
      requires writeIdx == Place(RING_SIZE, from, count)
      modifies buffer, this`writeIdx
      ensures writeIdx == Place(RING_SIZE, from, count + 1) == (old(writeIdx) + 1) % RING_SIZE
      ensures Slots(buffer[..], from, count + 1) == old(Slots(buffer[..], from, count)) + [x]
    {
      hide Slots;
      SlotsPushed(buffer[..], from, count, x);
      buffer[writeIdx] := x;
      writeIdx := (writeIdx + 1) % RING_SIZE;
    }

    /** The same when the ring may be full, and so loses the oldest float. */
    method PutNext(x: T, ghost from: nat, ghost count: nat) returns (ghost from': nat, ghost count': nat)
      requires buffer.Length == RING_SIZE && from < RING_SIZE && count < RING_SIZE
      requires writeIdx == Place(RING_SIZE, from, count)
      modifies buffer, this`writeIdx
      ensures from' == (if count == RING_SIZE - 1 then (from + 1) % RING_SIZE else from) < RING_SIZE
      ensures count' == (if count == RING_SIZE - 1 then count else count + 1) < RING_SIZE
      ensures writeIdx == Place(RING_SIZE, from', count') == (old(writeIdx) + 1) % RING_SIZE
      ensures var w := old(Slots(buffer[..], from, count));
        Slots(buffer[..], from', count') == (if count == RING_SIZE - 1 then w[1..] else w) + [x]
    {
      hide Slots;
      from', count' := from, count;
      if count == RING_SIZE - 1 {
        SlotsDropped(buffer[..], from, count, 1);
        from', count' := (from + 1) % RING_SIZE, count - 1;
      }
      Put(x, from', count');
      count' := count' + 1;
    }

    /**
     The loop of a write. Of the floats queued from `start` on and the data, the last 32767 stay
     in the buffer, from the returned place on, although the read index has been set before.
     */
    method PutAll(data: seq<T>, ghost start: nat, ghost queued: nat) returns (ghost from: nat, ghost count: nat)
      requires buffer.Length == RING_SIZE && start < RING_SIZE && queued < RING_SIZE
      requires writeIdx == Place(RING_SIZE, start, queued)
      modifies buffer, this`writeIdx
      ensures from == Start(start, queued + |data|) && count == Kept(queued + |data|)
      ensures writeIdx == Place(RING_SIZE, from, count) == (old(writeIdx) + |data|) % RING_SIZE
      ensures Slots(buffer[..], from, count) == Written(old(Slots(buffer[..], start, queued)), data)
    {
      hide Slots, Written, Start, Kept, Place;
      ghost var q := Slots(buffer[..], start, queued);
      from, count := start, queued;
      NothingWritten(q);
      StartOf(start, queued);
      for i := 0 to |data|
        invariant from == Start(start, queued + i) < RING_SIZE && count == Kept(queued + i)
        invariant writeIdx == Place(RING_SIZE, from, count) == (old(writeIdx) + i) % RING_SIZE
        invariant Slots(buffer[..], from, count) == Written(q, data[..i])
      {
        OneMoreWritten(q, data, i);
        StartOf(start, queued + i);
        from, count := PutNext(data[i], from, count);
        NextIndex(old(writeIdx), i);
      }
      assert data[..|data|] == data;
    }

    /** Writes any number of floats, at the cost of the oldest ones if the ring overflows. */
    method Write(data: seq<T>)
      requires Valid()
      modifies this, buffer
      ensures Valid() && History() == Next(old(History()), Op.Write(data))
    {
      hide Slots, Available, InOrder, Written, Start;
      StepKeepsOrder(History(), Op.Write(data));
      IndexAdds(|decoded|, |data|);
      FreeSpace(Indices(readIdx, writeIdx));
      ghost var start, queued := readIdx, |Queue()|;
      var freeSpace := (readIdx - writeIdx - 1 + RING_SIZE) % RING_SIZE;
      if freeSpace < |data| {
        readIdx := (readIdx + (|data| - freeSpace)) % RING_SIZE;
      }
      StartIs(start, queued, |data|);
      ghost var from, count := PutAll(data, start, queued);
      AvailableIs(Indices(readIdx, writeIdx), count);
      decoded := decoded + data;
    }

    /** Reads `n` floats if there are that many. */
    method Read(n: nat) returns (ok: bool, data: seq<T>)
      requires Valid()
      modifies this
      ensures Valid() && History() == Next(old(History()), Op.Read(n))
      ensures ok == (n <= |old(Queue())|) && (ok ==> data == old(Queue())[..n])
    {
      hide Slots, InOrder;
      StepKeepsOrder(History(), Op.Read(n));
      data := [];
      var available := (writeIdx - readIdx + RING_SIZE) % RING_SIZE;
      if available < n { return false, []; }
      ghost var q, from := Queue(), |decoded| - |Queue()|;
      data := Take(n);
      var remaining := (writeIdx - readIdx + RING_SIZE) % RING_SIZE;
      if remaining > BACKLOG {
        SkipAhead(remaining);
      }
      played := played + seq(n, i requires 0 <= i < n => from + i);
      ok := true;
    }

    method Take(n: nat) returns (data: seq<T>)
      requires Shape() && n <= |Queue()|
      modifies this`readIdx
      ensures Shape() && data == old(Queue())[..n] && Queue() == old(Queue())[n..]
    {
      hide Slots, Available;
      data := [];
      ghost var q := Queue();
      for i := 0 to n
        invariant Shape() && Queue() == q[i..] && data == q[..i]
      {
        FirstQueued();
        data := data + [buffer[readIdx]];
        Drop(1);
      }
    }

    lemma FirstQueued()
      requires Shape() && |Queue()| > 0
      ensures Queue()[0] == buffer[readIdx]
    {
      SlotsFirst(buffer[..], readIdx, |Queue()|);
      hide Slots;
    }

    method SkipAhead(ghost remaining: nat)
      requires Shape() && remaining == |Queue()| > BACKLOG
      modifies this`readIdx
      ensures Shape() && Queue() == Last(old(Queue()), KEPT)
    {
      hide Slots;
      SlotsDropped(buffer[..], readIdx, remaining, remaining - KEPT);
      readIdx := (writeIdx - KEPT + RING_SIZE) % RING_SIZE;
      AvailableIs(Indices(readIdx, writeIdx), KEPT);
    }

    /** In aligned runs the write index is even, and the read index too unless the ring is full. */
    lemma EvenIndices()
      requires Valid() && Aligned(History())
      ensures writeIdx % 2 == 0 && (readIdx % 2 == 0 || |Queue()| == RING_SIZE - 1)
    {
      SameParity(Indices(readIdx, writeIdx));
      hide Slots, Available, InOrder;
      assert |decoded| % RING_SIZE % 2 == 0;
    }
  }
}
