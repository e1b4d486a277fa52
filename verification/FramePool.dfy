/**
 The pool of six decoded-frame buffers: the decoding thread writes pictures without the lock
 and publishes them under it, the render thread takes the newest one under it. The state is
 the pool as a list; module FrameRing refines it to the ring of the program.
 */
module FramePool {

  const FRAME_COUNT := 6
  const QUEUE_LIMIT := 4

  type Buffer = n: nat | n < 6

  /**
   `queue` holds the published buffers, the oldest first, and `contents` what is in each buffer.
   Of the history, `published` is every picture published so far, `shown` the positions in it
   that have been shown, and `dropped` counts those that never will be.
   */
  datatype State<T> = State(
    queue: seq<Buffer>, write: Buffer, front: int, contents: seq<T>,
    published: seq<T>, shown: seq<int>, dropped: nat)

  /**
   `Write` is one piece of the unlocked picture write, which may leave anything in the buffer;
   `Publish` and `Draw` are the two sections under the lock.
   */
  datatype Step<T> = Write(data: T) | Publish | Draw

  predicate Taken<T>(s: State<T>, b: Buffer) {
    b == s.front || b in s.queue
  }

  /** The first buffer from `b` on, in cyclic order, that is neither queued nor on screen. */
  function FirstFree<T>(s: State<T>, b: Buffer, probes: nat): Buffer
    decreases probes
  {
    if probes == 0 || !Taken(s, b) then b else FirstFree(s, (b + 1) % FRAME_COUNT, probes - 1)
  }

  function Pushed<T>(s: State<T>): State<T>
    requires |s.contents| == FRAME_COUNT
  {
    var full := |s.queue| >= QUEUE_LIMIT;
    s.(queue := (if full then s.queue[1..] else s.queue) + [s.write],
       published := s.published + [s.contents[s.write]],
       dropped := if full then s.dropped + 1 else s.dropped)
  }

  function Next<T>(s: State<T>, step: Step<T>): State<T>
    requires |s.contents| == FRAME_COUNT
  {
    match step
    case Write(data) => s.(contents := s.contents[s.write := data])
    case Publish =>
      var p := Pushed(s);
      p.(write := FirstFree(p, (s.write + 1) % FRAME_COUNT, 4))
    case Draw =>
      if s.queue == [] then s
      else
        s.(queue := [], front := s.queue[|s.queue| - 1],
           shown := s.shown + [|s.published| - 1], dropped := s.dropped + |s.queue| - 1)
  }

  function Start<T>(contents: seq<T>): State<T> {
    State([], 0, -1, contents, [], [], 0)
  }

  function Run<T>(s: State<T>, steps: seq<Step<T>>): (s': State<T>)
    requires |s.contents| == FRAME_COUNT
    ensures |s'.contents| == FRAME_COUNT
  {
    if steps == [] then s else Next(Run(s, steps[..|steps| - 1]), steps[|steps| - 1])
  }

  /** The position in `published` of the oldest queued picture. */
  function Oldest<T>(s: State<T>): int {
    |s.published| - |s.queue|
  }

  /** No buffer has two uses at once. */
  ghost predicate Exclusive<T>(s: State<T>) {
    && |s.queue| <= QUEUE_LIMIT && -1 <= s.front < FRAME_COUNT
    && (forall i, j | 0 <= i < j < |s.queue| :: s.queue[i] != s.queue[j])
    && !Taken(s, s.write) && s.front !in s.queue
  }

  /** The queue holds the last published pictures and the screen the last one shown. */
  ghost predicate Faithful<T>(s: State<T>) {
    && |s.contents| == FRAME_COUNT && |s.queue| <= |s.published|
    && (forall i | 0 <= i < |s.queue| :: s.contents[s.queue[i]] == s.published[Oldest(s) + i])
    && (s.shown == [] ==> s.front == -1)
    && (s.shown != [] ==>
          var last := s.shown[|s.shown| - 1];
          0 <= last < Oldest(s) && 0 <= s.front < FRAME_COUNT && s.contents[s.front] == s.published[last])
  }

  /** Pictures are shown in the order of publication, and each is accounted for. */
  ghost predicate Counted<T>(s: State<T>) {
    && (forall i, j | 0 <= i < j < |s.shown| :: s.shown[i] < s.shown[j])
    && |s.published| == |s.shown| + s.dropped + |s.queue|
  }

  ghost predicate Safe<T>(s: State<T>) {
    Exclusive(s) && Faithful(s) && Counted(s)
  }

  /** Safety after a push, when the buffer just queued is not yet replaced as write buffer. */
  ghost predicate SafeButWrite<T>(s: State<T>) {
    && Faithful(s) && Counted(s) && |s.queue| <= QUEUE_LIMIT && -1 <= s.front < FRAME_COUNT
    && (forall i, j | 0 <= i < j < |s.queue| :: s.queue[i] != s.queue[j]) && s.front !in s.queue
  }

  // The search for a free buffer

  function SetOf(q: seq<Buffer>): set<Buffer> {
    set b | b in q
  }

  lemma {:induction false} SetOfSize(q: seq<Buffer>)
    ensures |SetOf(q)| <= |q|
  {
    if q == [] {
      assert SetOf(q) == {};
    } else {
      SetOfSize(q[1..]);
      assert SetOf(q) == {q[0]} + SetOf(q[1..]);
    }
  }

  /** Five buffers cannot be all six: at most four are queued and one is on screen. */
  lemma SomeFree<T>(s: State<T>)
    requires |s.queue| <= QUEUE_LIMIT
    ensures exists b: Buffer :: !Taken(s, b)
  {
    SetOfSize(s.queue);
    var taken: set<int> := (set b: int | b in SetOf(s.queue)) + {s.front};
    assert (set b: int | b in SetOf(s.queue)) == SetOf(s.queue);
    var all: set<int> := {0, 1, 2, 3, 4, 5};
    if forall b: Buffer :: Taken(s, b) {
      assert forall b: int | b in all :: Taken(s, b) && b in taken;
      Contained(all, taken);
      assert false;
    }
  }

  lemma Contained(a: set<int>, b: set<int>)
    requires a <= b
    ensures |a| <= |b|
  {
    assert b == a + (b - a);
  }

  /** If the buffer just filled is taken, the fifth probe at the latest finds a free one. */
  lemma FreeWithinFive<T>(s: State<T>, w: Buffer)
    requires |s.queue| <= QUEUE_LIMIT && Taken(s, w)
    ensures !Taken(s, FirstFree(s, (w + 1) % FRAME_COUNT, 4))
  {
    hide Taken, FirstFree;
    SomeFree(s);
    var b: Buffer :| !Taken(s, b);
    var b1: Buffer := (w + 1) % 6; var b2: Buffer := (b1 + 1) % 6; var b3: Buffer := (b2 + 1) % 6;
    var b4: Buffer := (b3 + 1) % 6; var b5: Buffer := (b4 + 1) % 6;
    assert b == b1 || b == b2 || b == b3 || b == b4 || b == b5;
    Probe(s, b1, 4); Probe(s, b2, 3); Probe(s, b3, 2); Probe(s, b4, 1); Probe(s, b5, 0);
  }

  lemma Probe<T>(s: State<T>, b: Buffer, probes: nat)
    ensures !Taken(s, b) ==> FirstFree(s, b, probes) == b
    ensures Taken(s, b) && probes > 0 ==> FirstFree(s, b, probes) == FirstFree(s, (b + 1) % FRAME_COUNT, probes - 1)
  {
    hide Taken;
  }

  // What every step keeps

  /** The queue after the push, seen through the queue before. */
  lemma PushedQueue<T>(s: State<T>)
    requires |s.contents| == FRAME_COUNT && |s.queue| <= QUEUE_LIMIT
    ensures var p := Pushed(s); var cut := if |s.queue| == QUEUE_LIMIT then 1 else 0;
      && |p.queue| == |s.queue| - cut + 1 <= QUEUE_LIMIT && p.queue[|p.queue| - 1] == s.write
      && forall i | 0 <= i < |p.queue| - 1 :: p.queue[i] == s.queue[i + cut]
  {
  }

  lemma PushKeeps<T>(s: State<T>)
    requires Safe(s)
    ensures SafeButWrite(Pushed(s)) && |Pushed(s).queue| <= QUEUE_LIMIT && Taken(Pushed(s), s.write)
  {
    PushedQueue(s);
    var p, cut := Pushed(s), if |s.queue| == QUEUE_LIMIT then 1 else 0;
    assert Oldest(p) == Oldest(s) + cut;
    assert p.published[|s.published|] == s.contents[s.write];
    forall i | 0 <= i < |p.queue| ensures p.contents[p.queue[i]] == p.published[Oldest(p) + i] {
      if i < |p.queue| - 1 {
        assert s.contents[s.queue[i + cut]] == s.published[Oldest(s) + (i + cut)];
      }
    }
    assert p.queue[|p.queue| - 1] == s.write;
    assert p.front !in p.queue;
  }

  lemma PublishKeeps<T>(s: State<T>)
    requires Safe(s)
    ensures Safe(Next(s, Publish))
  {
    PushKeeps(s);
    hide *;
    FreeWithinFive(Pushed(s), s.write);
    PublishedState(s);
    NewWrite(Pushed(s), Next(s, Publish).write);
  }

  lemma PublishedState<T>(s: State<T>)
    requires |s.contents| == FRAME_COUNT
    ensures var w := FirstFree(Pushed(s), (s.write + 1) % FRAME_COUNT, 4);
      Next(s, Publish).write == w && Next(s, Publish) == Pushed(s).(write := w)
  {
    hide FirstFree, Pushed;
  }

  lemma NewWrite<T>(p: State<T>, b: Buffer)
    requires SafeButWrite(p) && !Taken(p, b)
    ensures Safe(p.(write := b))
  {
  }

  lemma StepKeeps<T>(s: State<T>, step: Step<T>)
    requires Safe(s)
    ensures Safe(Next(s, step))
  {
    if step.Publish? { PublishKeeps(s); }
  }

  lemma {:induction false} RunKeeps<T>(s: State<T>, steps: seq<Step<T>>)
    requires Safe(s)
    ensures Safe(Run(s, steps))
  {
    if steps != [] {
      RunKeeps(s, steps[..|steps| - 1]);
      StepKeeps(Run(s, steps[..|steps| - 1]), steps[|steps| - 1]);
    }
  }

  /** Every state that any interleaving of the steps can reach is safe. */
  lemma {:induction false} AlwaysSafe<T>(contents: seq<T>, steps: seq<Step<T>>)
    requires |contents| == FRAME_COUNT
    ensures Safe(Run(Start(contents), steps))
  {
    RunKeeps(Start(contents), steps);
  }

  // What a picture can rely on

  /** Whether published picture `i` is queued or on screen, and in which buffer. */
  predicate Held<T>(s: State<T>, i: nat) {
    Oldest(s) <= i < |s.published| || (s.shown != [] && i == s.shown[|s.shown| - 1])
  }

  function Holder<T>(s: State<T>, i: nat): int
    requires |s.queue| <= |s.published| && Held(s, i)
  {
    if Oldest(s) <= i < |s.published| then s.queue[i - Oldest(s)] else s.front
  }

  /** A picture that is still held after a step was held before, in the same buffer and intact. */
  lemma HeldBefore<T>(s: State<T>, step: Step<T>, i: nat)
    requires Safe(s) && i < |s.published| && Held(Next(s, step), i)
    ensures Safe(Next(s, step)) && s.published <= Next(s, step).published
    ensures Held(s, i) && Holder(Next(s, step), i) == Holder(s, i)
    ensures 0 <= Holder(s, i) < FRAME_COUNT
    ensures Next(s, step).contents[Holder(s, i)] == s.contents[Holder(s, i)] == s.published[i]
  {
    StepKeeps(s, step);
    match step
    case Write(_) => HeldBeforeWrite(s, step, i);
    case Publish => HeldBeforePublish(s, i);
    case Draw =>
  }

  lemma HeldBeforeWrite<T>(s: State<T>, step: Step<T>, i: nat)
    requires Safe(s) && step.Write? && i < |s.published| && Held(s, i)
    ensures Holder(Next(s, step), i) == Holder(s, i) && 0 <= Holder(s, i) < FRAME_COUNT
    ensures Next(s, step).contents[Holder(s, i)] == s.contents[Holder(s, i)] == s.published[i]
  {
    if Oldest(s) <= i {
      assert s.contents[s.queue[i - Oldest(s)]] == s.published[Oldest(s) + (i - Oldest(s))];
      assert s.queue[i - Oldest(s)] in s.queue;
    }
  }

  lemma HeldBeforePublish<T>(s: State<T>, i: nat)
    requires Safe(s) && i < |s.published| && Held(Next(s, Publish), i)
    ensures Held(s, i) && Holder(Next(s, Publish), i) == Holder(s, i) && 0 <= Holder(s, i) < FRAME_COUNT
    ensures Next(s, Publish).contents[Holder(s, i)] == s.contents[Holder(s, i)] == s.published[i]
  {
    hide FirstFree, Counted;
    PushedQueue(s);
    var p, cut := Pushed(s), if |s.queue| == QUEUE_LIMIT then 1 else 0;
    assert Oldest(p) == Oldest(s) + cut;
    if Oldest(s) <= i {
      assert s.contents[s.queue[i - Oldest(s)]] == s.published[Oldest(s) + (i - Oldest(s))];
    }
  }

  /** From its publication until it is dropped or replaced, a picture stays where it is. */
  lemma {:induction false} HeldThroughout<T>(s: State<T>, steps: seq<Step<T>>, i: nat)
    requires Safe(s) && i < |s.published| && Held(Run(s, steps), i)
    ensures Safe(Run(s, steps)) && s.published <= Run(s, steps).published
    ensures Held(s, i) && Holder(Run(s, steps), i) == Holder(s, i)
    ensures 0 <= Holder(s, i) < FRAME_COUNT
    ensures Run(s, steps).contents[Holder(s, i)] == s.contents[Holder(s, i)] == s.published[i]
  {
    RunKeeps(s, steps);
    if steps != [] {
      var before := Run(s, steps[..|steps| - 1]);
      RunKeeps(s, steps[..|steps| - 1]);
      PublishedGrows(s, steps[..|steps| - 1]);
      HeldBefore(before, steps[|steps| - 1], i);
      HeldThroughout(s, steps[..|steps| - 1], i);
    }
  }

  lemma {:induction false} PublishedGrows<T>(s: State<T>, steps: seq<Step<T>>)
    requires Safe(s)
    ensures s.published <= Run(s, steps).published
  {
    if steps != [] { PublishedGrows(s, steps[..|steps| - 1]); }
  }

  /** A draw with pictures queued shows the newest published one and leaves none queued. */
  lemma DrawShowsNewest<T>(s: State<T>)
    requires Safe(s) && s.queue != []
    ensures var s' := Next(s, Draw);
      && s'.queue == [] && 0 <= s'.front < FRAME_COUNT
      && s'.contents[s'.front] == s.published[|s.published| - 1]
      && s'.shown == s.shown + [|s.published| - 1] && s'.dropped == s.dropped + |s.queue| - 1
  {
  }

  /** The picture write disturbs neither the screen nor the queue. */
  lemma WriteUnseen<T>(s: State<T>, data: T)
    requires Safe(s)
    ensures var s' := Next(s, Write(data));
      forall b: Buffer | Taken(s, b) :: Taken(s', b) && s'.contents[b] == s.contents[b]
  {
  }

  // What the steps do, in plain terms

  /**
   A publication appends the buffer just written to the queue, at the cost of the oldest entry if
   four are queued, and leaves the rest.
   */
  lemma PublishedNext<T>(s: State<T>)
    requires Safe(s)
    ensures var s' := Next(s, Publish);
      && s'.queue == (if |s.queue| < 4 then s.queue else s.queue[1..]) + [s.write]
      && s'.dropped == (if |s.queue| < 4 then s.dropped else s.dropped + 1)
      && s'.published == s.published + [s.contents[s.write]]
      && s'.contents == s.contents && s'.front == s.front && s'.shown == s.shown
  {
    PublishedState(s);
    hide FirstFree;
  }

  /** It goes on to the next buffer, in cyclic order, that is neither queued nor on screen. */
  lemma NextWrite<T>(s: State<T>)
    requires Safe(s)
    ensures var s' := Next(s, Publish); var used := s'.queue + (if s.front >= 0 then [s.front] else []);
      && s'.write !in used
      && s'.write == if (s.write + 1) % 6 !in used then (s.write + 1) % 6
                     else if (s.write + 2) % 6 !in used then (s.write + 2) % 6
                     else if (s.write + 3) % 6 !in used then (s.write + 3) % 6
                     else if (s.write + 4) % 6 !in used then (s.write + 4) % 6
                     else (s.write + 5) % 6
  {
    hide *;
    PushKeeps(s);
    PoolSizes(s);
    PublishedState(s);
    FirstOfFive(Pushed(s), s.write);
    PushedFront(s);
  }

  lemma PushedFront<T>(s: State<T>)
    requires |s.contents| == FRAME_COUNT
    ensures Pushed(s).front == s.front
  {
  }

  lemma PoolSizes<T>(s: State<T>)
    requires Safe(s)
    ensures |s.contents| == FRAME_COUNT == 6 && QUEUE_LIMIT == 4
  {
  }

  lemma Used<T>(p: State<T>, b: Buffer)
    ensures Taken(p, b) <==> b in p.queue + (if p.front >= 0 then [p.front] else [])
  {
  }

  lemma Around(w: Buffer)
    ensures ((w + 1) % 6 + 1) % 6 == (w + 2) % 6 && ((w + 2) % 6 + 1) % 6 == (w + 3) % 6
    ensures ((w + 3) % 6 + 1) % 6 == (w + 4) % 6 && ((w + 4) % 6 + 1) % 6 == (w + 5) % 6
    ensures 0 <= (w + 1) % 6 < 6 && 0 <= (w + 2) % 6 < 6 && 0 <= (w + 3) % 6 < 6 && 0 <= (w + 4) % 6 < 6
    ensures 0 <= (w + 5) % 6 < 6
  {
  }

  /** The search spelled out. */
  lemma FirstOfFive<T>(p: State<T>, w: Buffer)
    requires |p.queue| <= QUEUE_LIMIT && Taken(p, w)
    ensures var b, used := FirstFree(p, (w + 1) % FRAME_COUNT, 4), p.queue + (if p.front >= 0 then [p.front] else []);
      && b !in used
      && b == if (w + 1) % 6 !in used then (w + 1) % 6
              else if (w + 2) % 6 !in used then (w + 2) % 6
              else if (w + 3) % 6 !in used then (w + 3) % 6
              else if (w + 4) % 6 !in used then (w + 4) % 6
              else (w + 5) % 6
  {
    Around(w);
    FreeWithinFive(p, w);
    hide Taken, FirstFree;
    var b1: Buffer, b2: Buffer, b3: Buffer, b4: Buffer, b5: Buffer :=
      (w + 1) % 6, (w + 2) % 6, (w + 3) % 6, (w + 4) % 6, (w + 5) % 6;
    Probe(p, b1, 4); Probe(p, b2, 3); Probe(p, b3, 2); Probe(p, b4, 1);
    EndOfSearch(p, b5);
    Used(p, b1); Used(p, b2); Used(p, b3); Used(p, b4); Used(p, b5);
  }

  lemma EndOfSearch<T>(p: State<T>, b: Buffer)
    ensures FirstFree(p, b, 0) == b
  {
  }

  /** With nothing queued a draw changes nothing. */
  lemma DrawNothing<T>(s: State<T>)
    requires |s.contents| == FRAME_COUNT && s.queue == []
    ensures Next(s, Draw) == s
  {
  }

  /** Draws leave what was written and published. */
  lemma {:induction false} DrawsKeep<T>(s: State<T>, steps: seq<Step<T>>, draws: seq<Step<T>>)
    requires |s.contents| == FRAME_COUNT && forall i | 0 <= i < |draws| :: draws[i].Draw?
    ensures var b, a := Run(s, steps), Run(s, steps + draws);
      a.contents == b.contents && a.write == b.write && a.published == b.published
    decreases |draws|
  {
    if draws == [] {
      assert steps + draws == steps;
    } else {
      var n := |draws| - 1;
      DrawsKeep(s, steps, draws[..n]);
      assert (steps + draws)[..|steps + draws| - 1] == steps + draws[..n];
    }
  }

  /** The picture published is the one written, however often the other thread draws in between. */
  lemma PublishesWritten<T>(s: State<T>, data: T, draws: seq<Step<T>>)
    requires Safe(s) && forall i | 0 <= i < |draws| :: draws[i].Draw?
    ensures Run(s, [Step.Write(data)] + draws + [Step.Publish]).published == s.published + [data]
  {
    var steps: seq<Step<T>> := [Step.Write(data)];
    assert Run(s, []) == s;
    assert steps[..0] == [] && Run(s, steps) == Next(s, Step.Write(data));
    DrawsKeep(s, steps, draws);
    var all := steps + draws + [Step.Publish];
    assert all[..|all| - 1] == steps + draws;
    PublishedState(Run(s, steps + draws));
    hide Safe, FirstFree;
  }
}
