/**
 Who owns the four bitstream buffers: the submitting thread fills the front one, the decoder
 holds those it has accepted until its AUDONE callbacks, which may come between any two steps
 of a submission.
 */
module AuRing {

  const BUF_COUNT := 4

  type Slot = n: nat | n < 4

  /** A buffer in the decoder's hands and what was in it when it was handed over. */
  datatype Held<T> = Held(slot: Slot, data: T)

  /** How far the current submission has come. */
  datatype Phase = Idle | Filling | Reserved | Accepted

  /** `history` lists everything the decoder has accepted so far. */
  datatype State<T> = State(
    front: Slot, pending: int, phase: Phase, slots: seq<T>, held: seq<Held<T>>, history: seq<T>)

  /**
   `Check` looks at the count of pending units, `Fill` writes the front buffer, `Reserve`
   counts the unit as pending, `Take` and `Refuse` are the decoder's answers, `Advance` moves
   on to the next buffer, `AuDone` is the decoder's callback for the oldest unit it holds, and
   `Error` its callback for a fatal error, after which it has given back all it held. A step
   that the current phase does not allow changes nothing.
   */
  datatype Step<T> = Check | Fill(data: T) | Abandon | Reserve | Take | Refuse | Advance | AuDone | Error

  function Next<T>(s: State<T>, step: Step<T>): (s': State<T>)
    requires |s.slots| == BUF_COUNT
    ensures |s'.slots| == BUF_COUNT
  {
    match step
    case Check => if s.phase.Idle? && s.pending < BUF_COUNT then s.(phase := Filling) else s
    case Fill(data) => if s.phase.Filling? then s.(slots := s.slots[s.front := data]) else s
    case Abandon => if s.phase.Filling? then s.(phase := Idle) else s
    case Reserve => if s.phase.Filling? then s.(phase := Reserved, pending := s.pending + 1) else s
    case Take =>
      if s.phase.Reserved? then
        s.(phase := Accepted, held := s.held + [Held(s.front, s.slots[s.front])],
           history := s.history + [s.slots[s.front]])
      else s
    case Refuse =>
      if s.phase.Reserved? then s.(phase := Idle, pending := s.pending - 1) else s
    case Advance => if s.phase.Accepted? then s.(phase := Idle, front := (s.front + 1) % BUF_COUNT) else s
    case AuDone =>
      s.(held := if s.held == [] then [] else s.held[1..],
         pending := if s.pending > 0 then s.pending - 1 else s.pending)
    case Error => s.(held := [], pending := 0)
  }

  function Start<T>(slots: seq<T>): State<T> {
    State(0, 0, Idle, slots, [], [])
  }

  function Run<T>(s: State<T>, steps: seq<Step<T>>): (s': State<T>)
    requires |s.slots| == BUF_COUNT
    ensures |s'.slots| == BUF_COUNT
  {
    if steps == [] then s else Next(Run(s, steps[..|steps| - 1]), steps[|steps| - 1])
  }

  /** The first buffer that has not been handed over. */
  function Limit<T>(s: State<T>): Slot {
    if s.phase.Accepted? then (s.front + 1) % BUF_COUNT else s.front
  }

  /** The `k`-th of the `n` slots just before `limit`. */
  function Before(limit: Slot, n: nat, k: nat): Slot
    requires k < n <= BUF_COUNT
  {
    (limit + BUF_COUNT - n + k) % BUF_COUNT
  }

  /** The decoder holds the slots just before the limit, untouched, and the count is right. */
  ghost predicate Owned<T>(s: State<T>) {
    && |s.slots| == BUF_COUNT
    && s.pending == |s.held| + (if s.phase.Reserved? then 1 else 0) <= BUF_COUNT
    && (s.phase.Filling? ==> |s.held| < BUF_COUNT)
    && |s.held| <= |s.history| && Limit(s) == |s.history| % BUF_COUNT
    && (forall k | 0 <= k < |s.held| ::
          && s.held[k].slot == Before(Limit(s), |s.held|, k)
          && s.held[k].data == s.slots[s.held[k].slot] == s.history[|s.history| - |s.held| + k])
  }

  lemma BeforeAppended(limit: Slot, n: nat, k: nat)
    requires k <= n < BUF_COUNT
    ensures Before((limit + 1) % BUF_COUNT, n + 1, k) == if k == n then limit else Before(limit, n, k)
  {
  }

  lemma BeforeDropped(limit: Slot, n: nat, k: nat)
    requires k + 1 < n <= BUF_COUNT
    ensures Before(limit, n - 1, k) == Before(limit, n, k + 1)
  {
  }

  /** The slot at the limit is none of the fewer than four before it. */
  lemma LimitIsFree(limit: Slot, n: nat, k: nat)
    requires k < n < BUF_COUNT
    ensures Before(limit, n, k) != limit
  {
  }

  /** While the front buffer is filled, grown or handed over, the decoder does not hold it. */
  lemma FrontNotHeld<T>(s: State<T>, k: nat)
    requires Owned(s) && (s.phase.Filling? || s.phase.Reserved?) && k < |s.held|
    ensures s.held[k].slot != s.front
  {
    LimitIsFree(s.front, |s.held|, k);
  }

  lemma FillKeeps<T>(s: State<T>, data: T)
    requires Owned(s)
    ensures Owned(Next(s, Fill(data)))
  {
    if s.phase.Filling? {
      forall k | 0 <= k < |s.held| ensures s.held[k].slot != s.front { FrontNotHeld(s, k); }
    }
    hide Before;
  }

  lemma TakeKeeps<T>(s: State<T>)
    requires Owned(s)
    ensures Owned(Next(s, Take))
  {
    if s.phase.Reserved? {
      hide Before;
      var s', n := Next(s, Take), |s.held|;
      forall k | 0 <= k <= n
        ensures s'.held[k].slot == Before(Limit(s'), n + 1, k)
          && s'.held[k].data == s'.slots[s'.held[k].slot] == s'.history[|s'.history| - (n + 1) + k]
      {
        BeforeAppended(s.front, n, k);
        assert k < n ==> s'.held[k] == s.held[k];
      }
    }
  }

  /** Between submissions the count is exactly that of the units the decoder holds. */
  lemma PendingAreHeld<T>(s: State<T>)
    requires Owned(s) && !s.phase.Reserved?
    ensures s.pending == |s.held|
  {
    hide Before;
  }

  /** While the decoder is being asked to take a unit: an error, or an AUDONE when it holds nothing. */
  predicate Untimely<T>(s: State<T>, step: Step<T>) {
    s.phase.Reserved? && (step.Error? || (step.AuDone? && s.held == []))
  }

  lemma AuDoneKeeps<T>(s: State<T>)
    requires Owned(s)
    ensures Owned(Next(s, AuDone)) <==> !Untimely(s, AuDone)
  {
    if s.held != [] {
      var s' := Next(s, AuDone);
      hide Before;
      forall k | 0 <= k < |s'.held|
        ensures s'.held[k].slot == Before(Limit(s'), |s'.held|, k)
          && s'.held[k].data == s'.slots[s'.held[k].slot] == s'.history[|s'.history| - |s'.held| + k]
      {
        BeforeDropped(Limit(s), |s.held|, k);
        assert s'.held[k] == s.held[k + 1];
      }
    }
  }

  /** Every step keeps ownership but an untimely one, which takes the unit just counted from the count. */
  lemma StepKeeps<T>(s: State<T>, step: Step<T>)
    requires Owned(s)
    ensures Owned(Next(s, step)) <==> !Untimely(s, step)
  {
    match step
    case Fill(data) => FillKeeps(s, data);
    case Take => TakeKeeps(s);
    case AuDone => AuDoneKeeps(s);
    case _ => hide Before;
  }

  /** A run without untimely callbacks. */
  predicate Timely<T>(s: State<T>, steps: seq<Step<T>>)
    requires |s.slots| == BUF_COUNT
  {
    forall i | 0 <= i < |steps| :: !Untimely(Run(s, steps[..i]), steps[i])
  }

  lemma TimelyBefore<T>(s: State<T>, steps: seq<Step<T>>, k: nat)
    requires |s.slots| == BUF_COUNT && k <= |steps|
    ensures Timely(s, steps) ==> Timely(s, steps[..k])
  {
    hide Run, Untimely;
    assert forall i | 0 <= i <= k :: steps[..k][..i] == steps[..i];
  }

  lemma {:induction false} RunKeeps<T>(s: State<T>, steps: seq<Step<T>>)
    requires Owned(s) && Timely(s, steps)
    ensures Owned(Run(s, steps))
  {
    hide Before, Limit, Untimely, Next;
    if steps != [] {
      TimelyBefore(s, steps, |steps| - 1);
      RunKeeps(s, steps[..|steps| - 1]);
      StepKeeps(Run(s, steps[..|steps| - 1]), steps[|steps| - 1]);
    }
  }

  /**
   Over an interleaving of submissions and callbacks, ownership is as it should be all the time
   if and only if no untimely callback comes.
   */
  lemma {:induction false} AlwaysOwned<T>(slots: seq<T>, steps: seq<Step<T>>)
    requires |slots| == BUF_COUNT
    ensures (forall i | 0 <= i <= |steps| :: Owned(Run(Start(slots), steps[..i]))) <==> Timely(Start(slots), steps)
  {
    var s := Start(slots);
    StartOwned(slots);
    hide Owned, Untimely, Next, Start;
    if Timely(s, steps) {
      forall i | 0 <= i <= |steps| ensures Owned(Run(s, steps[..i])) {
        TimelyBefore(s, steps, i);
        RunKeeps(s, steps[..i]);
      }
    } else {
      var i :| 0 <= i < |steps| && Untimely(Run(s, steps[..i]), steps[i]);
      assert steps[..i + 1][..i] == steps[..i];
      assert Run(s, steps[..i + 1]) == Next(Run(s, steps[..i]), steps[i]);
      if Owned(Run(s, steps[..i])) { StepKeeps(Run(s, steps[..i]), steps[i]); }
    }
  }

  lemma StartOwned<T>(slots: seq<T>)
    requires |slots| == BUF_COUNT
    ensures Owned(Start(slots)) && |Start(slots).slots| == BUF_COUNT
  {
    hide Before;
  }

  // What the decoder can rely on

  /** The slots are used in turn. */
  lemma SlotOf(h: nat, n: nat, k: nat)
    requires k < n <= BUF_COUNT && n <= h
    ensures Before(h % BUF_COUNT, n, k) == (h - n + k) % BUF_COUNT
  {
  }

  /** The number of units the decoder has given back. */
  function Released<T>(s: State<T>): int {
    |s.history| - |s.held|
  }

  lemma HeldAt<T>(s: State<T>)
    requires Owned(s)
    ensures |s.slots| == BUF_COUNT && 0 <= Released(s)
    ensures forall k | 0 <= k < |s.held| ::
      && s.held[k].slot == (Released(s) + k) % BUF_COUNT
      && s.held[k].data == s.history[Released(s) + k] == s.slots[s.held[k].slot]
  {
    forall k | 0 <= k < |s.held| ensures s.held[k].slot == (Released(s) + k) % BUF_COUNT {
      SlotOf(|s.history|, |s.held|, k);
    }
    hide Before;
  }

  /** What was accepted and the number of units given back only grow. */
  lemma {:induction false} OnlyGrows<T>(s: State<T>, steps: seq<Step<T>>)
    requires Owned(s)
    ensures s.history <= Run(s, steps).history && Released(s) <= Released(Run(s, steps))
  {
    if steps != [] {
      OnlyGrows(s, steps[..|steps| - 1]);
    }
  }

  /** A unit the decoder has not given back is still held, in the same slot and intact, after any run. */
  lemma HeldIntact<T>(s: State<T>, steps: seq<Step<T>>, k: nat)
    requires Owned(s) && Timely(s, steps) && k < |s.held|
    requires Released(Run(s, steps)) <= Released(s) + k
    ensures var s' := Run(s, steps); var k' := Released(s) + k - Released(s');
      0 <= k' < |s'.held| && s'.held[k'] == s.held[k] && s'.slots[s.held[k].slot] == s.held[k].data
  {
    hide Before, Run, Owned, Limit, Timely;
    RunKeeps(s, steps);
    OnlyGrows(s, steps);
    HeldAt(s);
    HeldAt(Run(s, steps));
  }

  // What an untimely error does

  lemma Extend<T>(s0: State<T>, steps: seq<Step<T>>, s: State<T>, step: Step<T>)
    returns (steps': seq<Step<T>>, s': State<T>)
    requires |s0.slots| == BUF_COUNT && Run(s0, steps) == s
    ensures Run(s0, steps') == s' == Next(s, step)
  {
    steps', s' := steps + [step], Next(s, step);
    assert steps'[..|steps|] == steps;
  }

  /** A submission that the decoder accepts. */
  lemma Accepts<T>(s0: State<T>, steps: seq<Step<T>>, s: State<T>, data: T)
    returns (steps': seq<Step<T>>, s': State<T>)
    requires |s0.slots| == BUF_COUNT && Run(s0, steps) == s && s.phase.Idle? && s.pending < BUF_COUNT
    ensures Run(s0, steps') == s'
    ensures s' == State((s.front + 1) % BUF_COUNT, s.pending + 1, Idle, s.slots[s.front := data],
                        s.held + [Held(s.front, data)], s.history + [data])
  {
    hide Run;
    steps', s' := Extend(s0, steps, s, Check);
    steps', s' := Extend(s0, steps', s', Step.Fill(data));
    steps', s' := Extend(s0, steps', s', Reserve);
    steps', s' := Extend(s0, steps', s', Take);
    steps', s' := Extend(s0, steps', s', Advance);
  }

  /** The same with an error callback just before the decoder takes the unit. */
  lemma AcceptsAfterError<T>(s0: State<T>, steps: seq<Step<T>>, s: State<T>, data: T)
    returns (steps': seq<Step<T>>, s': State<T>)
    requires |s0.slots| == BUF_COUNT && Run(s0, steps) == s && s.phase.Idle? && s.pending < BUF_COUNT
    ensures Run(s0, steps') == s'
    ensures s' == State((s.front + 1) % BUF_COUNT, 0, Idle, s.slots[s.front := data],
                        [Held(s.front, data)], s.history + [data])
  {
    hide Run;
    steps', s' := Extend(s0, steps, s, Check);
    steps', s' := Extend(s0, steps', s', Step.Fill(data));
    steps', s' := Extend(s0, steps', s', Reserve);
    steps', s' := Extend(s0, steps', s', Error);
    steps', s' := Extend(s0, steps', s', Take);
    steps', s' := Extend(s0, steps', s', Advance);
  }

  /**
   After an untimely error the count is one short for good, and four submissions later the
   buffer that the decoder has held longest is filled again.
   */
  lemma Overwritten<T>(slots: seq<T>, a: T, b: T) returns (steps: seq<Step<T>>)
    requires |slots| == BUF_COUNT && a != b
    ensures var s := Run(Start(slots), steps);
      |s.slots| == BUF_COUNT && |s.held| == BUF_COUNT && s.held[0].data == a && s.slots[s.held[0].slot] == b
  {
    var s0 := Start(slots);
    assert Run(s0, []) == s0;
    hide Run;
    var s;
    steps, s := AcceptsAfterError(s0, [], s0, a);
    steps, s := Accepts(s0, steps, s, a);
    steps, s := Accepts(s0, steps, s, a);
    steps, s := Accepts(s0, steps, s, a);
    steps, s := Extend(s0, steps, s, Check);
    steps, s := Extend(s0, steps, s, Step.Fill(b));
  }
}
