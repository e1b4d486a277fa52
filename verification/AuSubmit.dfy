/**
 One submission to the video decoder: the fragments are joined in the front buffer, converted
 there and handed over; the buffers go round as in module AuRing.
 */
module AuSubmit {
  import opened Memory
  import opened NalUnits
  import opened NalConvert
  import opened AuRing
  import opened Wrappers

  /** A fragment; `Missing` has no data or a negative length. */
  datatype Entry = Missing | Data(bytes: Bytes)
  datatype Unit = Unit(fullLength: int, entries: seq<Entry>)

  /** The return codes of the submission and the answers of the decoder. */
  datatype Code = Okay | NeedIdr
  datatype Reply = Success | Busy | Failure

  function Joined(entries: seq<Entry>): (s: Bytes)
    requires Missing !in entries
  {
    if entries == [] then [] else Joined(entries[..|entries| - 1]) + entries[|entries| - 1].bytes
  }

  predicate ValidLength(u: Unit) {
    0 < u.fullLength <= MAX_UNIT
  }

  /** Whether the unit can be handed over at all. */
  predicate Submittable(u: Unit) {
    && ValidLength(u) && Missing !in u.entries && |Joined(u.entries)| == u.fullLength
    && Prepare(Joined(u.entries), u.fullLength + 4).Submit?
  }

  /** The bytes to hand over. */
  function Packet(u: Unit): Bytes
    requires Submittable(u)
  {
    Prepare(Joined(u.entries), u.fullLength + 4).bytes
  }

  /** A busy decoder is asked once more. */
  predicate Taken(first: Reply, retry: Reply) {
    first.Success? || (first.Busy? && retry.Success?)
  }

  /** The room for one more start code is all that the preparation asks of the buffer. */
  lemma RoomEnough(s: Bytes, capacity: nat)
    requires |s| <= MAX_UNIT && |s| + 4 <= capacity
    ensures Prepare(s, capacity) == Prepare(s, |s| + 4)
  {
    hide Walk, LooksStarted;
  }

  lemma {:induction false} JoinedGrows(entries: seq<Entry>, i: nat)
    requires Missing !in entries && i <= |entries|
    ensures |Joined(entries[..i])| <= |Joined(entries)|
    decreases |entries| - i
  {
    if i < |entries| {
      assert entries[..i + 1][..i] == entries[..i];
      JoinedGrows(entries, i + 1);
    } else {
      assert entries[..i] == entries;
    }
  }

  lemma JoinedOne(entries: seq<Entry>, i: nat)
    requires i < |entries| && Missing !in entries[..i] && entries[i].Data?
    ensures Missing !in entries[..i + 1] && Joined(entries[..i + 1]) == Joined(entries[..i]) + entries[i].bytes
  {
    assert entries[..i + 1][..i] == entries[..i];
    assert entries[..i + 1] == entries[..i] + [entries[i]];
  }

  /** Joins the fragments; it gives up at a missing one and at one that does not fit. */
  method Concatenate(entries: seq<Entry>, buf: array<Byte>) returns (ok: bool, length: nat)
    modifies buf
    ensures ok <==> Missing !in entries && |Joined(entries)| <= buf.Length
    ensures ok ==> length == |Joined(entries)| && buf[..length] == Joined(entries)
  {
    hide Joined;
    length := 0;
    NothingJoined();
    for i := 0 to |entries|
      invariant Missing !in entries[..i] && length <= buf.Length
      invariant length == |Joined(entries[..i])| && buf[..length] == Joined(entries[..i])
    {
      if entries[i].Missing? { return false, length; }
      JoinedOne(entries, i);
      if |entries[i].bytes| > buf.Length - length {
        if Missing !in entries { JoinedGrows(entries, i + 1); }
        return false, length;
      }
      CopyInto(entries[i].bytes, buf, length);
      length := length + |entries[i].bytes|;
    }
    assert entries[..|entries|] == entries;
    ok := true;
  }

  lemma NothingJoined()
    ensures Joined([]) == []
  {
  }

  /** Joins and converts a unit in a buffer with room to spare. */
  method Assemble(u: Unit, buf: array<Byte>) returns (ok: bool, length: nat)
    requires ValidLength(u) && u.fullLength + 64 <= buf.Length
    modifies buf
    ensures ok <==> Submittable(u)
    ensures ok ==> length <= buf.Length && buf[..length] == Packet(u)
  {
    hide Prepare, Joined;
    ok, length := Concatenate(u.entries, buf);
    if ok {
      if length == 0 || length != u.fullLength { return false, length; }
      RoomEnough(Joined(u.entries), buf.Length);
      ok, length := PrepareInPlace(buf, length);
    }
  }

  /**
   What the decoder calls back in the course of a submission: between the check and the offer,
   while it is being asked, and after it has accepted.
   */
  datatype Calls = Calls(early: seq<Step<Bytes>>, asked: seq<Step<Bytes>>, late: seq<Step<Bytes>>) {
    predicate Valid() {
      AreCalls(early) && AreCalls(asked) && AreCalls(late)
    }
  }

  predicate AreCalls(calls: seq<Step<Bytes>>) {
    forall i | 0 <= i < |calls| :: calls[i].AuDone? || calls[i].Error?
  }

  /** The steps of an offer, with the callbacks in their places. */
  function Offered(taken: bool, c: Calls): seq<Step<Bytes>> {
    if taken then [Reserve] + c.asked + [Take] + c.late + [Advance] else [Reserve] + c.asked + [Refuse]
  }

  /** The steps of a submission, which ends at the check, before the offer, or with it. */
  function Steps(u: Unit, pending: int, roomy: bool, taken: bool, data: Bytes, c: Calls): seq<Step<Bytes>> {
    if !ValidLength(u) then []
    else if pending >= BUF_COUNT then [Check]
    else [Check] + c.early + [Step.Fill(data)] + if roomy && Submittable(u) then Offered(taken, c) else [Abandon]
  }

  lemma RunOne(s: State<Bytes>, steps: seq<Step<Bytes>>, step: Step<Bytes>)
    requires |s.slots| == BUF_COUNT
    ensures Run(s, steps + [step]) == Next(Run(s, steps), step)
  {
  }

  lemma {:induction false} RunMore(s: State<Bytes>, a: seq<Step<Bytes>>, b: seq<Step<Bytes>>)
    requires |s.slots| == BUF_COUNT
    ensures Run(s, a + b) == Run(Run(s, a), b)
    decreases |b|
  {
    if b == [] {
      assert a + b == a;
    } else {
      RunMore(s, a, b[..|b| - 1]);
      assert (a + b)[..|a + b| - 1] == a + b[..|b| - 1];
    }
  }

  lemma SubmittableIs(u: Unit)
    ensures Submittable(u) <==>
      && 0 < u.fullLength <= 4194304 && Missing !in u.entries && |Joined(u.entries)| == u.fullLength
      && Prepare(Joined(u.entries), u.fullLength + 4) != Drop
    ensures Submittable(u) ==> Prepare(Joined(u.entries), u.fullLength + 4) == Prepared.Submit(Packet(u))
  {
    hide Prepare, Joined;
  }

  lemma TakenIs(first: Reply, retry: Reply)
    ensures Taken(first, retry) <==> first.Success? || (first.Busy? && retry.Success?)
  {
  }

  lemma NoSteps(s: State<Bytes>)
    requires |s.slots| == BUF_COUNT
    ensures Run(s, []) == s
  {
  }

  lemma RunFirst(s: State<Bytes>, step: Step<Bytes>, rest: seq<Step<Bytes>>)
    requires |s.slots| == BUF_COUNT
    ensures Run(s, [step] + rest) == Run(Next(s, step), rest)
  {
    hide Next;
    NoSteps(s);
    RunOne(s, [], step);
    assert [] + [step] == [step];
    RunMore(s, [step], rest);
  }

  lemma OneStep(s: State<Bytes>, step: Step<Bytes>)
    requires |s.slots| == BUF_COUNT
    ensures Run(s, [step]) == Next(s, step)
  {
    hide Next;
    assert [step] + [] == [step];
    RunFirst(s, step, []);
    NoSteps(Next(s, step));
  }

  lemma RefusedRun(s: State<Bytes>, c: Calls)
    requires |s.slots| == BUF_COUNT
    ensures Run(s, Offered(false, c)) == Next(Run(Next(s, Reserve), c.asked), Refuse)
  {
    hide Run, Next;
    assert Offered(false, c) == [Reserve] + (c.asked + [Refuse]);
    RunFirst(s, Reserve, c.asked + [Refuse]);
    RunMore(Next(s, Reserve), c.asked, [Refuse]);
    OneStep(Run(Next(s, Reserve), c.asked), Refuse);
  }

  lemma TakenSteps(c: Calls)
    ensures Offered(true, c) == [Reserve] + (c.asked + ([Take] + (c.late + [Advance])))
  {
  }

  lemma TakenRun(s: State<Bytes>, c: Calls)
    requires |s.slots| == BUF_COUNT
    ensures Run(s, Offered(true, c))
      == Next(Run(Next(Run(Next(s, Reserve), c.asked), Take), c.late), Advance)
  {
    var s1, late := Run(Next(s, Reserve), c.asked), c.late + [Advance];
    TakenSteps(c);
    hide Run, Next, Offered;
    RunFirst(s, Reserve, c.asked + ([Take] + late));
    RunMore(Next(s, Reserve), c.asked, [Take] + late);
    RunFirst(s1, Take, late);
    RunMore(Next(s1, Take), c.late, [Advance]);
    OneStep(Run(Next(s1, Take), c.late), Advance);
  }

  lemma FilledRun(s: State<Bytes>, early: seq<Step<Bytes>>, data: Bytes, rest: seq<Step<Bytes>>)
    requires |s.slots| == BUF_COUNT
    ensures Run(s, [Check] + early + [Step.Fill(data)] + rest)
      == Run(Next(Run(Next(s, Check), early), Step.Fill(data)), rest)
  {
    hide Run, Next;
    assert [Check] + early + [Step.Fill(data)] + rest == [Check] + (early + ([Step.Fill(data)] + rest));
    RunFirst(s, Check, early + ([Step.Fill(data)] + rest));
    RunMore(Next(s, Check), early, [Step.Fill(data)] + rest);
    RunFirst(Run(Next(s, Check), early), Step.Fill(data), rest);
  }

  /** Ownership is kept by a submission in whose course no untimely callback comes. */
  lemma OwnedAfter(s: State<Bytes>, steps: seq<Step<Bytes>>)
    requires |s.slots| == BUF_COUNT
    ensures Owned(s) && Timely(s, steps) ==> Owned(Run(s, steps))
  {
    hide Owned, Timely, Run;
    if Owned(s) && Timely(s, steps) { RunKeeps(s, steps); }
  }

  lemma CheckedState(s: State<Bytes>)
    requires |s.slots| == BUF_COUNT && s.phase.Idle?
    ensures Next(s, Check) == if s.pending < BUF_COUNT then s.(phase := Filling) else s
  {
  }

  lemma AbandonedState(s: State<Bytes>)
    requires |s.slots| == BUF_COUNT && s.phase.Filling?
    ensures Next(s, Abandon) == s.(phase := Idle)
  {
  }

  lemma ReservedState(s: State<Bytes>)
    requires |s.slots| == BUF_COUNT && s.phase.Filling?
    ensures Next(s, Reserve) == s.(phase := Reserved, pending := s.pending + 1)
  {
  }

  lemma AnsweredState(s: State<Bytes>)
    requires |s.slots| == BUF_COUNT && s.phase.Reserved?
    ensures Next(s, Refuse) == s.(phase := Idle, pending := s.pending - 1)
    ensures var data := s.slots[s.front];
      Next(s, Take) == s.(phase := Accepted, held := s.held + [Held(s.front, data)], history := s.history + [data])
  {
  }

  lemma AdvancedState(s: State<Bytes>)
    requires |s.slots| == BUF_COUNT && s.phase.Accepted?
    ensures Next(s, Advance) == s.(phase := Idle, front := (s.front + 1) % BUF_COUNT)
  {
  }

  class Submitter {
    var bufs: seq<array<Byte>>
    var front: nat
    var pending: int

    ghost var phase: Phase
    ghost var held: seq<Held<Bytes>>
    ghost var history: seq<Bytes>

    ghost predicate Shape()
      reads this`bufs, this`front
    {
      |bufs| == BUF_COUNT && front < BUF_COUNT && forall i, j | 0 <= i < j < BUF_COUNT :: bufs[i] != bufs[j]
    }

    ghost function Slots(): (s: seq<Bytes>)
      requires |bufs| == BUF_COUNT
      reads this`bufs, bufs
      ensures |s| == BUF_COUNT
    {
      [bufs[0][..], bufs[1][..], bufs[2][..], bufs[3][..]]
    }

    ghost function Ring(): (s: State<Bytes>)
      requires Shape()
      reads this, bufs
      ensures |s.slots| == BUF_COUNT
    {
      State(front, pending, phase, Slots(), held, history)
    }

    ghost predicate Valid()
      reads this, bufs
    {
      Shape() && Owned(Ring())
    }

    lemma FrontSlot()
      requires Shape()
      ensures Ring().slots[front] == bufs[front][..]
    {
    }

    constructor (sizes: seq<nat>)
      requires |sizes| == BUF_COUNT
      ensures Valid() && phase == Idle && held == [] && history == [] && pending == 0 && fresh(bufs)
    {
      var b0, b1 := new Byte[sizes[0]](_ => 0), new Byte[sizes[1]](_ => 0);
      var b2, b3 := new Byte[sizes[2]](_ => 0), new Byte[sizes[3]](_ => 0);
      bufs := [b0, b1, b2, b3];
      front, pending, phase, held, history := 0, 0, Idle, [], [];
    }

    /** Makes room in the front buffer; a larger one replaces it. */
    method Grow(needed: nat, canAllocate: bool) returns (ok: bool)
      requires Shape()
      modifies this`bufs
      ensures Shape() && ok == (old(bufs[front].Length) >= needed || canAllocate)
      ensures ok ==> bufs[front].Length >= needed
      ensures forall i | 0 <= i < BUF_COUNT && i != front :: bufs[i] == old(bufs[i])
      ensures bufs[front] == old(bufs[front]) || fresh(bufs[front])
    {
      ok := true;
      if bufs[front].Length < needed {
        if canAllocate {
          var newBuf := new Byte[needed + 2048](_ => 0);
          bufs := bufs[front := newBuf];
        } else {
          ok := false;
        }
      }
    }

    /** The AUDONE callback. */
    method AuDone()
      requires Shape()
      modifies this`pending, this`held
      ensures Shape() && Ring() == Next(old(Ring()), Step.AuDone)
    {
      if pending > 0 {
        pending := pending - 1;
      }
      held := if held == [] then [] else held[1..];
    }

    /** The ERROR callback. */
    method Error()
      requires Shape()
      modifies this`pending, this`held
      ensures Shape() && Ring() == Next(old(Ring()), Step.Error)
    {
      pending := 0;
      held := [];
    }

    /** Callbacks, one after the other. */
    method Callbacks(calls: seq<Step<Bytes>>)
      requires Shape() && AreCalls(calls)
      modifies this`pending, this`held
      ensures Shape() && Ring() == Run(old(Ring()), calls)
      ensures phase == old(phase)
    {
      hide Next, Run;
      ghost var s := Ring();
      NoSteps(s);
      for i := 0 to |calls|
        invariant Shape() && Ring() == Run(s, calls[..i])
      {
        RunOne(s, calls[..i], calls[i]);
        assert calls[..i + 1] == calls[..i] + [calls[i]];
        if calls[i].AuDone? { AuDone(); } else { Error(); }
      }
      assert calls[..|calls|] == calls;
    }

    /** The front buffer filled and nothing else changed. */
    method Fill(u: Unit, canAllocate: bool) returns (ok: bool, length: nat, ghost data: Bytes)
      requires Shape() && ValidLength(u) && phase == Filling
      modifies this`bufs, bufs[front]
      ensures Shape() && Ring() == Next(old(Ring()), Step.Fill(data)) && data == bufs[front][..]
      ensures forall b | b in bufs :: b in old(bufs) || fresh(b)
      ensures ok <==> (old(bufs[front].Length) >= u.fullLength + 64 || canAllocate) && Submittable(u)
      ensures ok ==> length <= |data| && data[..length] == Packet(u)
    {
      hide Submittable, Packet;
      length := 0;
      ok := Grow(u.fullLength + 64, canAllocate);
      if ok {
        ok, length := Assemble(u, bufs[front]);
      }
      data := bufs[front][..];
      assert Slots() == old(Slots())[front := data];
    }

    /** The decoder has taken the unit: on to the next buffer. */
    method Accept(late: seq<Step<Bytes>>)
      requires Shape() && phase == Reserved && AreCalls(late)
      modifies this`front, this`pending, this`phase, this`held, this`history
      ensures Shape() && phase == Idle && Ring() == Next(Run(Next(old(Ring()), Take), late), Advance)
    {
      hide Run, Next, Slots, AreCalls;
      AnsweredState(Ring());
      FrontSlot();
      phase, held := Accepted, held + [Held(front, bufs[front][..])];
      history := history + [bufs[front][..]];
      Callbacks(late);
      AdvancedState(Ring());
      front := (front + 1) % BUF_COUNT;
      phase := Idle;
    }

    /** The unit in the front buffer offered to the decoder, which takes it or not. */
    method Offer(first: Reply, retry: Reply, c: Calls) returns (r: Code)
      requires Shape() && phase == Filling && c.Valid()
      modifies this`front, this`pending, this`phase, this`held, this`history
      ensures Shape() && phase == Idle && r == if Taken(first, retry) then Okay else NeedIdr
      ensures Ring() == Run(old(Ring()), Offered(Taken(first, retry), c))
    {
      hide Run, Next, Slots, Offered;
      TakenRun(Ring(), c);
      RefusedRun(Ring(), c);
      ReservedState(Ring());
      pending := pending + 1;
      phase := Reserved;
      Callbacks(c.asked);
      var rc := first;
      if rc != Success {
        if rc == Busy { rc := retry; }
        if rc != Success {
          AnsweredState(Ring());
          pending := pending - 1;
          phase := Idle;
          return NeedIdr;
        }
      }
      Accept(c.late);
      r := Okay;
    }

    /**
     A submission, with the callbacks that come in its course. `sent` is what the decoder is
     given, if anything; `first` and `retry` are its answers.
     */
    method Submit(u: Unit, canAllocate: bool, first: Reply, retry: Reply, c: Calls)
      returns (r: Code, sent: Option<Bytes>, ghost data: Bytes)
      requires Shape() && phase == Idle && c.Valid()
      modifies this, bufs[front]
      ensures Shape() && phase == Idle && forall b | b in bufs :: b in old(bufs) || fresh(b)
      ensures sent.Some? <==>
        && 0 < u.fullLength <= 4194304 && old(pending) < 4
        && (old(bufs[front].Length) >= u.fullLength + 64 || canAllocate)
        && Missing !in u.entries && |Joined(u.entries)| == u.fullLength
        && Prepare(Joined(u.entries), u.fullLength + 4) != Drop
      ensures sent.Some? ==> Prepare(Joined(u.entries), u.fullLength + 4) == Prepared.Submit(sent.value)
      ensures r.NeedIdr? <==>
        && 0 < u.fullLength <= 4194304
        && (old(pending) >= 4 || (sent.Some? && !(first.Success? || (first.Busy? && retry.Success?))))
      ensures sent.Some? ==> sent.value <= data
      ensures var roomy := old(bufs[front].Length) >= u.fullLength + 64 || canAllocate;
        var steps := Steps(u, old(pending), roomy, Taken(first, retry), data, c);
        && Ring() == Run(old(Ring()), steps)
        && (old(Valid()) && Timely(old(Ring()), steps) ==> Valid())
    {
      hide Owned, Submittable, Packet, Run, Next, Timely, Taken, Offered, Slots;
      sent, data := None, [];
      ghost var s := Ring();
      NoSteps(s);
      OneStep(s, Check);
      OwnedAfter(s, []);
      OwnedAfter(s, [Check]);
      CheckedState(s);
      SubmittableIs(u);
      TakenIs(first, retry);
      if !ValidLength(u) { return Okay, None, []; }
      if pending >= BUF_COUNT { return NeedIdr, None, []; }
      phase := Filling;
      Callbacks(c.early);
      var ok, length;
      ok, length, data := Fill(u, canAllocate);
      ghost var rest := if ok then Offered(Taken(first, retry), c) else [Abandon];
      FilledRun(s, c.early, data, rest);
      OwnedAfter(s, [Check] + c.early + [Step.Fill(data)] + rest);
      if ok {
        sent := Some(bufs[front][..length]);
        r := Offer(first, retry, c);
      } else {
        OneStep(Ring(), Abandon);
        AbandonedState(Ring());
        phase := Idle;
        r := Okay;
      }
    }
  }

  /**
   Fragments that join to length-prefixed units are sent as a byte stream, and a decoder that
   splits it at the start codes sees the units.
   */
  lemma UnitsSent(u: Unit, nals: seq<Bytes>)
    requires nals != [] && Fits(nals) && Missing !in u.entries && Joined(u.entries) == Prefixed(nals)
    requires ValidLength(u) && u.fullLength == |Prefixed(nals)|
    requires |nals[0]| != 1 && !(256 <= |nals[0]| < 512)
    ensures Submittable(u) && Packet(u) == Stream(nals)
    ensures (forall i | 0 <= i < |nals| :: Emulated(nals[i])) ==> Split(Packet(u)) == nals
  {
    hide Prepare, Emulated, Split, Stream, Prefixed, Joined;
    UnitsConverted(nals, u.fullLength + 4);
    if forall i | 0 <= i < |nals| :: Emulated(nals[i]) { SplitStream(nals); }
  }

  /** Units that already come as a byte stream are sent as they are. */
  lemma StreamSent(u: Unit, nals: seq<Bytes>)
    requires nals != [] && Missing !in u.entries && Joined(u.entries) == Stream(nals)
    requires 0 < u.fullLength == |Stream(nals)| <= 4194304
    requires forall nal | nal in nals ::
      && nal != [] && nal[|nal| - 1] != 0
      && forall k | 0 <= k < |nal| - 2 :: !(nal[k] == 0 && nal[k + 1] == 0 && nal[k + 2] <= 1)
    ensures Submittable(u) && Packet(u) == Stream(nals) && Split(Packet(u)) == nals
  {
    forall i | 0 <= i < |nals| ensures Emulated(nals[i]) {
      assert nals[i] in nals;
    }
    StreamStarts(nals);
    StartedKept(Stream(nals), u.fullLength + 4);
    hide Prepare, Emulated, Split, Stream, Joined;
    SplitStream(nals);
  }

  lemma StreamStarts(nals: seq<Bytes>)
    requires nals != [] && nals[0] != []
    ensures var s := Stream(nals); |s| > 4 && s[0] == 0 && s[1] == 0 && s[2] == 0 && s[3] == 1
  {
    assert Stream(nals) == START_CODE + (nals[0] + Stream(nals[1..]));
  }

  /** The fragments are put together in their order. */
  lemma JoinedInOrder(entries: seq<Entry>, bytes: Bytes)
    requires Missing !in entries
    ensures Joined([]) == [] && Joined(entries + [Data(bytes)]) == Joined(entries) + bytes
  {
    assert (entries + [Data(bytes)])[..|entries|] == entries;
  }

  /** A submission in whose course no callback comes leaves the ring like this. */
  lemma QuietSubmission(s: State<Bytes>, u: Unit, data: Bytes)
    requires |s.slots| == 4 && s.phase.Idle? && s.pending < 4 && 0 < u.fullLength <= 4194304
    ensures var c := Calls([], [], []); var slots := s.slots[s.front := data];
      && (!Submittable(u) ==> Run(s, Steps(u, s.pending, true, true, data, c)) == s.(slots := slots))
      && (Submittable(u) ==> Run(s, Steps(u, s.pending, true, false, data, c)) == s.(slots := slots))
      && (Submittable(u) ==> Run(s, Steps(u, s.pending, true, true, data, c)) == s.(
            slots := slots, front := (s.front + 1) % 4, pending := s.pending + 1,
            held := s.held + [Held(s.front, data)], history := s.history + [data]))
  {
    hide Submittable, Run, Next;
    var c := Calls([], [], []);
    var f := Next(Run(Next(s, Check), []), Step.Fill(data));
    NoSteps(Next(s, Check));
    CheckedState(s);
    QuietStates(s.(phase := Filling), data);
    FilledRun(s, [], data, [Abandon]);
    OneStep(f, Abandon);
    AbandonedState(f);
    FilledRun(s, [], data, Offered(true, c));
    FilledRun(s, [], data, Offered(false, c));
    TakenRun(f, c);
    RefusedRun(f, c);
    NoSteps(Next(f, Reserve));
    NoSteps(Next(Next(f, Reserve), Take));
    ReservedState(f);
    AnsweredState(Next(f, Reserve));
    AdvancedState(Next(Next(f, Reserve), Take));
  }

  lemma QuietStates(s: State<Bytes>, data: Bytes)
    requires |s.slots| == 4 && s.phase.Filling?
    ensures Next(s, Step.Fill(data)) == s.(slots := s.slots[s.front := data])
  {
  }
}
