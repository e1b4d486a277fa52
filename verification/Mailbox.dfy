/**
 The request protocol between the main processor and an SPU worker: a command block and two
 bounce buffers in main memory, a signal register, and DMA copies in the worker's local store.
 Each side is a program of atomic steps, and the steps of the two sides interleave freely.
 */
module Mailbox {
  import opened Memory

  const MAX_PACKET := 1024
  const MAX_SAMPLES := 960
  const PCM_FLOATS := 1920

  datatype Status = Ready | Busy | Ok | Err

  /** The fields of the command block that a decode request uses. */
  datatype Command = Command(status: Status, len: nat, decoded: nat)

  /** What the codec makes of one packet: its new state and interleaved stereo, empty for an error. */
  datatype Frame<D, T> = Frame(state: D, pcm: seq<T>)

  datatype Request<B> = Request(packet: seq<B>, maxSamples: nat)
  datatype Reply<T> = Reply(ok: bool, samples: nat, pcm: seq<T>) | TimedOut

  /** Where the caller is: idle, before one of its writes, polling, or reading the result. */
  datatype Caller = Idle | Stage | MarkBusy | SetLength | Post | Poll | Collect | Leave

  /** Where the worker is: blocked on the signal, or before one of its transfers. */
  datatype Worker = Waiting | Fetch | Input | Decode | Output | WriteBack

  datatype State<D, B, T> = State(
    cmd: Command, bounceIn: seq<B>, bounceOut: seq<T>, signal: bool,
    caller: Caller, request: Request<B>, outSamples: nat, outPcm: seq<T>,
    worker: Worker, local: Command, lsIn: seq<B>, lsPcm: seq<T>, codec: D,
    asked: seq<Request<B>>, replies: seq<Reply<T>>)

  datatype Step<B> = Ask(request: Request<B>) | CallerStep | WorkerStep | Timeout

  function Min(a: nat, b: nat): nat {
    if a < b then a else b
  }

  /** The bytes of a packet that are sent. */
  function Sent<B>(packet: seq<B>): (p: seq<B>)
    ensures |p| <= MAX_PACKET
  {
    packet[..Min(|packet|, MAX_PACKET)]
  }

  function Overwrite<X>(buf: seq<X>, data: seq<X>): (r: seq<X>)
    ensures |data| <= |buf| ==> |r| == |buf|
    ensures data <= r
  {
    if |data| <= |buf| then data + buf[|data|..] else data
  }

  /** DMA moves whole quadwords, which hold four floats. */
  function QuadFloats(n: nat): (q: nat)
    ensures n <= q < n + 4 && q % 4 == 0
  {
    (n + 3) / 4 * 4
  }

  /** The caller's program, one memory access at a time. */
  function NextCaller<D, B, T>(s: State<D, B, T>): State<D, B, T> {
    match s.caller
    case Idle => s
    case Stage => s.(bounceIn := Overwrite(s.bounceIn, Sent(s.request.packet)), caller := MarkBusy)
    case MarkBusy => s.(cmd := s.cmd.(status := Busy), caller := SetLength)
    case SetLength => s.(cmd := s.cmd.(len := |Sent(s.request.packet)|), caller := Post)
    case Post => s.(signal := true, caller := Poll)
    case Poll => if s.cmd.status.Busy? then s else s.(caller := Collect)
    case Collect =>
      var n := Min(s.cmd.decoded, s.request.maxSamples);
      s.(outSamples := n, outPcm := s.bounceOut[..Min(2 * n, |s.bounceOut|)], caller := Leave)
    case Leave =>
      s.(replies := s.replies + [Reply(s.cmd.status.Ok?, s.outSamples, s.outPcm)], caller := Idle)
  }

  /** The worker's program, one transfer at a time. */
  function NextWorker<D, B, T>(dec: (D, seq<B>) -> Frame<D, T>, s: State<D, B, T>): State<D, B, T> {
    match s.worker
    case Waiting => if s.signal then s.(signal := false, worker := Fetch) else s
    case Fetch => s.(local := s.cmd, worker := Input)
    case Input =>
      var n := QuadBytes(Min(s.local.len, MAX_PACKET));
      s.(lsIn := if n > 0 then Overwrite(s.lsIn, s.bounceIn[..Min(n, |s.bounceIn|)]) else s.lsIn, worker := Decode)
    case Decode =>
      var f := dec(s.codec, s.lsIn[..Min(Min(s.local.len, MAX_PACKET), |s.lsIn|)]);
      s.(codec := f.state, lsPcm := Overwrite(s.lsPcm, f.pcm),
         local := s.local.(decoded := |f.pcm| / 2, status := if f.pcm == [] then Err else Ok), worker := Output)
    case Output =>
      var n := QuadFloats(2 * s.local.decoded);
      s.(bounceOut := if n > 0 then Overwrite(s.bounceOut, s.lsPcm[..Min(n, |s.lsPcm|)]) else s.bounceOut,
         worker := WriteBack)
    case WriteBack => s.(cmd := s.local, worker := Waiting)
  }

  function Next<D, B, T>(dec: (D, seq<B>) -> Frame<D, T>, s: State<D, B, T>, step: Step<B>): State<D, B, T> {
    match step
    case Ask(request) =>
      if s.caller.Idle? then s.(request := request, asked := s.asked + [request], caller := Stage) else s
    case CallerStep => NextCaller(s)
    case WorkerStep => NextWorker(dec, s)
    case Timeout =>
      if s.caller.Poll? then s.(replies := s.replies + [TimedOut], caller := Idle) else s
  }

  function Run<D, B, T>(dec: (D, seq<B>) -> Frame<D, T>, s: State<D, B, T>, steps: seq<Step<B>>): State<D, B, T> {
    if steps == [] then s else Next(dec, Run(dec, s, steps[..|steps| - 1]), steps[|steps| - 1])
  }

  // What the caller should see

  /** The codec after the packets of some requests, one after the other. */
  function CodecAfter<D, B, T>(dec: (D, seq<B>) -> Frame<D, T>, d: D, asked: seq<Request<B>>): D {
    if asked == [] then d
    else dec(CodecAfter(dec, d, asked[..|asked| - 1]), Sent(asked[|asked| - 1].packet)).state
  }

  function ReplyOf<B, T>(pcm: seq<T>, r: Request<B>): Reply<T> {
    var n := Min(|pcm| / 2, r.maxSamples);
    Reply(pcm != [], n, pcm[..Min(2 * n, |pcm|)])
  }

  /** The replies to requests served one at a time, in order, by one codec. */
  function Ideal<D, B, T>(dec: (D, seq<B>) -> Frame<D, T>, d: D, asked: seq<Request<B>>): (rs: seq<Reply<T>>)
    ensures |rs| == |asked|
  {
    if asked == [] then []
    else
      var before, last := asked[..|asked| - 1], asked[|asked| - 1];
      Ideal(dec, d, before) + [ReplyOf(dec(CodecAfter(dec, d, before), Sent(last.packet)).pcm, last)]
  }

  /** A decoder of at most 960 stereo samples a packet. */
  ghost predicate Bounded<D(!new), B(!new), T>(dec: (D, seq<B>) -> Frame<D, T>) {
    forall d, p :: |dec(d, p).pcm| % 2 == 0 && |dec(d, p).pcm| <= 2 * MAX_SAMPLES
  }

  ghost predicate Sized<D, B, T>(s: State<D, B, T>) {
    |s.bounceIn| == |s.lsIn| == MAX_PACKET && |s.bounceOut| == |s.lsPcm| == PCM_FLOATS
  }

  /** Before the request is posted and after its reply is there, the worker sleeps. */
  predicate Quiet<D, B, T>(s: State<D, B, T>) {
    s.worker.Waiting? && !s.signal
  }

  /** What the codec makes of the last request, after all those before it. */
  function Current<D, B, T>(dec: (D, seq<B>) -> Frame<D, T>, d: D, s: State<D, B, T>): Frame<D, T>
    requires s.asked != []
  {
    dec(Before(dec, d, s), Sent(s.asked[|s.asked| - 1].packet))
  }

  function Before<D, B, T>(dec: (D, seq<B>) -> Frame<D, T>, d: D, s: State<D, B, T>): D
    requires s.asked != []
  {
    CodecAfter(dec, d, s.asked[..|s.asked| - 1])
  }

  /** The command block as the worker leaves it. */
  function Final<D, T>(f: Frame<D, T>, len: nat): Command {
    Command(if f.pcm == [] then Err else Ok, len, |f.pcm| / 2)
  }

  /** What a caller that has posted can expect at each place of the worker. */
  ghost predicate Serving<D, B, T>(before: D, packet: seq<B>, f: Frame<D, T>, s: State<D, B, T>) {
    if Quiet(s) then
      s.codec == f.state && s.cmd == Final(f, |packet|) && f.pcm <= s.bounceOut
    else
      && s.cmd.status.Busy? && s.cmd.len == |packet| && packet <= s.bounceIn
      && (s.signal <==> s.worker.Waiting?)
      && (s.worker.Waiting? || s.worker.Fetch? || s.worker.Input? || s.worker.Decode? ==> s.codec == before)
      && (s.worker.Input? || s.worker.Decode? ==> s.local.len == |packet|)
      && (s.worker.Decode? ==> packet <= s.lsIn)
      && (s.worker.Output? || s.worker.WriteBack? ==> s.codec == f.state && s.local == Final(f, |packet|))
      && (s.worker.Output? ==> f.pcm <= s.lsPcm)
      && (s.worker.WriteBack? ==> f.pcm <= s.bounceOut)
  }

  /** What the caller has written before it posts. */
  ghost predicate Preparing<D, B, T>(before: D, packet: seq<B>, s: State<D, B, T>) {
    && s.codec == before
    && (s.caller.MarkBusy? || s.caller.SetLength? || s.caller.Post? ==> packet <= s.bounceIn)
    && (s.caller.SetLength? || s.caller.Post? ==> s.cmd.status.Busy?)
    && (s.caller.Post? ==> s.cmd.len == |packet|)
  }

  predicate HasPosted<D, B, T>(s: State<D, B, T>) {
    s.caller.Poll? || s.caller.Collect? || s.caller.Leave?
  }

  /** Replies that are the ideal ones but for those that a timeout has cut off. */
  predicate Right<T(==)>(replies: seq<Reply<T>>, ideal: seq<Reply<T>>) {
    |replies| == |ideal| && forall i | 0 <= i < |replies| :: replies[i].TimedOut? || replies[i] == ideal[i]
  }

  /**
   The replies so far are right. The worker is awake only while the caller polls, or for a
   request whose caller has given up.
   */
  ghost predicate Sound<D, B, T>(dec: (D, seq<B>) -> Frame<D, T>, d: D, s: State<D, B, T>) {
    && Sized(s)
    && |s.asked| == |s.replies| + (if s.caller.Idle? then 0 else 1)
    && Right(s.replies, Ideal(dec, d, s.asked[..|s.replies|]))
    && (s.asked == [] ==> Quiet(s) && s.codec == d && !s.cmd.status.Busy?)
    && (s.asked != [] ==> Attended(dec, d, s))
  }

  /** The state of the last request. */
  ghost predicate Attended<D, B, T>(dec: (D, seq<B>) -> Frame<D, T>, d: D, s: State<D, B, T>)
    requires s.asked != []
  {
    var packet, f := Sent(s.request.packet), Current(dec, d, s);
    && s.request == s.asked[|s.asked| - 1]
    && (HasPosted(s) || s.caller.Idle? ==> Serving(Before(dec, d, s), packet, f, s))
    && (!HasPosted(s) && !s.caller.Idle? ==> Preparing(Before(dec, d, s), packet, s))
    && (!s.caller.Poll? && !s.caller.Idle? ==> Quiet(s))
    && (s.caller.Leave? ==> Reply(f.pcm != [], s.outSamples, s.outPcm) == ReplyOf(f.pcm, s.request))
  }

  // What every step keeps

  lemma CallerKeeps<D(!new), B(!new), T>(dec: (D, seq<B>) -> Frame<D, T>, d: D, s: State<D, B, T>)
    requires Bounded(dec) && Sound(dec, d, s)
    ensures Sound(dec, d, NextCaller(s))
  {
    match s.caller
    case Collect => CollectKeeps(dec, d, s);
    case Leave => LeaveKeeps(dec, d, s);
    case _ => hide Ideal, CodecAfter, ReplyOf, Current, Before, Final, Right;
  }

  lemma CollectKeeps<D(!new), B(!new), T>(dec: (D, seq<B>) -> Frame<D, T>, d: D, s: State<D, B, T>)
    requires Bounded(dec) && Sound(dec, d, s) && s.caller.Collect?
    ensures Sound(dec, d, NextCaller(s))
  {
    SameRequest(dec, d, s, NextCaller(s));
    hide Ideal, CodecAfter, Right, Before;
    var pcm := Current(dec, d, s).pcm;
    assert |pcm| % 2 == 0 && |pcm| <= 2 * MAX_SAMPLES;
    var n := Min(s.cmd.decoded, s.request.maxSamples);
    assert s.bounceOut[..2 * n] == pcm[..2 * n];
  }

  lemma LeaveKeeps<D(!new), B(!new), T>(dec: (D, seq<B>) -> Frame<D, T>, d: D, s: State<D, B, T>)
    requires Sound(dec, d, s) && s.caller.Leave?
    ensures Sound(dec, d, NextCaller(s))
  {
    IdealGrows(dec, d, s);
    hide Ideal, CodecAfter, ReplyOf, Right;
    RightOneMore(s.replies, Ideal(dec, d, s.asked[..|s.replies|]), Current(dec, d, s).pcm, s.request,
                 NextCaller(s).replies[|s.replies|]);
  }

  /** Giving up leaves everything else as it is. */
  lemma TimeoutKeeps<D(!new), B(!new), T>(dec: (D, seq<B>) -> Frame<D, T>, d: D, s: State<D, B, T>)
    requires Sound(dec, d, s)
    ensures Sound(dec, d, Next(dec, s, Timeout))
  {
    hide Ideal, CodecAfter, ReplyOf, Right, Current, Before, Serving, Preparing;
    if s.caller.Poll? {
      IdealGrows(dec, d, s);
      SameRequest(dec, d, s, Next(dec, s, Timeout));
      RightOneMore(s.replies, Ideal(dec, d, s.asked[..|s.replies|]), Current(dec, d, s).pcm, s.request, TimedOut);
      SameServing(Before(dec, d, s), Sent(s.request.packet), Current(dec, d, s), s, Next(dec, s, Timeout));
    }
  }

  /** The caller's place and its replies do not matter to the worker. */
  lemma SameServing<D, B, T>(before: D, packet: seq<B>, f: Frame<D, T>, s: State<D, B, T>, s': State<D, B, T>)
    requires Serving(before, packet, f, s) && s' == s.(caller := s'.caller, replies := s'.replies)
    ensures Serving(before, packet, f, s')
  {
    hide Final;
  }

  lemma RightOneMore<B, T>(replies: seq<Reply<T>>, ideal: seq<Reply<T>>, pcm: seq<T>, r: Request<B>, reply: Reply<T>)
    requires Right(replies, ideal) && (reply.TimedOut? || reply == ReplyOf(pcm, r))
    ensures Right(replies + [reply], ideal + [ReplyOf(pcm, r)])
  {
    hide ReplyOf;
  }

  lemma IdealGrows<D(!new), B(!new), T>(dec: (D, seq<B>) -> Frame<D, T>, d: D, s: State<D, B, T>)
    requires s.asked != [] && |s.asked| == |s.replies| + 1
    ensures var last := s.asked[|s.asked| - 1];
      Ideal(dec, d, s.asked) == Ideal(dec, d, s.asked[..|s.replies|]) + [ReplyOf(Current(dec, d, s).pcm, last)]
    ensures s.asked[..|s.replies| + 1] == s.asked
  {
    IdealOneMore(dec, d, s.asked);
  }

  lemma IdealOneMore<D, B, T>(dec: (D, seq<B>) -> Frame<D, T>, d: D, asked: seq<Request<B>>)
    requires asked != []
    ensures var k := |asked| - 1; var f := dec(CodecAfter(dec, d, asked[..k]), Sent(asked[k].packet));
      && Ideal(dec, d, asked) == Ideal(dec, d, asked[..k]) + [ReplyOf(f.pcm, asked[k])]
      && CodecAfter(dec, d, asked) == f.state
  {
    hide ReplyOf;
  }

  lemma WorkerKeeps<D(!new), B(!new), T>(dec: (D, seq<B>) -> Frame<D, T>, d: D, s: State<D, B, T>)
    requires Bounded(dec) && Sound(dec, d, s)
    ensures Sound(dec, d, NextWorker(dec, s))
  {
    hide Ideal, CodecAfter, ReplyOf, Right, Before, Serving, Preparing;
    if s.asked != [] && !Quiet(s) {
      WorkerServes(dec, Before(dec, d, s), Sent(s.request.packet), Current(dec, d, s), s);
      SameRequest(dec, d, s, NextWorker(dec, s));
    }
  }

  lemma SameRequest<D, B, T>(dec: (D, seq<B>) -> Frame<D, T>, d: D, s: State<D, B, T>, s': State<D, B, T>)
    requires s.asked != [] && s.asked == s'.asked
    ensures Current(dec, d, s) == Current(dec, d, s') && Before(dec, d, s) == Before(dec, d, s')
  {
  }

  /** The worker's next transfer brings the request on. */
  lemma WorkerServes<D(!new), B(!new), T>(dec: (D, seq<B>) -> Frame<D, T>, before: D, packet: seq<B>, f: Frame<D, T>,
                                         s: State<D, B, T>)
    requires Bounded(dec) && Sized(s) && |packet| <= MAX_PACKET && f == dec(before, packet)
    requires Serving(before, packet, f, s)
    ensures var s' := NextWorker(dec, s); Sized(s') && Serving(before, packet, f, s')
  {
    assert |f.pcm| % 2 == 0 && |f.pcm| <= 2 * MAX_SAMPLES;
    match s.worker
    case Input => InputServes(packet, s.lsIn, s.bounceIn);
    case Decode => assert s.lsIn[..|packet|] == packet;
    case Output => OutputServes(f.pcm, s.bounceOut, s.lsPcm);
    case _ =>
  }

  lemma InputServes<B>(packet: seq<B>, lsIn: seq<B>, bounceIn: seq<B>)
    requires |lsIn| == |bounceIn| == MAX_PACKET && packet <= bounceIn
    ensures QuadBytes(|packet|) <= MAX_PACKET
    ensures var n := QuadBytes(|packet|);
      var r := if n > 0 then Overwrite(lsIn, bounceIn[..n]) else lsIn;
      |r| == MAX_PACKET && packet <= r
  {
  }

  lemma OutputServes<T>(pcm: seq<T>, bounceOut: seq<T>, lsPcm: seq<T>)
    requires |bounceOut| == |lsPcm| == PCM_FLOATS && pcm <= lsPcm && |pcm| % 2 == 0
    ensures QuadFloats(2 * (|pcm| / 2)) <= PCM_FLOATS
    ensures var n := QuadFloats(2 * (|pcm| / 2));
      var r := if n > 0 then Overwrite(bounceOut, lsPcm[..n]) else bounceOut;
      |r| == PCM_FLOATS && pcm <= r
  {
  }

  lemma AskKeeps<D(!new), B(!new), T>(dec: (D, seq<B>) -> Frame<D, T>, d: D, s: State<D, B, T>, r: Request<B>)
    requires Sound(dec, d, s) && (s.caller.Idle? ==> Quiet(s))
    ensures Sound(dec, d, Next(dec, s, Ask(r)))
  {
    hide Ideal, ReplyOf, Right, CodecAfter;
    if s.caller.Idle? {
      CodecOfAll(dec, d, s);
      assert (s.asked + [r])[..|s.replies|] == s.asked[..|s.replies|] == s.asked;
      assert Before(dec, d, Next(dec, s, Ask(r))) == CodecAfter(dec, d, s.asked);
    }
  }

  lemma CodecOfAll<D(!new), B(!new), T>(dec: (D, seq<B>) -> Frame<D, T>, d: D, s: State<D, B, T>)
    requires Sound(dec, d, s) && s.caller.Idle? && Quiet(s)
    ensures s.codec == CodecAfter(dec, d, s.asked)
  {
    if s.asked != [] {
      IdealOneMore(dec, d, s.asked);
    }
    hide Ideal, Right, ReplyOf;
  }

  // Runs

  predicate NoTimeout<B>(steps: seq<Step<B>>) {
    forall i | 0 <= i < |steps| :: !steps[i].Timeout?
  }

  /** With no request open, the status field tells whether the worker sleeps. */
  lemma StatusTells<D(!new), B(!new), T>(dec: (D, seq<B>) -> Frame<D, T>, d: D, s: State<D, B, T>)
    requires Sound(dec, d, s) && s.caller.Idle?
    ensures Quiet(s) <==> !s.cmd.status.Busy?
  {
    if s.asked != [] { FinalNotBusy(Current(dec, d, s), |Sent(s.request.packet)|); }
    hide Ideal, CodecAfter, ReplyOf, Right, Current, Before, Final;
  }

  lemma FinalNotBusy<D, T>(f: Frame<D, T>, len: nat)
    ensures !Final(f, len).status.Busy?
  {
  }

  /** A run in which no request is staged while the status field reads busy. */
  predicate Patient<D, B, T>(dec: (D, seq<B>) -> Frame<D, T>, s: State<D, B, T>, steps: seq<Step<B>>) {
    forall i | 0 <= i < |steps| ::
      steps[i].Ask? && Run(dec, s, steps[..i]).caller.Idle? ==> !Run(dec, s, steps[..i]).cmd.status.Busy?
  }

  lemma StepKeeps<D(!new), B(!new), T>(
    dec: (D, seq<B>) -> Frame<D, T>, d: D, s: State<D, B, T>, step: Step<B>)
    requires Bounded(dec) && Sound(dec, d, s) && (step.Ask? && s.caller.Idle? ==> !s.cmd.status.Busy?)
    ensures Sound(dec, d, Next(dec, s, step))
  {
    hide Sound, Bounded, NextCaller, NextWorker;
    match step
    case Ask(r) => if s.caller.Idle? { StatusTells(dec, d, s); } AskKeeps(dec, d, s, r);
    case CallerStep => CallerKeeps(dec, d, s);
    case WorkerStep => WorkerKeeps(dec, d, s);
    case Timeout => TimeoutKeeps(dec, d, s);
  }

  lemma {:induction false} RunKeeps<D(!new), B(!new), T>(
    dec: (D, seq<B>) -> Frame<D, T>, d: D, s: State<D, B, T>, steps: seq<Step<B>>)
    requires Bounded(dec) && Sound(dec, d, s) && Patient(dec, s, steps)
    ensures Sound(dec, d, Run(dec, s, steps))
  {
    hide Sound, Bounded, Next;
    if steps != [] {
      var n := |steps| - 1;
      assert forall i | 0 <= i < n :: steps[..n][..i] == steps[..i];
      RunKeeps(dec, d, s, steps[..n]);
      StepKeeps(dec, d, Run(dec, s, steps[..n]), steps[n]);
    }
  }

  /** Nobody has given up from reply `k` on, and the worker is awake only while the caller polls. */
  ghost predicate Prompt<D, B, T>(s: State<D, B, T>, k: nat) {
    (forall i | k <= i < |s.replies| :: s.replies[i].Reply?) && (!s.caller.Poll? ==> Quiet(s))
  }

  lemma PromptStep<D(!new), B(!new), T>(
    dec: (D, seq<B>) -> Frame<D, T>, d: D, s: State<D, B, T>, k: nat, step: Step<B>)
    requires Sound(dec, d, s) && Prompt(s, k) && !step.Timeout?
    ensures Prompt(Next(dec, s, step), k)
    ensures s.asked <= Next(dec, s, step).asked && s.replies <= Next(dec, s, step).replies
  {
    hide Ideal, CodecAfter, ReplyOf, Right, Current, Before, Preparing, Final;
  }

  lemma {:induction false} PromptRun<D(!new), B(!new), T>(
    dec: (D, seq<B>) -> Frame<D, T>, d: D, s: State<D, B, T>, k: nat, steps: seq<Step<B>>)
    requires Bounded(dec) && Sound(dec, d, s) && Prompt(s, k) && NoTimeout(steps)
    ensures Sound(dec, d, Run(dec, s, steps)) && Prompt(Run(dec, s, steps), k)
    ensures s.asked <= Run(dec, s, steps).asked && s.replies <= Run(dec, s, steps).replies
  {
    hide Sound, Bounded, Next;
    if steps != [] {
      var before, last := Run(dec, s, steps[..|steps| - 1]), steps[|steps| - 1];
      PromptRun(dec, d, s, k, steps[..|steps| - 1]);
      PromptStep(dec, d, before, k, last);
      if before.caller.Idle? { StatusTells(dec, d, before); }
      StepKeeps(dec, d, before, last);
    }
  }

  /** The state after initialization, with anything in the buffers and a command block that is not busy. */
  ghost predicate Starts<D, B, T>(d: D, s: State<D, B, T>) {
    && Sized(s) && s.caller.Idle? && Quiet(s) && s.codec == d && s.asked == [] && s.replies == []
    && !s.cmd.status.Busy?
  }

  /**
   In every interleaving without a timeout the caller gets, request by request, what a codec
   serving one request at a time would return; with no request open nothing is signalled, the
   worker sleeps, and a step of it changes nothing.
   */
  lemma {:induction false} RepliesAreIdeal<D(!new), B(!new), T>(
    dec: (D, seq<B>) -> Frame<D, T>, d: D, start: State<D, B, T>, steps: seq<Step<B>>)
    requires Bounded(dec) && Starts(d, start) && NoTimeout(steps)
    ensures var s := Run(dec, start, steps);
      && |s.replies| <= |s.asked| <= |s.replies| + 1
      && s.replies == Ideal(dec, d, s.asked[..|s.replies|])
      && (s.caller.Idle? ==>
            s.replies == Ideal(dec, d, s.asked) && s.codec == CodecAfter(dec, d, s.asked) && Quiet(s)
            && NextWorker(dec, s) == s)
  {
    StartsSound(dec, d, start);
    PromptRun(dec, d, start, 0, steps);
    var s := Run(dec, start, steps);
    AllReplies(s.replies, Ideal(dec, d, s.asked[..|s.replies|]));
    hide Ideal, CodecAfter, Run;
    if s.caller.Idle? {
      CodecOfAll(dec, d, s);
      assert s.asked[..|s.replies|] == s.asked;
    }
  }

  lemma StartsSound<D(!new), B(!new), T>(dec: (D, seq<B>) -> Frame<D, T>, d: D, start: State<D, B, T>)
    requires Starts(d, start)
    ensures Sound(dec, d, start) && Prompt(start, 0)
  {
    assert start.asked[..0] == [];
  }

  lemma AllReplies<T>(replies: seq<Reply<T>>, ideal: seq<Reply<T>>)
    requires Right(replies, ideal) && forall i | 0 <= i < |replies| :: replies[i].Reply?
    ensures replies == ideal
  {
  }

  /**
   With timeouts, as long as the next request is staged only when the status field is not busy:
   every reply that is not itself a timeout is the ideal one, of a codec that has served all
   requests, also those given up.
   */
  lemma {:induction false} RepliesAfterTimeouts<D(!new), B(!new), T>(
    dec: (D, seq<B>) -> Frame<D, T>, d: D, start: State<D, B, T>, steps: seq<Step<B>>)
    requires Bounded(dec) && Starts(d, start) && Patient(dec, start, steps)
    ensures var s := Run(dec, start, steps);
      && |s.replies| <= |s.asked| <= |s.replies| + 1
      && Right(s.replies, Ideal(dec, d, s.asked[..|s.replies|]))
      && (s.caller.Idle? ==> (Quiet(s) <==> !s.cmd.status.Busy?))
      && (s.caller.Idle? && Quiet(s) ==> s.codec == CodecAfter(dec, d, s.asked))
  {
    StartsSound(dec, d, start);
    RunKeeps(dec, d, start, steps);
    hide Ideal, CodecAfter, Run, Right;
    var s := Run(dec, start, steps);
    if s.caller.Idle? { StatusTells(dec, d, s); }
    if s.caller.Idle? && Quiet(s) { CodecOfAll(dec, d, s); }
  }

  // The replies spelled out

  /** The bytes of a packet that the codec is given. */
  lemma SentIs<B>(packet: seq<B>)
    ensures Sent(packet) == if |packet| <= 1024 then packet else packet[..1024]
  {
  }

  lemma ReplyIs<B, T>(pcm: seq<T>, r: Request<B>)
    ensures var n := if |pcm| / 2 < r.maxSamples then |pcm| / 2 else r.maxSamples;
      2 * n <= |pcm| && ReplyOf(pcm, r) == Reply(|pcm| > 0, n, pcm[..2 * n])
  {
  }

  /**
   What a codec in state `d` makes of a request: it is given the packet itself, of which only what
   is beyond 1024 bytes is cut off, and the reply is at most as many stereo samples as there is
   room for.
   */
  predicate Served<D(==), B, T(==)>(dec: (D, seq<B>) -> Frame<D, T>, d: D, r: Request<B>, d': D, reply: Reply<T>) {
    var f := dec(d, if |r.packet| <= 1024 then r.packet else r.packet[..1024]);
    var n := if |f.pcm| / 2 < r.maxSamples then |f.pcm| / 2 else r.maxSamples;
    d' == f.state && reply == Reply(|f.pcm| > 0, n, f.pcm[..2 * n])
  }

  lemma ServedIs<D, B, T>(dec: (D, seq<B>) -> Frame<D, T>, d: D, r: Request<B>)
    ensures var f := dec(d, Sent(r.packet)); Served(dec, d, r, f.state, ReplyOf(f.pcm, r))
  {
    SentIs(r.packet);
    ReplyIs(dec(d, Sent(r.packet)).pcm, r);
  }

  /** The ideal replies are those of a codec that goes from state to state. */
  lemma {:induction false} IdealIs<D, B, T>(
    dec: (D, seq<B>) -> Frame<D, T>, d: D, asked: seq<Request<B>>) returns (states: seq<D>)
    ensures |states| == |asked| + 1 && states[0] == d && states[|asked|] == CodecAfter(dec, d, asked)
    ensures forall k | 0 <= k < |asked| :: Served(dec, states[k], asked[k], states[k + 1], Ideal(dec, d, asked)[k])
  {
    if asked == [] {
      states := [d];
    } else {
      var n := |asked| - 1;
      var prev := IdealIs(dec, d, asked[..n]);
      ServedIs(dec, CodecAfter(dec, d, asked[..n]), asked[n]);
      IdealOneMore(dec, d, asked);
      hide Ideal, CodecAfter, Sent, ReplyOf, Served;
      states := prev + [CodecAfter(dec, d, asked)];
      forall k | 0 <= k < |asked| ensures Served(dec, states[k], asked[k], states[k + 1], Ideal(dec, d, asked)[k]) {
        if k < n {
          assert Served(dec, prev[k], asked[..n][k], prev[k + 1], Ideal(dec, d, asked[..n])[k]);
        }
      }
    }
  }

  /**
   In every interleaving without a timeout, from any buffer contents: the replies are those of
   one codec that is given the packets in order.
   */
  lemma RepliesSpelledOut<D(!new), B(!new), T>(
    dec: (D, seq<B>) -> Frame<D, T>, start: State<D, B, T>, steps: seq<Step<B>>) returns (states: seq<D>)
    requires forall d, p :: |dec(d, p).pcm| % 2 == 0 && |dec(d, p).pcm| <= 1920
    requires |start.bounceIn| == |start.lsIn| == 1024 && |start.bounceOut| == |start.lsPcm| == 1920
    requires start.caller.Idle? && start.worker.Waiting? && !start.signal && start.asked == [] && start.replies == []
    requires !start.cmd.status.Busy? && forall i | 0 <= i < |steps| :: !steps[i].Timeout?
    ensures var s := Run(dec, start, steps);
      && |s.replies| <= |s.asked| <= |s.replies| + 1 && |states| == |s.replies| + 1 && states[0] == start.codec
      && forall k | 0 <= k < |s.replies| :: Served(dec, states[k], s.asked[k], states[k + 1], s.replies[k])
  {
    var d := start.codec;
    RepliesAreIdeal(dec, d, start, steps);
    hide Run, Ideal, CodecAfter, Served;
    var s := Run(dec, start, steps);
    var asked := s.asked[..|s.replies|];
    states := IdealIs(dec, d, asked);
    forall k | 0 <= k < |s.replies| ensures Served(dec, states[k], s.asked[k], states[k + 1], s.replies[k]) {
      assert Served(dec, states[k], asked[k], states[k + 1], Ideal(dec, d, asked)[k]);
    }
  }

  /**
   The same with timeouts, if no request is staged while the status field reads busy: a reply is
   that one or a timeout.
   */
  lemma RepliesAfterTimeoutsSpelledOut<D(!new), B(!new), T>(
    dec: (D, seq<B>) -> Frame<D, T>, start: State<D, B, T>, steps: seq<Step<B>>)
    returns (states: seq<D>, ideal: seq<Reply<T>>)
    requires Bounded(dec) && Starts(start.codec, start) && Patient(dec, start, steps)
    ensures var s := Run(dec, start, steps);
      && |ideal| == |s.replies| <= |s.asked| && |states| == |s.replies| + 1 && states[0] == start.codec
      && (forall k | 0 <= k < |ideal| :: Served(dec, states[k], s.asked[k], states[k + 1], ideal[k]))
      && (forall k | 0 <= k < |ideal| :: s.replies[k].TimedOut? || s.replies[k] == ideal[k])
  {
    var d := start.codec;
    RepliesAfterTimeouts(dec, d, start, steps);
    hide Run, Ideal, CodecAfter, Served;
    var s := Run(dec, start, steps);
    var asked := s.asked[..|s.replies|];
    ideal := Ideal(dec, d, asked);
    states := IdealIs(dec, d, asked);
    forall k | 0 <= k < |ideal| ensures Served(dec, states[k], s.asked[k], states[k + 1], ideal[k]) {
      assert Served(dec, states[k], asked[k], states[k + 1], Ideal(dec, d, asked)[k]);
    }
  }

  // The two sides never wait for each other at once

  /** How many steps of the two sides the open request still needs. */
  function Rank<D, B, T>(s: State<D, B, T>): nat {
    match s.caller
    case Idle => 0
    case Leave => 1
    case Collect => 2
    case Poll => 3 + WorkerRank(s)
    case Post => 10
    case SetLength => 11
    case MarkBusy => 12
    case Stage => 13
  }

  function WorkerRank<D, B, T>(s: State<D, B, T>): nat {
    match s.worker
    case Waiting => if s.signal then 6 else 0
    case Fetch => 5
    case Input => 4
    case Decode => 3
    case Output => 2
    case WriteBack => 1
  }

  /** While a request is open one side can bring it on, and no step of either sets it back. */
  lemma Progress<D(!new), B(!new), T>(dec: (D, seq<B>) -> Frame<D, T>, d: D, s: State<D, B, T>)
    requires Sound(dec, d, s)
    ensures Rank(NextCaller(s)) <= Rank(s) && Rank(NextWorker(dec, s)) <= Rank(s)
    ensures Rank(s) == 0 <==> s.caller.Idle?
    ensures !s.caller.Idle? ==> Rank(NextCaller(s)) < Rank(s) || Rank(NextWorker(dec, s)) < Rank(s)
  {
    hide Ideal, CodecAfter, ReplyOf, Current, Before, Right, Preparing, Final;
    if s.caller.Poll? && Quiet(s) {
      FinalNotBusy(Current(dec, d, s), |Sent(s.request.packet)|);
    }
    hide Sound, Attended, Serving, Sized;
  }

  /** The caller can go on, as it does not wait for the worker. */
  predicate CallersTurn<D, B, T>(s: State<D, B, T>) {
    !s.caller.Poll? || Quiet(s)
  }

  predicate OnTurn<D, B, T>(s: State<D, B, T>, step: Step<B>) {
    if CallersTurn(s) then step.CallerStep? else step.WorkerStep?
  }

  /** With a request open only the side whose turn it is changes anything. */
  lemma TurnOrNothing<D(!new), B(!new), T>(dec: (D, seq<B>) -> Frame<D, T>, d: D, s: State<D, B, T>, step: Step<B>)
    requires Sound(dec, d, s) && !s.caller.Idle? && !step.Timeout?
    ensures if OnTurn(s, step) then Rank(Next(dec, s, step)) < Rank(s) else Next(dec, s, step) == s
  {
    Progress(dec, d, s);
    hide Ideal, CodecAfter, ReplyOf, Current, Before, Right, Preparing, Final;
  }

  /** A stretch of a schedule in which each side has at least one step. */
  ghost predicate Round<B>(steps: seq<Step<B>>) {
    NoTimeout(steps) && CallerStep in steps && WorkerStep in steps
  }

  function Flat<X>(rounds: seq<seq<X>>): seq<X> {
    if rounds == [] then [] else rounds[0] + Flat(rounds[1..])
  }

  lemma RunMore<D, B, T>(dec: (D, seq<B>) -> Frame<D, T>, s: State<D, B, T>, a: seq<Step<B>>, b: seq<Step<B>>)
    ensures Run(dec, s, a + b) == Run(dec, Run(dec, s, a), b)
    decreases |b|
  {
    if b == [] {
      assert a + b == a;
    } else {
      RunMore(dec, s, a, b[..|b| - 1]);
      assert (a + b)[..|a + b| - 1] == a + b[..|b| - 1];
    }
  }

  /** The open request is answered or nearer to it, or its turn has not come yet. */
  ghost predicate Nearer<D, B, T>(s: State<D, B, T>, s': State<D, B, T>, steps: seq<Step<B>>) {
    || |s'.replies| > |s.replies|
    || (!s'.caller.Idle? && s'.replies == s.replies && Rank(s') < Rank(s))
    || (s' == s && forall step | step in steps :: !OnTurn(s, step))
  }

  lemma {:induction false} StepsBringOn<D(!new), B(!new), T>(
    dec: (D, seq<B>) -> Frame<D, T>, d: D, s: State<D, B, T>, steps: seq<Step<B>>)
    requires Bounded(dec) && Sound(dec, d, s) && !s.caller.Idle? && NoTimeout(steps)
    ensures Nearer(s, Run(dec, s, steps), steps)
  {
    hide Sound, Bounded, Next, OnTurn, Rank;
    if steps != [] {
      var n := |steps| - 1;
      var before, last := Run(dec, s, steps[..n]), steps[n];
      StepsBringOn(dec, d, s, steps[..n]);
      OpenIsPrompt(dec, d, s);
      PromptRun(dec, d, s, |s.replies|, steps[..n]);
      PromptStep(dec, d, before, |s.replies|, last);
      assert steps == steps[..n] + [last];
      if !before.caller.Idle? {
        TurnOrNothing(dec, d, before, last);
        StaysOpen(dec, d, before, last);
      }
    }
  }

  lemma OpenIsPrompt<D(!new), B(!new), T>(dec: (D, seq<B>) -> Frame<D, T>, d: D, s: State<D, B, T>)
    requires Sound(dec, d, s) && !s.caller.Idle?
    ensures Prompt(s, |s.replies|) && |s.asked| == |s.replies| + 1
  {
    hide Ideal, CodecAfter, ReplyOf, Current, Before, Right, Preparing, Serving;
  }

  lemma StaysOpen<D, B, T>(dec: (D, seq<B>) -> Frame<D, T>, d: D, s: State<D, B, T>, step: Step<B>)
    requires !s.caller.Idle? && !step.Timeout?
    ensures var s' := Next(dec, s, step);
      |s'.replies| > |s.replies| || (!s'.caller.Idle? && s'.replies == s.replies)
  {
  }

  /** Every round brings an open request on. */
  lemma RoundBringsOn<D(!new), B(!new), T>(
    dec: (D, seq<B>) -> Frame<D, T>, d: D, s: State<D, B, T>, steps: seq<Step<B>>)
    requires Bounded(dec) && Sound(dec, d, s) && !s.caller.Idle? && Round(steps)
    ensures var s' := Run(dec, s, steps);
      |s'.replies| > |s.replies| || (!s'.caller.Idle? && s'.replies == s.replies && Rank(s') < Rank(s))
  {
    StepsBringOn(dec, d, s, steps);
    hide Rank, Run, Sound;
    assert OnTurn<D, B, T>(s, CallerStep) || OnTurn(s, WorkerStep);
  }

  /** What a run without a timeout makes of an open request. */
  lemma OpenRequest<D(!new), B(!new), T>(
    dec: (D, seq<B>) -> Frame<D, T>, d: D, s: State<D, B, T>, steps: seq<Step<B>>)
    requires Bounded(dec) && Sound(dec, d, s) && !s.caller.Idle? && NoTimeout(steps)
    ensures var s', k := Run(dec, s, steps), |s.replies|;
      && Sound(dec, d, s') && |s.asked| == k + 1
      && (|s'.replies| > k ==> s'.replies[k] == Ideal(dec, d, s.asked)[k])
  {
    hide Ideal, Run, Bounded;
    var s', k := Run(dec, s, steps), |s.replies|;
    OpenIsPrompt(dec, d, s);
    PromptRun(dec, d, s, k, steps);
    if |s'.replies| > k {
      IdealPrefix(dec, d, s'.asked[..|s'.replies|], k + 1);
      assert s'.asked[..|s'.replies|][..k + 1] == s.asked;
    }
  }

  lemma {:induction false} IdealPrefix<D, B, T>(
    dec: (D, seq<B>) -> Frame<D, T>, d: D, asked: seq<Request<B>>, n: nat)
    requires n <= |asked|
    ensures Ideal(dec, d, asked[..n]) == Ideal(dec, d, asked)[..n]
  {
    hide ReplyOf, CodecAfter;
    if n == |asked| {
      assert asked[..n] == asked;
    } else {
      var before := asked[..|asked| - 1];
      IdealPrefix(dec, d, before, n);
      assert before[..n] == asked[..n];
      IdealOneMore(dec, d, asked);
    }
  }

  /**
   A schedule without a timeout that gives each side a step per round answers an open request,
   and rightly, within as many rounds as its rank, which is at most 13.
   */
  lemma {:induction false} AnsweredWithin<D(!new), B(!new), T>(
    dec: (D, seq<B>) -> Frame<D, T>, d: D, s: State<D, B, T>, rounds: seq<seq<Step<B>>>)
    requires Bounded(dec) && Sound(dec, d, s) && !s.caller.Idle?
    requires Rank(s) <= |rounds| && forall i | 0 <= i < |rounds| :: Round(rounds[i])
    ensures Rank(s) <= 13 && |s.asked| == |s.replies| + 1
    ensures var s', k := Run(dec, s, Flat(rounds)), |s.replies|;
      |s'.replies| > k && s'.replies[k] == Ideal(dec, d, s.asked)[k]
    decreases |rounds|
  {
    hide Sound, Run, Bounded, Round, Ideal;
    RankBounds(s);
    var s1 := Run(dec, s, rounds[0]);
    FlatInTime(rounds);
    RoundInTime(rounds[0]);
    OpenRequest(dec, d, s, Flat(rounds));
    OpenRequest(dec, d, s, rounds[0]);
    RoundBringsOn(dec, d, s, rounds[0]);
    RunMore(dec, s, rounds[0], Flat(rounds[1..]));
    if |s1.replies| > |s.replies| {
      FlatInTime(rounds[1..]);
      RepliesGrow(dec, s1, Flat(rounds[1..]));
    } else {
      AnsweredWithin(dec, d, s1, rounds[1..]);
    }
  }

  lemma RankBounds<D, B, T>(s: State<D, B, T>)
    ensures Rank(s) <= 13 && (!s.caller.Idle? ==> Rank(s) > 0)
  {
  }

  lemma RoundInTime<B>(steps: seq<Step<B>>)
    requires Round(steps)
    ensures NoTimeout(steps)
  {
  }

  lemma {:induction false} FlatInTime<B>(rounds: seq<seq<Step<B>>>)
    requires forall i | 0 <= i < |rounds| :: Round(rounds[i])
    ensures NoTimeout(Flat(rounds))
  {
    if rounds != [] {
      assert forall i | 0 <= i < |rounds[1..]| :: rounds[1..][i] == rounds[i + 1];
      FlatInTime(rounds[1..]);
    }
  }

  lemma {:induction false} RepliesGrow<D, B, T>(
    dec: (D, seq<B>) -> Frame<D, T>, s: State<D, B, T>, steps: seq<Step<B>>)
    ensures s.replies <= Run(dec, s, steps).replies
  {
    if steps != [] { RepliesGrow(dec, s, steps[..|steps| - 1]); }
  }

  // Why the next request must wait after a timeout

  /** Every run without a timeout gives the next request, if it is answered, its ideal reply. */
  ghost predicate AnswersNext<D, B(!new), T>(
    dec: (D, seq<B>) -> Frame<D, T>, d: D, s: State<D, B, T>, r: Request<B>)
  {
    forall steps: seq<Step<B>> | NoTimeout(steps) ::
      NextReplyIs(s, Run(dec, Next(dec, s, Ask(r)), steps), RightReply(dec, d, s, r))
  }

  predicate NextReplyIs<D, B, T(==)>(s: State<D, B, T>, s': State<D, B, T>, reply: Reply<T>) {
    |s'.replies| > |s.replies| ==> s'.replies[|s.replies|] == reply
  }

  /** The reply that the next request should get. */
  function RightReply<D, B, T>(dec: (D, seq<B>) -> Frame<D, T>, d: D, s: State<D, B, T>, r: Request<B>): Reply<T> {
    ReplyOf(dec(CodecAfter(dec, d, s.asked), Sent(r.packet)).pcm, r)
  }

  /** The reply to the last request, cut to the room of the next. */
  function StaleReply<D, B, T>(dec: (D, seq<B>) -> Frame<D, T>, d: D, s: State<D, B, T>, r: Request<B>): Reply<T>
    requires s.asked != []
  {
    ReplyOf(Current(dec, d, s).pcm, r)
  }

  lemma RunOne<D, B, T>(dec: (D, seq<B>) -> Frame<D, T>, s: State<D, B, T>, steps: seq<Step<B>>, step: Step<B>)
    ensures Run(dec, s, steps + [step]) == Next(dec, Run(dec, s, steps), step)
  {
  }

  lemma Extend<D, B, T>(
    dec: (D, seq<B>) -> Frame<D, T>, s0: State<D, B, T>, steps: seq<Step<B>>, s: State<D, B, T>, step: Step<B>)
    returns (steps': seq<Step<B>>, s': State<D, B, T>)
    requires Run(dec, s0, steps) == s && NoTimeout(steps) && !step.Timeout?
    ensures Run(dec, s0, steps') == s' == Next(dec, s, step) && NoTimeout(steps')
  {
    steps', s' := steps + [step], Next(dec, s, step);
    RunOne(dec, s0, steps, step);
  }

  /** Whatever the caller does, a worker that is awake comes to its write-back. */
  lemma {:induction false} WorkerArrives<D(!new), B(!new), T>(
    dec: (D, seq<B>) -> Frame<D, T>, before: D, packet: seq<B>, f: Frame<D, T>,
    s0: State<D, B, T>, steps: seq<Step<B>>, s: State<D, B, T>)
    returns (steps': seq<Step<B>>, s': State<D, B, T>)
    requires Run(dec, s0, steps) == s && NoTimeout(steps)
    requires Bounded(dec) && Sized(s) && |packet| <= MAX_PACKET && f == dec(before, packet)
    requires Serving(before, packet, f, s) && !Quiet(s)
    ensures Run(dec, s0, steps') == s' && NoTimeout(steps')
    ensures Sized(s') && Serving(before, packet, f, s') && s'.worker.WriteBack?
    ensures s'.caller == s.caller && s'.request == s.request && s'.asked == s.asked && s'.replies == s.replies
    decreases WorkerRank(s)
  {
    hide Bounded, Serving, Sized, Run;
    steps', s' := steps, s;
    if !s.worker.WriteBack? {
      WorkerServes(dec, before, packet, f, s);
      steps', s' := Extend(dec, s0, steps, s, WorkerStep);
      steps', s' := WorkerArrives(dec, before, packet, f, s0, steps', s');
    }
  }

  /** A write-back that comes while the next request is staged ends its poll. */
  lemma Overtaken<D, B, T>(
    dec: (D, seq<B>) -> Frame<D, T>, f: Frame<D, T>, len: nat, s0: State<D, B, T>, steps: seq<Step<B>>,
    s: State<D, B, T>)
    returns (steps': seq<Step<B>>, s': State<D, B, T>)
    requires Run(dec, s0, steps) == s && NoTimeout(steps) && s.caller.MarkBusy? && s.worker.WriteBack?
    requires s.local == Final(f, len)
    ensures Run(dec, s0, steps') == s' && NoTimeout(steps') && s'.caller.Poll? && s'.bounceOut == s.bounceOut
    ensures s'.cmd.status == Final(f, len).status && s'.cmd.decoded == |f.pcm| / 2
    ensures s'.request == s.request && s'.asked == s.asked && s'.replies == s.replies
  {
    hide Run, Overwrite, Sent;
    steps', s' := Extend(dec, s0, steps, s, CallerStep);
    steps', s' := Extend(dec, s0, steps', s', WorkerStep);
    steps', s' := Extend(dec, s0, steps', s', CallerStep);
    steps', s' := Extend(dec, s0, steps', s', CallerStep);
  }

  /** The caller sees the status, reads the result and leaves. */
  lemma Leaves<D, B, T>(
    dec: (D, seq<B>) -> Frame<D, T>, f: Frame<D, T>, s0: State<D, B, T>, steps: seq<Step<B>>, s: State<D, B, T>)
    returns (steps': seq<Step<B>>, s': State<D, B, T>)
    requires Run(dec, s0, steps) == s && NoTimeout(steps) && s.caller.Poll? && f.pcm <= s.bounceOut
    requires s.cmd.status == (if f.pcm == [] then Err else Ok) && s.cmd.decoded == |f.pcm| / 2
    ensures Run(dec, s0, steps') == s' && NoTimeout(steps') && s'.caller.Idle? && s'.asked == s.asked
    ensures s'.replies == s.replies + [ReplyOf(f.pcm, s.request)]
  {
    hide Run;
    steps', s' := Extend(dec, s0, steps, s, CallerStep);
    steps', s' := Extend(dec, s0, steps', s', CallerStep);
    var n := Min(|f.pcm| / 2, s.request.maxSamples);
    assert s'.outPcm == f.pcm[..2 * n];
    steps', s' := Extend(dec, s0, steps', s', CallerStep);
  }

  /**
   While the status reads busy, the next request can be given the reply to the last one, for
   every codec and wherever the worker is.
   */
  lemma BusyGivesStale<D(!new), B(!new), T>(
    dec: (D, seq<B>) -> Frame<D, T>, d: D, s: State<D, B, T>, r: Request<B>) returns (steps: seq<Step<B>>)
    requires Bounded(dec) && Sound(dec, d, s) && s.caller.Idle? && s.cmd.status.Busy?
    ensures NoTimeout(steps) && s.asked != []
    ensures var s' := Run(dec, Next(dec, s, Ask(r)), steps);
      s'.caller.Idle? && s'.asked == s.asked + [r] && s'.replies == s.replies + [StaleReply(dec, d, s, r)]
  {
    StatusTells(dec, d, s);
    var s0, packet, f := Next(dec, s, Ask(r)), Sent(s.request.packet), Current(dec, d, s);
    var s';
    hide Run, Ideal, CodecAfter, ReplyOf, Right, Final;
    steps, s' := WorkerArrives(dec, Before(dec, d, s), packet, f, s0, [], s0);
    steps, s' := Extend(dec, s0, steps, s', CallerStep);
    steps, s' := Overtaken(dec, f, |packet|, s0, steps, s');
    steps, s' := Leaves(dec, f, s0, steps, s');
  }

  /**
   With no request open, whatever was given up before: if the status is not busy the next request
   is answered rightly in every run without a timeout. If it is busy and the stale reply is not
   by chance the right one, it is not.
   */
  lemma RightExactly<D(!new), B(!new), T>(
    dec: (D, seq<B>) -> Frame<D, T>, d: D, s: State<D, B, T>, r: Request<B>)
    requires Bounded(dec) && Sound(dec, d, s) && s.caller.Idle?
    ensures !s.cmd.status.Busy? ==> AnswersNext(dec, d, s, r)
    ensures s.asked == [] || StaleReply(dec, d, s, r) != RightReply(dec, d, s, r) ==>
      (AnswersNext(dec, d, s, r) <==> !s.cmd.status.Busy?)
  {
    hide Bounded, Sound, Run, Right, ReplyOf, CodecAfter, StaleReply;
    var s0 := Next(dec, s, Ask(r));
    if s.cmd.status.Busy? {
      var steps := BusyGivesStale(dec, d, s, r);
      assert NextReplyIs(s, Run(dec, s0, steps), RightReply(dec, d, s, r)) ==>
        StaleReply(dec, d, s, r) == RightReply(dec, d, s, r);
    } else {
      StatusTells(dec, d, s);
      AskKeeps(dec, d, s, r);
      IdealOneMore(dec, d, s.asked + [r]);
      assert (s.asked + [r])[..|s.asked|] == s.asked;
      forall steps: seq<Step<B>> | NoTimeout(steps)
        ensures NextReplyIs(s, Run(dec, s0, steps), RightReply(dec, d, s, r))
      {
        OpenRequest(dec, d, s0, steps);
      }
    }
  }

  /** The steps of a caller that asks, posts and at once gives up. */
  function GivenUp<B>(r: Request<B>): seq<Step<B>> {
    [Ask(r), CallerStep, CallerStep, CallerStep, CallerStep, Timeout]
  }

  lemma RunSix<D, B, T>(dec: (D, seq<B>) -> Frame<D, T>, s: State<D, B, T>, steps: seq<Step<B>>)
    requires |steps| == 6
    ensures var s1 := Next(dec, s, steps[0]); var s2 := Next(dec, s1, steps[1]); var s3 := Next(dec, s2, steps[2]);
      var s4 := Next(dec, s3, steps[3]); Run(dec, s, steps) == Next(dec, Next(dec, s4, steps[4]), steps[5])
  {
    hide Next;
    assert steps[..5][..4] == steps[..4] && steps[..4][..3] == steps[..3] && steps[..3][..2] == steps[..2];
    assert steps[..2][..1] == steps[..1] && steps[..1][..0] == [];
    assert Run(dec, s, steps[..1]) == Next(dec, s, steps[0]);
    assert Run(dec, s, steps[..2]) == Next(dec, Run(dec, s, steps[..1]), steps[1]);
    assert Run(dec, s, steps[..3]) == Next(dec, Run(dec, s, steps[..2]), steps[2]);
    assert Run(dec, s, steps[..4]) == Next(dec, Run(dec, s, steps[..3]), steps[3]);
    assert Run(dec, s, steps[..5]) == Next(dec, Run(dec, s, steps[..4]), steps[4]);
  }

  lemma GivenUpSound<D(!new), B(!new), T>(
    dec: (D, seq<B>) -> Frame<D, T>, d: D, start: State<D, B, T>, first: Request<B>)
    requires Bounded(dec) && Starts(d, start)
    ensures Sound(dec, d, Run(dec, start, GivenUp(first)))
  {
    StartsSound(dec, d, start);
    RunSix(dec, start, GivenUp(first));
    var s1 := Next(dec, start, Ask(first));
    StepKeeps(dec, d, start, Ask(first));
    hide Sound, Bounded, Run, NextCaller;
    var s2, s3 := NextCaller(s1), NextCaller(NextCaller(s1));
    var s4, s5 := NextCaller(s3), NextCaller(NextCaller(s3));
    CallerKeeps(dec, d, s1); CallerKeeps(dec, d, s2); CallerKeeps(dec, d, s3); CallerKeeps(dec, d, s4);
    TimeoutKeeps(dec, d, s5);
  }

  lemma GivenUpState<D(!new), B(!new), T>(
    dec: (D, seq<B>) -> Frame<D, T>, d: D, start: State<D, B, T>, first: Request<B>)
    requires Starts(d, start)
    ensures Run(dec, start, GivenUp(first)) == start.(
      bounceIn := Overwrite(start.bounceIn, Sent(first.packet)), signal := true, request := first,
      cmd := Command(Busy, |Sent(first.packet)|, start.cmd.decoded), asked := [first], replies := [TimedOut])
  {
    RunSix(dec, start, GivenUp(first));
    hide Run, Overwrite, Sent;
    var s2 := NextCaller(Next(dec, start, Ask(first)));
    var s4 := NextCaller(NextCaller(s2));
    assert s4.cmd == Command(Busy, |Sent(first.packet)|, start.cmd.decoded) && s4.caller.Post?;
  }

  lemma AskAlone<D, B, T>(dec: (D, seq<B>) -> Frame<D, T>, s: State<D, B, T>, r: Request<B>)
    ensures Run(dec, s, [Ask(r)]) == Next(dec, s, Ask(r))
  {
    assert Run(dec, s, []) == s;
    RunOne(dec, s, [], Ask(r));
    assert [] + [Step<B>.Ask(r)] == [Ask(r)];
  }

  /**
   Right after initialization and with any codec: a caller gives up one request, the next does
   not wait, and is given the reply to the first.
   */
  lemma StaleAfterTimeout<D(!new), B(!new), T>(
    dec: (D, seq<B>) -> Frame<D, T>, d: D, start: State<D, B, T>, first: Request<B>, second: Request<B>)
    returns (steps: seq<Step<B>>)
    requires Bounded(dec) && Starts(d, start)
    ensures var s, pcm := Run(dec, start, steps), dec(d, Sent(first.packet)).pcm;
      s.caller.Idle? && s.asked == [first, second] && s.replies == [TimedOut, ReplyOf(pcm, second)]
  {
    GivenUpSound(dec, d, start, first);
    GivenUpState(dec, d, start, first);
    var s := Run(dec, start, GivenUp(first));
    hide Run, Sound, Bounded, GivenUp, ReplyOf, Overwrite, Sent, Ideal, Next;
    var rest := BusyGivesStale(dec, d, s, second);
    RunMore(dec, start, GivenUp(first), [Ask(second)]);
    RunMore(dec, start, GivenUp(first) + [Ask(second)], rest);
    AskAlone(dec, s, second);
    assert s.asked[..0] == [] && CodecAfter(dec, d, []) == d;
    steps := GivenUp(first) + [Ask(second)] + rest;
  }

  /** A codec that gives the last byte of a packet twice. */
  function LastTwice(d: int, p: seq<int>): Frame<int, int> {
    Frame(d, if p == [] then [] else [p[|p| - 1], p[|p| - 1]])
  }

  lemma NoSteps<D, B, T>(dec: (D, seq<B>) -> Frame<D, T>, s: State<D, B, T>)
    ensures Run(dec, s, []) == s
  {
  }

  /** The worker takes the new packet for one of the old length and sends what it makes of that. */
  lemma ServesMixture(s0: State<int, int, int>) returns (steps: seq<Step<int>>, s: State<int, int, int>)
    requires Sized(s0) && s0.caller.Stage? && s0.worker.Waiting? && s0.signal && s0.cmd.len == 1
    requires s0.request == Request([2, 1], 1)
    ensures Run(LastTwice, s0, steps) == s && NoTimeout(steps) && Sized(s)
    ensures s.caller.MarkBusy? && s.worker.WriteBack? && s.local == Command(Ok, 1, 1) && s.bounceOut[..2] == [2, 2]
    ensures s.request == s0.request && s.asked == s0.asked && s.replies == s0.replies
  {
    hide Run;
    NoSteps(LastTwice, s0);
    steps, s := Extend(LastTwice, s0, [], s0, CallerStep);
    steps, s := Extend(LastTwice, s0, steps, s, WorkerStep);
    steps, s := Extend(LastTwice, s0, steps, s, WorkerStep);
    steps, s := Extend(LastTwice, s0, steps, s, WorkerStep);
    assert s.lsIn[..1] == [2];
    steps, s := Extend(LastTwice, s0, steps, s, WorkerStep);
    assert s.lsPcm[..2] == [2, 2];
    steps, s := Extend(LastTwice, s0, steps, s, WorkerStep);
  }

  /** The mixture is returned as the reply. */
  lemma ThirdReply(s0: State<int, int, int>) returns (steps: seq<Step<int>>)
    requires Sized(s0) && s0.caller.Stage? && s0.worker.Waiting? && s0.signal && s0.cmd.len == 1
    requires s0.request == Request([2, 1], 1)
    ensures NoTimeout(steps) && Run(LastTwice, s0, steps).replies == s0.replies + [Reply(true, 1, [2, 2])]
  {
    var s, f := s0, Frame(0, [2, 2]);
    steps, s := ServesMixture(s0);
    assert f.pcm <= s.bounceOut && f.pcm[..2] == [2, 2];
    hide Run;
    steps, s := Overtaken(LastTwice, f, 1, s0, steps, s);
    steps, s := Leaves(LastTwice, f, s0, steps, s);
  }

  lemma TwoReplies(s: State<int, int, int>, r: Request<int>)
    requires s.asked == [Request([1], 1)] && r == Request([2, 1], 1)
    ensures StaleReply(LastTwice, 0, s, r) == RightReply(LastTwice, 0, s, r) == Reply(true, 1, [1, 1])
  {
  }

  /**
   The two replies do not decide: here the stale one is the right one, and yet a worker that has
   not fetched its packet when the next one is staged gives a third.
   */
  lemma SameReplyIsNotEnough(start: State<int, int, int>)
    requires Starts(0, start)
    ensures var s, r := Run(LastTwice, start, GivenUp(Request([1], 1))), Request([2, 1], 1);
      && s.asked != [] && StaleReply(LastTwice, 0, s, r) == RightReply(LastTwice, 0, s, r)
      && !AnswersNext(LastTwice, 0, s, r)
  {
    GivenUpState(LastTwice, 0, start, Request([1], 1));
    var s, r := Run(LastTwice, start, GivenUp(Request([1], 1))), Request([2, 1], 1);
    TwoReplies(s, r);
    var steps := ThirdReply(Next(LastTwice, s, Ask(r)));
    hide Run, GivenUp, Overwrite, CodecAfter, StaleReply, RightReply;
    assert !NextReplyIs(s, Run(LastTwice, Next(LastTwice, s, Ask(r)), steps), RightReply(LastTwice, 0, s, r));
  }
}
