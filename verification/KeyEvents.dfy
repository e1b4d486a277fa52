/**
 Keyboard polling: each poll of a keyboard sends the differences to what its last poll saw, so
 a host that sees only the events of one keyboard knows what is held down. All keyboards send to
 one host; `SharedRun` says when that still works.
 */
module KeyEvents {

  const KEYS := 256

  datatype Event = Event(key: nat, down: bool)

  /** The keys that are down after some events. */
  function Replay(held: set<nat>, events: seq<Event>): set<nat> {
    if events == [] then held
    else
      var before, e := Replay(held, events[..|events| - 1]), events[|events| - 1];
      if e.down then before + {e.key} else before - {e.key}
  }

  lemma ReplayOne(held: set<nat>, events: seq<Event>, e: Event)
    ensures Replay(held, events + [e])
         == if e.down then Replay(held, events) + {e.key} else Replay(held, events) - {e.key}
  {
    assert (events + [e])[..|events|] == events;
  }

  lemma {:induction false} ReplayMore(held: set<nat>, a: seq<Event>, b: seq<Event>)
    ensures Replay(held, a + b) == Replay(Replay(held, a), b)
    decreases |b|
  {
    if b == [] {
      assert a + b == a;
    } else {
      ReplayMore(held, a, b[..|b| - 1]);
      assert (a + b)[..|a + b| - 1] == a + b[..|b| - 1];
    }
  }

  /** The keys that a poll reports: codes without a key of 1 to 255 are ignored. */
  function Reported(vk: nat -> nat, codes: seq<nat>): (r: set<nat>)
    ensures forall k | k in r :: 0 < k < KEYS
  {
    if codes == [] then {}
    else
      var before, k := Reported(vk, codes[..|codes| - 1]), vk(codes[|codes| - 1]);
      if 0 < k < KEYS then before + {k} else before
  }

  /** A key is reported if and only if some code is that key, and it is one of 1 to 255. */
  lemma {:induction false} ReportedIs(vk: nat -> nat, codes: seq<nat>, k: nat)
    ensures k in Reported(vk, codes) <==> 0 < k < 256 && exists i :: 0 <= i < |codes| && vk(codes[i]) == k
  {
    if codes != [] {
      var n := |codes| - 1;
      ReportedIs(vk, codes[..n], k);
      if vk(codes[n]) != k && exists i :: 0 <= i < |codes| && vk(codes[i]) == k {
        var i :| 0 <= i < |codes| && vk(codes[i]) == k;
        assert codes[..n][i] == codes[i];
      }
    }
  }

  /** The keys below `limit` that are marked. */
  function Marked(down: seq<bool>, limit: nat): set<nat>
    requires limit <= |down|
  {
    set k: nat | k < limit && down[k]
  }

  lemma MarkedSet(down: seq<bool>, k: nat)
    requires k < |down|
    ensures Marked(down[k := true], |down|) == Marked(down, |down|) + {k}
  {
    assert forall j: nat | j < |down| :: down[k := true][j] == (j == k || down[j]);
  }

  lemma NoneMarked(down: seq<bool>)
    requires forall k | 0 <= k < |down| :: !down[k]
    ensures Marked(down, |down|) == {}
  {
  }

  lemma NothingReplayed(held: set<nat>)
    ensures Replay(held, []) == held
  {
  }

  class Keyboard {
    const lastDown: array<bool>

    /** Everything this keyboard has sent so far. */
    ghost var sent: seq<Event>

    ghost predicate Shape()
      reads this
    {
      lastDown.Length == KEYS
    }

    /** The host, replaying all events, holds what the last poll saw. */
    ghost predicate Valid()
      reads this, lastDown
    {
      Shape() && Replay({}, sent) == Held()
    }

    ghost function Held(): set<nat>
      requires Shape()
      reads this, lastDown
    {
      Marked(lastDown[..], KEYS)
    }

    constructor ()
      ensures Valid() && Held() == {} && fresh(lastDown)
    {
      lastDown := new bool[KEYS](_ => false);
      sent := [];
    }

    /** The first loop: keys that were not down before are sent as pressed. */
    method Presses(vk: nat -> nat, codes: seq<nat>, pressed: array<bool>) returns (events: seq<Event>)
      requires Shape() && pressed.Length == KEYS && pressed != lastDown && Marked(pressed[..], KEYS) == {}
      modifies pressed
      ensures Marked(pressed[..], KEYS) == Reported(vk, codes)
      ensures Replay(Held(), events) == Held() + Reported(vk, codes)
      ensures forall i | 0 <= i < |events| :: events[i].down && events[i].key in Reported(vk, codes) - Held()
    {
      hide Replay;
      events := [];
      NothingReplayed(Held());
      for i := 0 to |codes|
        invariant Marked(pressed[..], KEYS) == Reported(vk, codes[..i])
        invariant Replay(Held(), events) == Held() + Reported(vk, codes[..i])
        invariant forall j | 0 <= j < |events| :: events[j].down && events[j].key in Reported(vk, codes[..i]) - Held()
      {
        var k := vk(codes[i]);
        assert codes[..i + 1][..i] == codes[..i];
        if 0 < k < KEYS {
          MarkedSet(pressed[..], k);
          ghost var was := pressed[..];
          pressed[k] := true;
          assert pressed[..] == was[k := true];
          if !lastDown[k] {
            ReplayOne(Held(), events, Event(k, true));
            events := events + [Event(k, true)];
          }
        }
      }
      assert codes[..|codes|] == codes;
    }

    /** The second loop: keys that are no longer down are sent as released. */
    method Releases(pressed: array<bool>, ghost before: seq<Event>, ghost start: set<nat>) returns (events: seq<Event>)
      requires Shape() && pressed.Length == KEYS && pressed != lastDown
      requires Replay(start, before) == Held() + Marked(pressed[..], KEYS)
      modifies lastDown
      ensures Held() == Marked(pressed[..], KEYS) && Replay(start, before + events) == Held()
      ensures forall i | 0 <= i < |events| :: !events[i].down && events[i].key in old(Held()) - Held()
    {
      hide Replay;
      events := [];
      ghost var was, now := lastDown[..], pressed[..];
      assert before + [] == before;
      for k := 0 to KEYS
        invariant pressed[..] == now
        invariant forall j | 0 <= j < KEYS :: lastDown[j] == if j < k then now[j] else was[j]
        invariant forall x: nat :: x in Replay(start, before + events) <==> x < KEYS && (now[x] || (x >= k && was[x]))
        invariant forall i | 0 <= i < |events| ::
          !events[i].down && events[i].key < KEYS && was[events[i].key] && !now[events[i].key]
      {
        if lastDown[k] && !pressed[k] {
          ReplayOne(start, before + events, Event(k, false));
          assert before + (events + [Event(k, false)]) == (before + events) + [Event(k, false)];
          events := events + [Event(k, false)];
        }
        lastDown[k] := pressed[k];
      }
      assert lastDown[..] == now;
    }

    /** One poll: the host, replaying the events, holds exactly the reported keys. */
    method Poll(vk: nat -> nat, codes: seq<nat>) returns (events: seq<Event>)
      requires Valid()
      modifies this`sent, lastDown
      ensures Valid() && sent == old(sent) + events
      ensures Held() == Reported(vk, codes)
      ensures Changes(old(Held()), Held(), events)
    {
      hide Replay, Marked, Reported;
      var pressed := new bool[KEYS](_ => false);
      NoneMarked(pressed[..]);
      ghost var start := Held();
      events := Presses(vk, codes, pressed);
      var released := Releases(pressed, events, start);
      events := events + released;
      ReplayMore({}, sent, events);
      sent := sent + events;
    }
  }

  // Several keyboards, one host

  /** Events that only take a key from `old` to `now`. */
  ghost predicate Changes(past: set<nat>, now: set<nat>, events: seq<Event>) {
    && Replay(past, events) == now
    && forall i | 0 <= i < |events| ::
      if events[i].down then events[i].key in now - past else events[i].key in past - now
  }

  lemma {:induction false} OnlyPressed(start: set<nat>, past: set<nat>, events: seq<Event>, x: nat)
    requires x !in past && forall i | 0 <= i < |events| :: events[i].key == x ==> events[i].down
    ensures x in Replay(start, events) <==> x in start || x in Replay(past, events)
  {
    if events != [] { OnlyPressed(start, past, events[..|events| - 1], x); }
  }

  lemma {:induction false} OnlyReleased(start: set<nat>, past: set<nat>, events: seq<Event>, x: nat)
    requires x in past && forall i | 0 <= i < |events| :: events[i].key == x ==> !events[i].down
    ensures x in Replay(start, events) <==> x in start && x in Replay(past, events)
  {
    if events != [] { OnlyReleased(start, past, events[..|events| - 1], x); }
  }

  /** What the events of a poll do to a host that holds anything. */
  lemma PollElsewhere(start: set<nat>, past: set<nat>, now: set<nat>, events: seq<Event>)
    requires Changes(past, now, events)
    ensures Replay(start, events) == start + (now - past) - (past - now)
  {
    forall x: nat ensures x in Replay(start, events) <==> x in start + (now - past) - (past - now) {
      if x in past { OnlyReleased(start, past, events, x); } else { OnlyPressed(start, past, events, x); }
    }
  }

  /**
   With `others` held on the other keyboards, a poll keeps the host at what is held on any of
   them if and only if no key it releases is still held elsewhere.
   */
  lemma SharedHost(others: set<nat>, past: set<nat>, now: set<nat>, events: seq<Event>)
    requires Changes(past, now, events)
    ensures Replay(others + past, events) == others + now <==> (past - now) * others == {}
  {
    PollElsewhere(others + past, past, now, events);
    hide Changes, Replay;
    var after := others + past + (now - past) - (past - now);
    var lost := (past - now) * others;
    if lost == {} {
      assert forall x | x in others && x in past && x !in now :: x in lost;
      assert after == others + now;
    } else {
      var x :| x in lost;
      assert x in others + now && x !in after;
    }
  }

  /** One poll: the keyboard, the keys it reports, and the events it sends. */
  datatype Poll = Poll(board: nat, now: set<nat>, events: seq<Event>)

  /** What is held on any of the keyboards. */
  function Union(boards: seq<set<nat>>): set<nat> {
    set i, k | 0 <= i < |boards| && k in boards[i] :: k
  }

  /** What is held on the keyboards other than `board`. */
  function Elsewhere(boards: seq<set<nat>>, board: nat): set<nat> {
    set i, k | 0 <= i < |boards| && i != board && k in boards[i] :: k
  }

  /** The keyboards after some polls. */
  function Boards(boards: seq<set<nat>>, polls: seq<Poll>): (r: seq<set<nat>>)
    ensures |r| == |boards|
  {
    if polls == [] then boards
    else
      var before, p := Boards(boards, polls[..|polls| - 1]), polls[|polls| - 1];
      if p.board < |before| then before[p.board := p.now] else before
  }

  /** What the host holds after the events of some polls. */
  function Host(held: set<nat>, polls: seq<Poll>): set<nat> {
    if polls == [] then held else Replay(Host(held, polls[..|polls| - 1]), polls[|polls| - 1].events)
  }

  /** Each poll sends the differences on its own keyboard. */
  ghost predicate Polled(boards: seq<set<nat>>, polls: seq<Poll>) {
    forall i | 0 <= i < |polls| ::
      polls[i].board < |boards| && Changes(Boards(boards, polls[..i])[polls[i].board], polls[i].now, polls[i].events)
  }

  /** Poll `i` releases no key that is still held on another keyboard. */
  predicate KeepsOthers(boards: seq<set<nat>>, polls: seq<Poll>, i: nat)
    requires i < |polls| && polls[i].board < |boards|
  {
    var before, p := Boards(boards, polls[..i]), polls[i];
    (before[p.board] - p.now) * Elsewhere(before, p.board) == {}
  }

  /** After `n` polls the host, which started with it, holds what is held on any of the keyboards. */
  predicate InStep(boards: seq<set<nat>>, polls: seq<Poll>, n: nat)
    requires n <= |polls|
  {
    Host(Union(boards), polls[..n]) == Union(Boards(boards, polls[..n]))
  }

  lemma UnionSplit(boards: seq<set<nat>>, board: nat, now: set<nat>)
    requires board < |boards|
    ensures Union(boards) == Elsewhere(boards, board) + boards[board]
    ensures Union(boards[board := now]) == Elsewhere(boards, board) + now
  {
    var after := boards[board := now];
    forall k: nat ensures k in Union(after) <==> k in Elsewhere(boards, board) + now {
      if k in Elsewhere(boards, board) {
        var i :| 0 <= i < |boards| && i != board && k in boards[i];
        assert k in after[i];
      }
      if k in now { assert k in after[board]; }
    }
  }

  /** One poll of several keyboards. */
  lemma PollShared(boards: seq<set<nat>>, p: Poll)
    requires p.board < |boards| && Changes(boards[p.board], p.now, p.events)
    ensures Replay(Union(boards), p.events) == Union(boards[p.board := p.now])
      <==> (boards[p.board] - p.now) * Elsewhere(boards, p.board) == {}
  {
    UnionSplit(boards, p.board, p.now);
    SharedHost(Elsewhere(boards, p.board), boards[p.board], p.now, p.events);
  }

  lemma NoPolls(boards: seq<set<nat>>, polls: seq<Poll>)
    ensures InStep(boards, polls, 0)
  {
    assert polls[..0] == [];
  }

  lemma Shorter(boards: seq<set<nat>>, polls: seq<Poll>, k: nat)
    requires k <= |polls| && Polled(boards, polls)
    ensures Polled(boards, polls[..k])
    ensures forall n | 0 <= n <= k :: InStep(boards, polls[..k], n) == InStep(boards, polls, n)
    ensures forall i | 0 <= i < k :: KeepsOthers(boards, polls[..k], i) == KeepsOthers(boards, polls, i)
  {
    hide Union, Elsewhere, Changes, Host, Boards;
    assert forall i | 0 <= i <= k :: polls[..k][..i] == polls[..i];
  }

  /** One more poll. */
  lemma NextInStep(boards: seq<set<nat>>, polls: seq<Poll>, n: nat)
    requires n < |polls| && Polled(boards, polls) && InStep(boards, polls, n)
    ensures InStep(boards, polls, n + 1) <==> KeepsOthers(boards, polls, n)
  {
    hide Union, Elsewhere, Changes, Replay;
    PollShared(Boards(boards, polls[..n]), polls[n]);
    assert polls[..n + 1][..n] == polls[..n];
  }

  /**
   Over any run of polls of several keyboards: the host holds what is held on any of them after
   every poll if and only if no poll releases a key that is still held on another keyboard.
   */
  lemma {:induction false} SharedRun(boards: seq<set<nat>>, polls: seq<Poll>)
    requires Polled(boards, polls)
    ensures (forall n | 0 <= n <= |polls| :: InStep(boards, polls, n))
      <==> (forall i | 0 <= i < |polls| :: KeepsOthers(boards, polls, i))
  {
    hide *;
    NoPolls(boards, polls);
    if polls != [] {
      var n := |polls| - 1;
      Shorter(boards, polls, n);
      SharedRun(boards, polls[..n]);
      if InStep(boards, polls, n) { NextInStep(boards, polls, n); }
    }
  }

  /** A key held on two keyboards is let go with the first release. */
  lemma HeldTwice(k: nat)
    ensures var boards, polls := [{k}, {k}], [Poll(0, {}, [Event(k, false)])];
      Polled(boards, polls) && Host(Union(boards), polls) == {} && Union(Boards(boards, polls)) == {k}
  {
    var boards, polls := [{k}, {k}], [Poll(0, {}, [Event(k, false)])];
    UnionOfTwo({k}, {k});
    UnionOfTwo({}, {k});
    OnePoll(boards, polls);
    ReplayOne({k}, [], Event(k, false));
    NothingReplayed({k});
    assert [] + [Event(k, false)] == polls[0].events;
    assert Changes({k}, {}, polls[0].events);
    assert Boards(boards, polls[..0])[0] == {k};
    assert boards[0 := {}] == [{}, {k}];
    assert Union(boards) == {k};
    hide Replay, Union, Host, Boards, Changes;
    assert Host(Union(boards), polls) == Replay({k}, polls[0].events);
  }

  lemma OnePoll(boards: seq<set<nat>>, polls: seq<Poll>)
    requires |polls| == 1 && polls[0].board < |boards|
    ensures Boards(boards, polls) == boards[polls[0].board := polls[0].now]
    ensures Boards(boards, polls[..0]) == boards
    ensures forall held :: Host(held, polls) == Replay(held, polls[0].events)
  {
    assert polls[..0] == [];
  }

  lemma UnionOfTwo(a: set<nat>, b: set<nat>)
    ensures Union([a, b]) == a + b
  {
    assert [a, b][0] == a && [a, b][1] == b;
  }
}
