/**
 The round structure of the SHA-256 compression, FIPS 180-4, section 6.2.2, over any word
 type and word operations, and the unrolled form of the SPU kernel: there the registers stay
 in place, the argument lists rotate, and the schedule is filled in on the way.
 */
module Compression {

  datatype Ops<!T> = Ops(
    add: (T, T) -> T,
    bigSigma0: T -> T, bigSigma1: T -> T, smallSigma0: T -> T, smallSigma1: T -> T,
    ch: (T, T, T) -> T, maj: (T, T, T) -> T)

  datatype Regs<T> = Regs(a: T, b: T, c: T, d: T, e: T, f: T, g: T, h: T)

  // The standard's form

  /** Word `t` of the message schedule of the sixteen words of a block. */
  function ScheduleWord<T>(o: Ops<T>, words: seq<T>, t: nat): T
    requires |words| == 16
  {
    if t < 16 then words[t]
    else
      NextWord(o, ScheduleWord(o, words, t - 2), ScheduleWord(o, words, t - 7),
               ScheduleWord(o, words, t - 15), ScheduleWord(o, words, t - 16))
  }

  function NextWord<T>(o: Ops<T>, w2: T, w7: T, w15: T, w16: T): T {
    o.add(o.add(o.add(o.smallSigma1(w2), w7), o.smallSigma0(w15)), w16)
  }

  function Schedule<T>(o: Ops<T>, words: seq<T>): (ws: seq<T>)
    requires |words| == 16
    ensures |ws| == 64
  {
    seq(64, t requires 0 <= t < 64 => ScheduleWord(o, words, t))
  }

  function Temp1<T>(o: Ops<T>, r: Regs<T>, k: T, w: T): T {
    o.add(o.add(o.add(o.add(r.h, o.bigSigma1(r.e)), o.ch(r.e, r.f, r.g)), k), w)
  }

  function Temp2<T>(o: Ops<T>, r: Regs<T>): T {
    o.add(o.bigSigma0(r.a), o.maj(r.a, r.b, r.c))
  }

  /** One round: every variable moves on by one place. */
  function Round<T>(o: Ops<T>, r: Regs<T>, k: T, w: T): Regs<T> {
    Regs(o.add(Temp1(o, r, k, w), Temp2(o, r)), r.a, r.b, r.c, o.add(r.d, Temp1(o, r, k, w)), r.e, r.f, r.g)
  }

  function FirstRegs<T>(s: seq<T>): Regs<T>
    requires |s| == 8
  {
    Regs(s[0], s[1], s[2], s[3], s[4], s[5], s[6], s[7])
  }

  /** The working variables after the first `t` rounds. */
  function Rounds<T>(o: Ops<T>, K: seq<T>, s: seq<T>, ws: seq<T>, t: nat): Regs<T>
    requires |K| == |ws| == 64 && |s| == 8 && t <= 64
  {
    if t == 0 then FirstRegs(s) else Round(o, Rounds(o, K, s, ws, t - 1), K[t - 1], ws[t - 1])
  }

  function AddRegs<T>(o: Ops<T>, s: seq<T>, r: Regs<T>): seq<T>
    requires |s| == 8
  {
    [o.add(s[0], r.a), o.add(s[1], r.b), o.add(s[2], r.c), o.add(s[3], r.d),
     o.add(s[4], r.e), o.add(s[5], r.f), o.add(s[6], r.g), o.add(s[7], r.h)]
  }

  function Compress<T>(o: Ops<T>, K: seq<T>, s: seq<T>, words: seq<T>): seq<T>
    requires |K| == 64 && |s| == 8 && |words| == 16
  {
    AddRegs(o, s, Rounds(o, K, s, Schedule(o, words), 64))
  }

  // Operations that agree give the same compression

  ghost predicate SameOps<T(!new)>(o: Ops<T>, o': Ops<T>) {
    && o.add == o'.add && o.bigSigma0 == o'.bigSigma0 && o.bigSigma1 == o'.bigSigma1
    && o.smallSigma0 == o'.smallSigma0 && o.smallSigma1 == o'.smallSigma1
    && (forall x, y, z :: o.ch(x, y, z) == o'.ch(x, y, z))
    && (forall x, y, z :: o.maj(x, y, z) == o'.maj(x, y, z))
  }

  lemma {:induction false} SameSchedule<T(!new)>(o: Ops<T>, o': Ops<T>, words: seq<T>, t: nat)
    requires |words| == 16 && SameOps(o, o')
    ensures ScheduleWord(o, words, t) == ScheduleWord(o', words, t)
  {
    if t >= 16 {
      SameSchedule(o, o', words, t - 2); SameSchedule(o, o', words, t - 7);
      SameSchedule(o, o', words, t - 15); SameSchedule(o, o', words, t - 16);
    }
  }

  lemma {:induction false} SameRounds<T(!new)>(o: Ops<T>, o': Ops<T>, K: seq<T>, s: seq<T>, ws: seq<T>, t: nat)
    requires |K| == |ws| == 64 && |s| == 8 && t <= 64 && SameOps(o, o')
    ensures Rounds(o, K, s, ws, t) == Rounds(o', K, s, ws, t)
  {
    if t > 0 { SameRounds(o, o', K, s, ws, t - 1); }
  }

  lemma SameCompression<T(!new)>(o: Ops<T>, o': Ops<T>, K: seq<T>, s: seq<T>, words: seq<T>)
    requires |K| == 64 && |s| == 8 && |words| == 16 && SameOps(o, o')
    ensures Compress(o, K, s, words) == Compress(o', K, s, words)
  {
    forall t: nat | t < 64 ensures ScheduleWord(o, words, t) == ScheduleWord(o', words, t) {
      SameSchedule(o, o', words, t);
    }
    assert Schedule(o, words) == Schedule(o', words);
    SameRounds(o, o', K, s, Schedule(o, words), 64);
    hide Rounds, Schedule;
  }

  // The kernel's form

  /** The words from the seventeenth on follow the recurrence of the message schedule. */
  ghost predicate Scheduled<T>(o: Ops<T>, ws: seq<T>) {
    |ws| == 64 && forall t | 16 <= t < 64 :: ws[t] == NextWord(o, ws[t - 2], ws[t - 7], ws[t - 15], ws[t - 16])
  }

  /** One line of the unrolled compression: only the fourth and the last register change. */
  method P<T>(o: Ops<T>, K: seq<T>, ghost s: seq<T>, ghost ws: seq<T>, t: nat,
              a: T, b: T, c: T, d: T, e: T, f: T, g: T, h: T, x: T)
    returns (d': T, h': T)
    requires t < 64 == |K| == |ws| && |s| == 8 && x == ws[t]
    requires Rounds(o, K, s, ws, t) == Regs(a, b, c, d, e, f, g, h)
    ensures Rounds(o, K, s, ws, t + 1) == Regs(h', a, b, c, d', e, f, g)
  {
    var temp1 := o.add(o.add(o.add(o.add(h, o.bigSigma1(e)), o.ch(e, f, g)), K[t]), x);
    var temp2 := o.add(o.bigSigma0(a), o.maj(a, b, c));
    d' := o.add(d, temp1);
    h' := o.add(temp1, temp2);
  }

  lemma ScheduledAt<T>(o: Ops<T>, ws: seq<T>, t: nat)
    requires Scheduled(o, ws) && 16 <= t < 64
    ensures |ws| == 64 && ws[t] == NextWord(o, ws[t - 2], ws[t - 7], ws[t - 15], ws[t - 16])
  {
    hide NextWord;
  }

  lemma NextWordOf<T>(o: Ops<T>, w2: T, w7: T, w15: T, w16: T)
    ensures NextWord(o, w2, w7, w15, w16)
         == o.add(o.add(o.add(o.smallSigma1(w2), w7), o.smallSigma0(w15)), w16)
  {
  }

  /** A line whose word is computed on the way and kept in `W`. */
  method PR<T>(o: Ops<T>, K: seq<T>, ghost s: seq<T>, ghost ws: seq<T>, t: nat,
               a: T, b: T, c: T, d: T, e: T, f: T, g: T, h: T, W: array<T>)
    returns (d': T, h': T)
    requires 16 <= t < 64 == |K| == |ws| == W.Length && |s| == 8 && W[..t] == ws[..t]
    requires Scheduled(o, ws) && Rounds(o, K, s, ws, t) == Regs(a, b, c, d, e, f, g, h)
    modifies W
    ensures W[..t + 1] == ws[..t + 1]
    ensures Rounds(o, K, s, ws, t + 1) == Regs(h', a, b, c, d', e, f, g)
  {
    hide *;
    ScheduledAt(o, ws, t);
    NextWordOf(o, ws[t - 2], ws[t - 7], ws[t - 15], ws[t - 16]);
    assert forall i | 0 <= i < t :: W[i] == W[..t][i] == ws[i];
    W[t] := o.add(o.add(o.add(o.smallSigma1(W[t - 2]), W[t - 7]), o.smallSigma0(W[t - 15])), W[t - 16]);
    d', h' := P(o, K, s, ws, t, a, b, c, d, e, f, g, h, W[t]);
  }

  lemma ScheduleSteps<T>(o: Ops<T>, words: seq<T>, ws: seq<T>)
    requires |words| == 16 && ws == Schedule(o, words)
    ensures ws[..16] == words && Scheduled(o, ws)
  {
    hide NextWord;
  }

  /** The first sixteen lines, whose words are loaded from the block. */
  method LoadedRounds<T>(o: Ops<T>, K: seq<T>, ghost s: seq<T>, ghost ws: seq<T>, W: array<T>, r: Regs<T>)
    returns (r': Regs<T>)
    requires |K| == |ws| == W.Length == 64 && |s| == 8 && W[..16] == ws[..16]
    requires Rounds(o, K, s, ws, 0) == r
    ensures Rounds(o, K, s, ws, 16) == r'
  {
    hide *;
    assert forall i | 0 <= i < 16 :: W[i] == W[..16][i] == ws[i];
    var Regs(A, B, C, D, E, F, G, H) := r;
    D, H := P(o, K, s, ws, 0, A, B, C, D, E, F, G, H, W[0]);
    C, G := P(o, K, s, ws, 1, H, A, B, C, D, E, F, G, W[1]);
    B, F := P(o, K, s, ws, 2, G, H, A, B, C, D, E, F, W[2]);
    A, E := P(o, K, s, ws, 3, F, G, H, A, B, C, D, E, W[3]);
    H, D := P(o, K, s, ws, 4, E, F, G, H, A, B, C, D, W[4]);
    G, C := P(o, K, s, ws, 5, D, E, F, G, H, A, B, C, W[5]);
    F, B := P(o, K, s, ws, 6, C, D, E, F, G, H, A, B, W[6]);
    E, A := P(o, K, s, ws, 7, B, C, D, E, F, G, H, A, W[7]);
    D, H := P(o, K, s, ws, 8, A, B, C, D, E, F, G, H, W[8]);
    C, G := P(o, K, s, ws, 9, H, A, B, C, D, E, F, G, W[9]);
    B, F := P(o, K, s, ws, 10, G, H, A, B, C, D, E, F, W[10]);
    A, E := P(o, K, s, ws, 11, F, G, H, A, B, C, D, E, W[11]);
    H, D := P(o, K, s, ws, 12, E, F, G, H, A, B, C, D, W[12]);
    G, C := P(o, K, s, ws, 13, D, E, F, G, H, A, B, C, W[13]);
    F, B := P(o, K, s, ws, 14, C, D, E, F, G, H, A, B, W[14]);
    E, A := P(o, K, s, ws, 15, B, C, D, E, F, G, H, A, W[15]);
    r' := Regs(A, B, C, D, E, F, G, H);
  }

  /** Sixteen of the lines that follow; their register pattern repeats every eight lines. */
  method ScheduledRounds<T>(o: Ops<T>, K: seq<T>, ghost s: seq<T>, ghost ws: seq<T>, W: array<T>, t: nat, r: Regs<T>)
    returns (r': Regs<T>)
    requires 16 <= t && t + 16 <= |K| == |ws| == W.Length == 64 && |s| == 8 && W[..t] == ws[..t]
    requires Scheduled(o, ws) && Rounds(o, K, s, ws, t) == r
    modifies W
    ensures Rounds(o, K, s, ws, t + 16) == r' && W[..t + 16] == ws[..t + 16]
  {
    hide *;
    var Regs(A, B, C, D, E, F, G, H) := r;
    D, H := PR(o, K, s, ws, t, A, B, C, D, E, F, G, H, W);
    C, G := PR(o, K, s, ws, t + 1, H, A, B, C, D, E, F, G, W);
    B, F := PR(o, K, s, ws, t + 2, G, H, A, B, C, D, E, F, W);
    A, E := PR(o, K, s, ws, t + 3, F, G, H, A, B, C, D, E, W);
    H, D := PR(o, K, s, ws, t + 4, E, F, G, H, A, B, C, D, W);
    G, C := PR(o, K, s, ws, t + 5, D, E, F, G, H, A, B, C, W);
    F, B := PR(o, K, s, ws, t + 6, C, D, E, F, G, H, A, B, W);
    E, A := PR(o, K, s, ws, t + 7, B, C, D, E, F, G, H, A, W);
    D, H := PR(o, K, s, ws, t + 8, A, B, C, D, E, F, G, H, W);
    C, G := PR(o, K, s, ws, t + 9, H, A, B, C, D, E, F, G, W);
    B, F := PR(o, K, s, ws, t + 10, G, H, A, B, C, D, E, F, W);
    A, E := PR(o, K, s, ws, t + 11, F, G, H, A, B, C, D, E, W);
    H, D := PR(o, K, s, ws, t + 12, E, F, G, H, A, B, C, D, W);
    G, C := PR(o, K, s, ws, t + 13, D, E, F, G, H, A, B, C, W);
    F, B := PR(o, K, s, ws, t + 14, C, D, E, F, G, H, A, B, W);
    E, A := PR(o, K, s, ws, t + 15, B, C, D, E, F, G, H, A, W);
    r' := Regs(A, B, C, D, E, F, G, H);
  }

  method LoadWords<T>(words: seq<T>, W: array<T>)
    requires |words| == 16 && W.Length == 64
    modifies W
    ensures W[..16] == words
  {
    W[0] := words[0]; W[1] := words[1]; W[2] := words[2]; W[3] := words[3];
    W[4] := words[4]; W[5] := words[5]; W[6] := words[6]; W[7] := words[7];
    W[8] := words[8]; W[9] := words[9]; W[10] := words[10]; W[11] := words[11];
    W[12] := words[12]; W[13] := words[13]; W[14] := words[14]; W[15] := words[15];
  }

  method AddToState<T>(o: Ops<T>, state: array<T>, r: Regs<T>)
    requires state.Length == 8
    modifies state
    ensures state[..] == AddRegs(o, old(state[..]), r)
  {
    state[0] := o.add(state[0], r.a); state[1] := o.add(state[1], r.b);
    state[2] := o.add(state[2], r.c); state[3] := o.add(state[3], r.d);
    state[4] := o.add(state[4], r.e); state[5] := o.add(state[5], r.f);
    state[6] := o.add(state[6], r.g); state[7] := o.add(state[7], r.h);
  }

  /** The unrolled compression of the kernel is the compression function of the standard. */
  method Process<T(0)>(o: Ops<T>, K: seq<T>, state: array<T>, words: seq<T>)
    requires |K| == 64 && state.Length == 8 && |words| == 16
    modifies state
    ensures state[..] == Compress(o, K, old(state[..]), words)
  {
    hide *;
    var W := new T[64];
    ghost var s, ws := state[..], Schedule(o, words);
    ScheduleSteps(o, words, ws);
    LoadWords(words, W);
    FirstRounds(o, K, s, ws);
    var r := LoadedRounds(o, K, s, ws, W, FirstRegs(state[..]));
    r := ScheduledRounds(o, K, s, ws, W, 16, r);
    r := ScheduledRounds(o, K, s, ws, W, 32, r);
    r := ScheduledRounds(o, K, s, ws, W, 48, r);
    AddToState(o, state, r);
    CompressOf(o, K, s, words, r);
  }

  lemma FirstRounds<T>(o: Ops<T>, K: seq<T>, s: seq<T>, ws: seq<T>)
    requires |K| == |ws| == 64 && |s| == 8
    ensures Rounds(o, K, s, ws, 0) == FirstRegs(s)
  {
  }

  lemma CompressOf<T>(o: Ops<T>, K: seq<T>, s: seq<T>, words: seq<T>, r: Regs<T>)
    requires |K| == 64 && |s| == 8 && |words| == 16 && Rounds(o, K, s, Schedule(o, words), 64) == r
    ensures Compress(o, K, s, words) == AddRegs(o, s, r)
  {
    hide Rounds, Schedule, AddRegs;
  }

  // One equation at a time

  /** Words that follow the recurrence are the message schedule of the first sixteen. */
  lemma {:induction false} OnlySchedule<T>(o: Ops<T>, words: seq<T>, ws: seq<T>, t: nat)
    requires |words| == 16 && Scheduled(o, ws) && ws[..16] == words && t < 64
    ensures ws[t] == ScheduleWord(o, words, t)
  {
    if t < 16 {
      assert ws[t] == ws[..16][t];
    } else {
      hide NextWord, Scheduled;
      ScheduledAt(o, ws, t);
      OnlySchedule(o, words, ws, t - 2); OnlySchedule(o, words, ws, t - 7);
      OnlySchedule(o, words, ws, t - 15); OnlySchedule(o, words, ws, t - 16);
    }
  }

  lemma RoundFollows<T>(o: Ops<T>, K: seq<T>, s: seq<T>, ws: seq<T>, t: nat, r: Regs<T>, k: T, w: T)
    requires |K| == |ws| == 64 && |s| == 8 && t < 64 && Rounds(o, K, s, ws, t) == r && K[t] == k && ws[t] == w
    ensures Rounds(o, K, s, ws, t + 1) == Round(o, r, k, w)
  {
    hide Round;
  }
}
