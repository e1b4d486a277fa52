/**
 The AES-128 key expansion of FIPS 197, section 5.2, over any substitution, addition and
 round constants, and what a single wrong table entry does to it.
 */
module KeySchedule {
  import opened Blocks

  function AddWords(add: Op2, a: Word, b: Word): Word {
    [add(a[0], b[0]), add(a[1], b[1]), add(a[2], b[2]), add(a[3], b[3])]
  }

  /** SubWord(RotWord(t)) with the round constant added. */
  function Core(sub: Op1, add: Op2, t: Word, rcon: bv8): Word {
    [add(sub(t[1]), rcon), sub(t[2]), sub(t[3]), sub(t[0])]
  }

  /** Word `i` of the expanded key. */
  function ScheduleWord(sub: Op1, add: Op2, rcon: nat -> bv8, key: Block, i: nat): Word {
    if i < 4 then key[4 * i..4 * i + 4]
    else
      var prev := ScheduleWord(sub, add, rcon, key, i - 1);
      var t := if i % 4 == 0 then Core(sub, add, prev, rcon(i / 4)) else prev;
      AddWords(add, ScheduleWord(sub, add, rcon, key, i - 4), t)
  }

  /** The expanded key: words 0 to 43. */
  function Expansion(sub: Op1, add: Op2, rcon: nat -> bv8, key: Block): RoundKeys {
    seq(176, k requires 0 <= k < 176 => ScheduleWord(sub, add, rcon, key, k / 4)[k % 4])
  }

  /** No round key but the last holds the byte `bad` in its last word, which is substituted next. */
  predicate Avoids(w: RoundKeys, bad: bv8) {
    forall r | 0 <= r < 10 :: bad !in w[16 * r + 12..16 * r + 16]
  }

  lemma WordOfExpansion(sub: Op1, add: Op2, rcon: nat -> bv8, key: Block, i: nat)
    requires i < 44
    ensures Expansion(sub, add, rcon, key)[4 * i..4 * i + 4] == ScheduleWord(sub, add, rcon, key, i)
  {
    forall k | 0 <= k < 4
      ensures Expansion(sub, add, rcon, key)[4 * i + k] == ScheduleWord(sub, add, rcon, key, i)[k]
    {
      assert (4 * i + k) / 4 == i && (4 * i + k) % 4 == k;
    }
  }

  /** The recurrence, read off the expanded key `e`. */
  lemma ScheduleStep(sub: Op1, add: Op2, rcon: nat -> bv8, key: Block, n: nat, e: RoundKeys)
    requires 4 <= n < 44 && e == Expansion(sub, add, rcon, key)
    ensures e[4 * n..4 * n + 4]
         == AddWords(add, e[4 * n - 16..4 * n - 12],
                     if n % 4 == 0 then Core(sub, add, e[4 * n - 4..4 * n], rcon(n / 4)) else e[4 * n - 4..4 * n])
  {
    WordOfExpansion(sub, add, rcon, key, n);
    WordOfExpansion(sub, add, rcon, key, n - 1);
    WordOfExpansion(sub, add, rcon, key, n - 4);
    hide Expansion, AddWords, Core;
  }

  lemma FirstWords(sub: Op1, add: Op2, rcon: nat -> bv8, key: Block)
    ensures Expansion(sub, add, rcon, key)[..16] == key
  {
    var e := Expansion(sub, add, rcon, key);
    WordOfExpansion(sub, add, rcon, key, 0); WordOfExpansion(sub, add, rcon, key, 1);
    WordOfExpansion(sub, add, rcon, key, 2); WordOfExpansion(sub, add, rcon, key, 3);
    hide Expansion;
    assert e[..16] == e[0..4] + e[4..8] + e[8..12] + e[12..16];
    assert key == key[0..4] + key[4..8] + key[8..12] + key[12..16];
  }

  lemma AddWordsAt(add: Op2, a: Word, b: Word, j: nat)
    requires j < 4
    ensures AddWords(add, a, b)[j] == add(a[j], b[j])
  {
  }

  lemma InWord(e: RoundKeys, at: nat, j: nat)
    requires at + 4 <= 176 && j < 4
    ensures e[at..at + 4][j] == e[at + j]
  {
  }

  /**
   The first word of round key `r`: the last word of the round key before, rotated by one byte
   and substituted, and the round constant are added to the first word of that.
   */
  lemma FirstWordBytes(sub: Op1, add: Op2, rcon: nat -> bv8, key: Block, r: nat)
    requires 1 <= r <= 10
    ensures var e, at := Expansion(sub, add, rcon, key), 16 * r;
      && e[at] == add(e[at - 16], add(sub(e[at - 3]), rcon(r)))
      && e[at + 1] == add(e[at - 15], sub(e[at - 2]))
      && e[at + 2] == add(e[at - 14], sub(e[at - 1]))
      && e[at + 3] == add(e[at - 13], sub(e[at - 4]))
  {
    hide Expansion;
    var e, at := Expansion(sub, add, rcon, key), 16 * r;
    ScheduleStep(sub, add, rcon, key, 4 * r, e);
    WordBytes(e, at); WordBytes(e, at - 16); WordBytes(e, at - 4);
  }

  lemma WordBytes(e: RoundKeys, at: nat)
    requires at + 4 <= 176
    ensures e[at..at + 4] == [e[at], e[at + 1], e[at + 2], e[at + 3]]
  {
  }

  /** Row `j` of word `c` of round key `r`: the word before is added to the one four words before. */
  lemma LaterWordBytes(sub: Op1, add: Op2, rcon: nat -> bv8, key: Block, r: nat, c: nat, j: nat)
    requires 1 <= r <= 10 && 1 <= c < 4 && j < 4
    ensures var e := Expansion(sub, add, rcon, key); var at := 16 * r + 4 * c + j;
      e[at] == add(e[at - 16], e[at - 4])
  {
    hide Expansion, AddWords, Core;
    var e, at := Expansion(sub, add, rcon, key), 16 * r + 4 * c;
    ScheduleStep(sub, add, rcon, key, 4 * r + c, e);
    AddWordsAt(add, e[at - 16..at - 12], e[at - 4..at], j);
    InWord(e, at, j); InWord(e, at - 16, j); InWord(e, at - 4, j);
  }

  /** Round key `n` follows from round key `p`. */
  predicate NextKey(sub: Op1, add: Op2, constant: bv8, p: Block, n: Block) {
    && n[0] == add(p[0], add(sub(p[13]), constant)) && n[1] == add(p[1], sub(p[14]))
    && n[2] == add(p[2], sub(p[15])) && n[3] == add(p[3], sub(p[12]))
    && n[4] == add(p[4], n[0]) && n[5] == add(p[5], n[1]) && n[6] == add(p[6], n[2]) && n[7] == add(p[7], n[3])
    && n[8] == add(p[8], n[4]) && n[9] == add(p[9], n[5]) && n[10] == add(p[10], n[6]) && n[11] == add(p[11], n[7])
    && n[12] == add(p[12], n[8]) && n[13] == add(p[13], n[9]) && n[14] == add(p[14], n[10])
    && n[15] == add(p[15], n[11])
  }

  lemma InKey(e: RoundKeys, r: nat, i: nat)
    requires r <= 10 && i < 16
    ensures RoundKey(e, r)[i] == e[16 * r + i]
  {
  }

  lemma LaterByte(sub: Op1, add: Op2, rcon: nat -> bv8, key: Block, r: nat, c: nat, j: nat)
    requires 1 <= r <= 10 && 1 <= c < 4 && j < 4
    ensures var e := Expansion(sub, add, rcon, key);
      RoundKey(e, r)[4 * c + j] == add(RoundKey(e, r - 1)[4 * c + j], RoundKey(e, r)[4 * c + j - 4])
  {
    hide *;
    var e := Expansion(sub, add, rcon, key);
    LaterWordBytes(sub, add, rcon, key, r, c, j);
    InKey(e, r, 4 * c + j); InKey(e, r - 1, 4 * c + j); InKey(e, r, 4 * c + j - 4);
  }

  lemma FirstBytes(sub: Op1, add: Op2, rcon: nat -> bv8, key: Block, r: nat)
    requires 1 <= r <= 10
    ensures var e := Expansion(sub, add, rcon, key); var p, n := RoundKey(e, r - 1), RoundKey(e, r);
      && n[0] == add(p[0], add(sub(p[13]), rcon(r))) && n[1] == add(p[1], sub(p[14]))
      && n[2] == add(p[2], sub(p[15])) && n[3] == add(p[3], sub(p[12]))
  {
    hide *;
    var e := Expansion(sub, add, rcon, key);
    FirstWordBytes(sub, add, rcon, key, r);
    InKey(e, r, 0); InKey(e, r, 1); InKey(e, r, 2); InKey(e, r, 3);
    InKey(e, r - 1, 0); InKey(e, r - 1, 1); InKey(e, r - 1, 2); InKey(e, r - 1, 3);
    InKey(e, r - 1, 12); InKey(e, r - 1, 13); InKey(e, r - 1, 14); InKey(e, r - 1, 15);
  }

  /** Each round key of the expansion follows from the one before. */
  lemma KeyFollows(sub: Op1, add: Op2, rcon: nat -> bv8, key: Block, r: nat)
    requires 1 <= r <= 10
    ensures var e := Expansion(sub, add, rcon, key); NextKey(sub, add, rcon(r), RoundKey(e, r - 1), RoundKey(e, r))
  {
    hide Expansion, RoundKey;
    FirstBytes(sub, add, rcon, key, r);
    LaterByte(sub, add, rcon, key, r, 1, 0); LaterByte(sub, add, rcon, key, r, 1, 1);
    LaterByte(sub, add, rcon, key, r, 1, 2); LaterByte(sub, add, rcon, key, r, 1, 3);
    LaterByte(sub, add, rcon, key, r, 2, 0); LaterByte(sub, add, rcon, key, r, 2, 1);
    LaterByte(sub, add, rcon, key, r, 2, 2); LaterByte(sub, add, rcon, key, r, 2, 3);
    LaterByte(sub, add, rcon, key, r, 3, 0); LaterByte(sub, add, rcon, key, r, 3, 1);
    LaterByte(sub, add, rcon, key, r, 3, 2); LaterByte(sub, add, rcon, key, r, 3, 3);
  }

  /** There is only one next round key. */
  lemma OneNext(sub: Op1, add: Op2, constant: bv8, p: Block, n: Block, n': Block)
    requires NextKey(sub, add, constant, p, n) && NextKey(sub, add, constant, p, n')
    ensures n == n'
  {
    assert n[0] == n'[0] && n[1] == n'[1] && n[2] == n'[2] && n[3] == n'[3];
    assert n[4] == n'[4] && n[5] == n'[5] && n[6] == n'[6] && n[7] == n'[7];
    assert n[8] == n'[8] && n[9] == n'[9] && n[10] == n'[10] && n[11] == n'[11];
    assert n[12] == n'[12] && n[13] == n'[13] && n[14] == n'[14] && n[15] == n'[15];
  }

  lemma StartKey(sub: Op1, add: Op2, rcon: nat -> bv8, key: Block)
    ensures RoundKey(Expansion(sub, add, rcon, key), 0) == key
  {
    FirstWords(sub, add, rcon, key);
    hide Expansion;
  }

  /** Substitutions that differ in the entry `bad` alone. */
  ghost predicate DifferAt(sub: Op1, sub': Op1, bad: bv8) {
    forall x :: sub(x) == sub'(x) <==> x != bad
  }

  ghost predicate Cancels(add: Op2) {
    && (forall a, b, c :: add(a, c) == add(b, c) ==> a == b)
    && (forall a, b, c :: add(c, a) == add(c, b) ==> a == b)
  }

  lemma EntryDiffers(sub: Op1, sub': Op1, bad: bv8, x: bv8)
    requires DifferAt(sub, sub', bad)
    ensures sub(x) == sub'(x) <==> x != bad
  {
  }

  lemma Cancelled(add: Op2, a: bv8, b: bv8, c: bv8)
    requires Cancels(add)
    ensures add(a, c) == add(b, c) ==> a == b
    ensures add(c, a) == add(c, b) ==> a == b
  {
  }

  lemma CoresAgree(sub: Op1, sub': Op1, add: Op2, bad: bv8, t: Word, rcon: bv8)
    requires DifferAt(sub, sub', bad) && Cancels(add)
    ensures Core(sub, add, t, rcon) == Core(sub', add, t, rcon) <==> bad !in t
  {
    var c, c' := Core(sub, add, t, rcon), Core(sub', add, t, rcon);
    if c == c' {
      assert c[0] == c'[0] && c[1] == c'[1] && c[2] == c'[2] && c[3] == c'[3];
    }
    EntryDiffers(sub, sub', bad, t[0]); EntryDiffers(sub, sub', bad, t[1]);
    EntryDiffers(sub, sub', bad, t[2]); EntryDiffers(sub, sub', bad, t[3]);
    Cancelled(add, sub(t[1]), sub'(t[1]), rcon);
    assert t == [t[0], t[1], t[2], t[3]];
  }

  lemma AddWordsCancels(add: Op2, a: Word, t: Word, t': Word)
    requires Cancels(add) && AddWords(add, a, t) == AddWords(add, a, t')
    ensures t == t'
  {
    var s, s' := AddWords(add, a, t), AddWords(add, a, t');
    assert s[0] == s'[0] && s[1] == s'[1] && s[2] == s'[2] && s[3] == s'[3];
    Cancelled(add, t[0], t'[0], a[0]); Cancelled(add, t[1], t'[1], a[1]);
    Cancelled(add, t[2], t'[2], a[2]); Cancelled(add, t[3], t'[3], a[3]);
    assert t == [t[0], t[1], t[2], t[3]] && t' == [t'[0], t'[1], t'[2], t'[3]];
  }

  lemma {:induction false} WordsAgree(sub: Op1, sub': Op1, add: Op2, rcon: nat -> bv8,
                                      key: Block, bad: bv8, i: nat)
    requires DifferAt(sub, sub', bad) && Cancels(add) && i < 44
    requires forall j: nat | 4 * j + 3 < i :: bad !in ScheduleWord(sub, add, rcon, key, 4 * j + 3)
    ensures ScheduleWord(sub, add, rcon, key, i) == ScheduleWord(sub', add, rcon, key, i)
  {
    hide DifferAt, Cancels, Core, AddWords;
    if i >= 4 {
      WordsAgree(sub, sub', add, rcon, key, bad, i - 1);
      WordsAgree(sub, sub', add, rcon, key, bad, i - 4);
      if i % 4 == 0 {
        assert i - 1 == 4 * (i / 4 - 1) + 3;
        CoresAgree(sub, sub', add, bad, ScheduleWord(sub, add, rcon, key, i - 1), rcon(i / 4));
      }
    }
  }

  lemma SameIfAvoided(sub: Op1, sub': Op1, add: Op2, rcon: nat -> bv8, key: Block, bad: bv8)
    requires DifferAt(sub, sub', bad) && Cancels(add)
    requires Avoids(Expansion(sub, add, rcon, key), bad)
    ensures Expansion(sub, add, rcon, key) == Expansion(sub', add, rcon, key)
  {
    hide DifferAt, Cancels, ScheduleWord;
    var w := Expansion(sub, add, rcon, key);
    forall k | 0 <= k < 176
      ensures ScheduleWord(sub, add, rcon, key, k / 4) == ScheduleWord(sub', add, rcon, key, k / 4)
    {
      forall j: nat | 4 * j + 3 < k / 4 ensures bad !in ScheduleWord(sub, add, rcon, key, 4 * j + 3) {
        assert bad !in w[16 * j + 12..16 * j + 16];
        WordOfExpansion(sub, add, rcon, key, 4 * j + 3);
      }
      WordsAgree(sub, sub', add, rcon, key, bad, k / 4);
    }
  }

  lemma AvoidedIfSame(sub: Op1, sub': Op1, add: Op2, rcon: nat -> bv8, key: Block, bad: bv8, r: nat)
    requires DifferAt(sub, sub', bad) && Cancels(add) && r < 10
    requires Expansion(sub, add, rcon, key) == Expansion(sub', add, rcon, key)
    ensures bad !in Expansion(sub, add, rcon, key)[16 * r + 12..16 * r + 16]
  {
    hide DifferAt, Cancels, Core, AddWords, Expansion;
    var e := Expansion(sub, add, rcon, key);
    var n := 4 * r + 4;
    var prev := e[4 * n - 4..4 * n];
    ScheduleStep(sub, add, rcon, key, n, e);
    ScheduleStep(sub', add, rcon, key, n, e);
    AddWordsCancels(add, e[4 * n - 16..4 * n - 12],
                    Core(sub, add, prev, rcon(n / 4)), Core(sub', add, prev, rcon(n / 4)));
    CoresAgree(sub, sub', add, bad, prev, rcon(n / 4));
  }

  /** One wrong entry leaves the expansion intact exactly when it is never looked up. */
  lemma SameExpansionExactly(sub: Op1, sub': Op1, add: Op2, rcon: nat -> bv8, key: Block, bad: bv8)
    requires DifferAt(sub, sub', bad) && Cancels(add)
    ensures Expansion(sub, add, rcon, key) == Expansion(sub', add, rcon, key)
       <==> Avoids(Expansion(sub, add, rcon, key), bad)
  {
    hide DifferAt, Cancels, Expansion;
    var w, w' := Expansion(sub, add, rcon, key), Expansion(sub', add, rcon, key);
    if Avoids(w, bad) { SameIfAvoided(sub, sub', add, rcon, key, bad); }
    if w == w' {
      forall r | 0 <= r < 10 ensures bad !in w[16 * r + 12..16 * r + 16] {
        AvoidedIfSame(sub, sub', add, rcon, key, bad, r);
      }
    }
  }

  /** A key with the byte `bad` in its last word is not avoided. */
  lemma LastWordUsed(sub: Op1, add: Op2, rcon: nat -> bv8, key: Block, bad: bv8, k: nat)
    requires k < 4 && key[12 + k] == bad
    ensures !Avoids(Expansion(sub, add, rcon, key), bad)
  {
    var w := Expansion(sub, add, rcon, key);
    WordOfExpansion(sub, add, rcon, key, 3);
    hide Expansion;
    assert w[16 * 0 + 12..16 * 0 + 16][k] == key[12..16][k] == bad;
  }
}
