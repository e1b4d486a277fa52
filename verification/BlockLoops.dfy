/**
 The loops of the AES kernel over its byte buffers, with the tables and the addition as
 parameters: each leaves in the buffer what module Blocks or KeySchedule specifies.
 */
module BlockLoops {
  import opened Blocks
  import opened KeySchedule

  /** The parts of a buffer of which the middle has been written. */
  lemma Placed(whole: seq<bv8>, before: seq<bv8>, middle: seq<bv8>, after: seq<bv8>)
    requires whole == before + middle + after
    ensures whole[..|before|] == before
    ensures whole[|before|..|before| + |middle|] == middle
    ensures whole[..|before| + |middle|] == before + middle
  {
  }

  /** A copying loop, and also one DMA transfer, of `count` bytes. */
  method CopyBytes(source: array<bv8>, from: nat, target: array<bv8>, to: nat, count: nat)
    requires source != target && from + count <= source.Length && to + count <= target.Length
    modifies target
    ensures target[..] == old(target[..to]) + source[from..from + count] + old(target[to + count..])
  {
    for i := 0 to count
      invariant target[..to] == old(target[..to]) && target[to + count..] == old(target[to + count..])
      invariant target[to..to + i] == source[from..from + i]
    {
      target[to + i] := source[from + i];
    }
  }

  /** The sixteen assignments that undo ShiftRows. */
  method InvShiftRowsInto(state: array<bv8>, temp: array<bv8>)
    requires state.Length == 16 && temp.Length == 16 && state != temp
    modifies temp
    ensures temp[..] == InvShiftRows(state[..])
  {
    hide InvShiftRows;
    temp[0] := state[0];   temp[1] := state[13]; temp[2] := state[10]; temp[3] := state[7];
    temp[4] := state[4];   temp[5] := state[1];  temp[6] := state[14]; temp[7] := state[11];
    temp[8] := state[8];   temp[9] := state[5];  temp[10] := state[2]; temp[11] := state[15];
    temp[12] := state[12]; temp[13] := state[9]; temp[14] := state[6]; temp[15] := state[3];
    InvShiftRowsEntries(state[..], temp[..]);
  }

  lemma InvShiftRowsEntries(s: Block, t: Block)
    requires t[0] == s[0] && t[1] == s[13] && t[2] == s[10] && t[3] == s[7]
    requires t[4] == s[4] && t[5] == s[1] && t[6] == s[14] && t[7] == s[11]
    requires t[8] == s[8] && t[9] == s[5] && t[10] == s[2] && t[11] == s[15]
    requires t[12] == s[12] && t[13] == s[9] && t[14] == s[6] && t[15] == s[3]
    ensures t == InvShiftRows(s)
  {
    var r := InvShiftRows(s);
    assert r[0] == s[0] && r[1] == s[13] && r[2] == s[10] && r[3] == s[7];
    assert r[4] == s[4] && r[5] == s[1] && r[6] == s[14] && r[7] == s[11];
    assert r[8] == s[8] && r[9] == s[5] && r[10] == s[2] && r[11] == s[15];
    assert r[12] == s[12] && r[13] == s[9] && r[14] == s[6] && r[15] == s[3];
    hide InvShiftRows;
  }

  method SubInPlace(sub: Op1, temp: array<bv8>)
    requires temp.Length == 16
    modifies temp
    ensures temp[..] == SubBytes(sub, old(temp[..]))
  {
    for i := 0 to 16
      invariant temp[..i] == SubBytes(sub, old(temp[..]))[..i] && temp[i..] == old(temp[i..])
    {
      temp[i] := sub(temp[i]);
    }
  }

  /** Adds sixteen bytes of `source` to sixteen bytes of `target`. */
  method AddInPlace(add: Op2, target: array<bv8>, at: nat, source: array<bv8>, from: nat)
    requires at + 16 <= target.Length && from + 16 <= source.Length && source != target
    modifies target
    ensures target[..] == old(target[..at]) + AddRoundKey(add, old(target[at..at + 16]), source[from..from + 16])
                        + old(target[at + 16..])
    ensures target.Length == 16 ==> target[..] == AddRoundKey(add, old(target[..]), source[from..from + 16])
  {
    ghost var was: Block, k: Block := target[at..at + 16], source[from..from + 16];
    ghost var sum := AddRoundKey(add, was, k);
    for i := 0 to 16
      invariant target[..at] == old(target[..at]) && target[at + 16..] == old(target[at + 16..])
      invariant forall j | i <= j < 16 :: target[at + j] == was[j]
      invariant target[at..at + i] == sum[..i]
    {
      assert source[from + i] == k[i] && target[at + i] == was[i];
      target[at + i] := add(target[at + i], source[from + i]);
    }
    if target.Length == 16 {
      assert was == old(target[..]) && target[..] == sum;
    }
  }

  /** The first loop of the block decryption. */
  method SumInto(add: Op2, block: Block, source: array<bv8>, from: nat, target: array<bv8>)
    requires from + 16 <= source.Length && target.Length == 16 && target != source
    modifies target
    ensures target[..] == AddRoundKey(add, block, source[from..from + 16])
  {
    ghost var k: Block := source[from..from + 16];
    for i := 0 to 16
      invariant forall j | 0 <= j < i :: target[j] == add(block[j], k[j])
    {
      target[i] := add(block[i], source[from + i]);
    }
  }

  /** The last loop of the block decryption. */
  method SubAddInto(sub: Op1, add: Op2, temp: array<bv8>, source: array<bv8>, out: array<bv8>, at: nat)
    requires temp.Length == 16 && 16 <= source.Length && at + 16 <= out.Length && out != temp && out != source
    modifies out
    ensures out[..] == old(out[..at]) + AddRoundKey(add, SubBytes(sub, temp[..]), source[0..16]) + old(out[at + 16..])
  {
    ghost var before, k: Block := out[..], source[0..16];
    ghost var sum := AddRoundKey(add, SubBytes(sub, temp[..]), k);
    for i := 0 to 16
      invariant forall j | 0 <= j < out.Length :: out[j] == if at <= j < at + i then sum[j - at] else before[j]
    {
      assert sum[i] == add(sub(temp[i]), k[i]);
      out[at + i] := add(sub(temp[i]), source[i]);
    }
    hide AddRoundKey;
    assert out[..] == before[..at] + sum + before[at + 16..];
  }

  /** The branch of the key expansion taken for every fourth word. */
  method SubstituteWord(sub: Op1, add: Op2, temp: array<bv8>, rcon: bv8)
    requires temp.Length == 4
    modifies temp
    ensures temp[..] == Core(sub, add, old(temp[..]), rcon)
  {
    var u := temp[0];
    temp[0] := add(sub(temp[1]), rcon);
    temp[1] := sub(temp[2]);
    temp[2] := sub(temp[3]);
    temp[3] := sub(u);
  }

  /** The last loop of the key expansion: four more bytes. */
  method ExtendKey(add: Op2, roundKeys: array<bv8>, i: nat, temp: array<bv8>)
    requires 16 <= i && i + 4 <= roundKeys.Length && temp.Length == 4 && temp != roundKeys
    modifies roundKeys
    ensures roundKeys[..] == old(roundKeys[..i]) + AddWords(add, old(roundKeys[i - 16..i - 12]), temp[..])
                           + old(roundKeys[i + 4..])
  {
    ghost var made, before := roundKeys[..], roundKeys[i - 16..i - 12];
    ghost var words := AddWords(add, before, temp[..]);
    for k := 0 to 4
      invariant forall j | 0 <= j < roundKeys.Length ::
        roundKeys[j] == if i <= j < i + k then words[j - i] else made[j]
    {
      AddWordsAt(add, before, temp[..], k);
      assert roundKeys[i - 16 + k] == made[i - 16 + k] == before[k];
      roundKeys[i + k] := add(roundKeys[i - 16 + k], temp[k]);
    }
    assert roundKeys[..] == made[..i] + words + made[i + 4..];
  }

  lemma WordAppended(e: RoundKeys, before: RoundKeys, i: nat, after: RoundKeys)
    requires i + 4 <= 176 && before[..i] == e[..i]
    requires after == before[..i] + e[i..i + 4] + before[i + 4..]
    ensures after[..i + 4] == e[..i + 4]
  {
  }

  lemma WordsBefore(e: RoundKeys, made: RoundKeys, i: nat)
    requires 16 <= i <= 176 && made[..i] == e[..i]
    ensures made[i - 4..i] == e[i - 4..i] && made[i - 16..i - 12] == e[i - 16..i - 12]
  {
    forall k | 0 <= k < i ensures made[k] == e[k] {
      assert made[..i][k] == e[..i][k];
    }
  }

  lemma WordIndex(i: nat, n: nat)
    requires i == 4 * n
    ensures (i % 16 == 0 <==> n % 4 == 0) && (n % 4 == 0 ==> i / 16 == n / 4)
  {
  }

  /** The body of the main loop of the key expansion, for word `n`. */
  method NextKeyWord(sub: Op1, add: Op2, ghost rcon: nat -> bv8, rconTable: seq<bv8>, ghost key: Block,
                     i: nat, ghost n: nat, roundKeys: array<bv8>, temp: array<bv8>)
    requires roundKeys.Length == 176 && temp.Length == 4 && temp != roundKeys
    requires |rconTable| == 11 && forall k | 1 <= k <= 10 :: rconTable[k] == rcon(k)
    requires i == 4 * n && 4 <= n < 44 && roundKeys[..i] == Expansion(sub, add, rcon, key)[..i]
    modifies roundKeys, temp
    ensures roundKeys[..i + 4] == Expansion(sub, add, rcon, key)[..i + 4]
  {
    hide *;
    ghost var e := Expansion(sub, add, rcon, key);
    ghost var made := roundKeys[..];
    WordsBefore(e, made, i);
    CopyBytes(roundKeys, i - 4, temp, 0, 4);
    ghost var prev := e[4 * n - 4..4 * n];
    assert temp[..] == prev;
    WordIndex(i, n);
    if i % 16 == 0 {
      SubstituteWord(sub, add, temp, rconTable[i / 16]);
      assert temp[..] == Core(sub, add, prev, rcon(n / 4));
    }
    ScheduleStep(sub, add, rcon, key, n, e);
    assert AddWords(add, made[i - 16..i - 12], temp[..]) == e[i..i + 4];
    assert roundKeys[..] == made;
    ExtendKey(add, roundKeys, i, temp);
    WordAppended(e, made, i, roundKeys[..]);
  }

  /** The key expansion: sixteen bytes copied, then word after word. */
  method ExpandKey(sub: Op1, add: Op2, ghost rcon: nat -> bv8, rconTable: seq<bv8>, key: Block,
                   roundKeys: array<bv8>)
    requires roundKeys.Length == 176
    requires |rconTable| == 11 && forall k | 1 <= k <= 10 :: rconTable[k] == rcon(k)
    modifies roundKeys
    ensures roundKeys[..] == Expansion(sub, add, rcon, key)
  {
    hide *;
    FirstWords(sub, add, rcon, key);
    ghost var e := Expansion(sub, add, rcon, key);
    for i := 0 to 16
      invariant roundKeys[..i] == key[..i]
    {
      roundKeys[i] := key[i];
    }
    var temp := new bv8[4];
    var i := 16;
    while i < 176
      invariant 16 <= i <= 176 && i == 4 * (i / 4)
      invariant roundKeys[..i] == e[..i]
    {
      NextKeyWord(sub, add, rcon, rconTable, key, i, i / 4, roundKeys, temp);
      i := i + 4;
    }
  }
}
