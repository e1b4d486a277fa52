/**
 The conversion of an access unit in place: each length field is overwritten by a start code,
 with the position and the bounds test in 32-bit arithmetic.
 */
module NalConvert {
  import opened Memory
  import opened NalUnits

  /** The longest access unit that is accepted. */
  const MAX_UNIT := 0x40_0000

  /** The bytes with a start code at `pos`. */
  function Marked(s: Bytes, pos: nat): (m: Bytes)
    requires pos + 4 <= |s|
    ensures |m| == |s|
  {
    s[..pos] + START_CODE + s[pos + 4..]
  }

  /** Where the walk goes from `pos`; the sum wraps at 2^32. */
  function After(s: Bytes, pos: nat): (p: nat)
    requires pos + 4 <= |s|
    ensures p < TWO32
  {
    (pos + 4 + LengthAt(s, pos)) % TWO32
  }

  predicate Stops(s: Bytes, pos: nat) {
    pos + 4 > |s| || LengthAt(s, pos) == 0 || After(s, pos) > |s|
  }

  function Count255(s: Bytes): nat {
    if s == [] then 0 else (if s[0] == 255 then 1 else 0) + Count255(s[1..])
  }

  lemma {:induction false} Count255Adds(s: Bytes, t: Bytes)
    ensures Count255(s + t) == Count255(s) + Count255(t)
  {
    if s == [] {
      assert s + t == t;
    } else {
      Count255Adds(s[1..], t);
      assert (s + t)[1..] == s[1..] + t;
    }
  }

  lemma CountOfFour(s: Bytes)
    requires |s| == 4
    ensures s[0] == 255 ==> Count255(s) > 0
    ensures s == START_CODE ==> Count255(s) == 0
  {
    assert s == START_CODE ==> s[1..] == [0, 0, 1] && s[2..] == [0, 1] && s[3..] == [1];
  }

  lemma {:induction false} CountMarked(s: Bytes, pos: nat)
    requires pos + 4 <= |s|
    ensures Count255(Marked(s, pos)) <= Count255(s)
    ensures s[pos] == 255 ==> Count255(Marked(s, pos)) < Count255(s)
  {
    hide Count255;
    var field := s[pos..pos + 4];
    CountOfFour(field);
    CountOfFour(START_CODE);
    Count255Adds(s[..pos] + field, s[pos + 4..]);
    Count255Adds(s[..pos], field);
    Count255Adds(s[..pos] + START_CODE, s[pos + 4..]);
    Count255Adds(s[..pos], START_CODE);
    assert s == s[..pos] + field + s[pos + 4..];
  }

  /** A sum that wraps has a length whose first byte is 255. */
  lemma WrapNeeds255(s: Bytes, pos: nat)
    requires pos + 4 <= |s| <= MAX_UNIT && !Stops(s, pos)
    ensures After(s, pos) <= pos ==> s[pos] == 255
    ensures pos + 4 + LengthAt(s, pos) < TWO32 ==> After(s, pos) == pos + 4 + LengthAt(s, pos) > pos
  {
    hide Value;
    assert s[pos] < 255 ==> LengthAt(s, pos) < 0xff00_0000;
  }

  /** Marking adds no byte 255, and takes one away where the walk does not move on. */
  lemma MarkedCount(s: Bytes, pos: nat)
    requires pos + 4 <= |s| <= MAX_UNIT && !Stops(s, pos)
    ensures Count255(Marked(s, pos)) <= Count255(s)
    ensures After(s, pos) <= pos ==> Count255(Marked(s, pos)) < Count255(s)
  {
    hide Count255, Value, Marked;
    CountMarked(s, pos);
    WrapNeeds255(s, pos);
  }

  datatype Walked = Walked(bytes: Bytes, pos: nat, converted: nat)

  /** The walk over the length fields; it ends although a wrapping sum can move it back. */
  function Walk(s: Bytes, pos: nat, converted: nat): (w: Walked)
    requires pos <= |s| <= MAX_UNIT
    ensures |w.bytes| == |s| && w.pos <= |s|
    decreases Count255(s), |s| - pos
  {
    if Stops(s, pos) then Walked(s, pos, converted)
    else
      MarkedCount(s, pos);
      Walk(Marked(s, pos), After(s, pos), converted + 1)
  }

  /**
   One step of the walk in plain terms: it ends with fewer than four bytes left, at a length of
   zero, or at one that goes past the end. Otherwise a start code replaces the length field.
   */
  lemma WalkIs(s: Bytes, pos: nat, converted: nat)
    requires pos <= |s| <= 4194304
    ensures pos + 4 > |s| ==> Walk(s, pos, converted) == Walked(s, pos, converted)
    ensures pos + 4 <= |s| ==>
      var b3: int, b2: int, b1: int, b0: int := s[pos], s[pos + 1], s[pos + 2], s[pos + 3];
      var n := b3 * 16777216 + b2 * 65536 + b1 * 256 + b0;
      var next := (pos + 4 + n) % 4294967296;
      Walk(s, pos, converted) ==
        if n == 0 || next > |s| then Walked(s, pos, converted)
        else Walk(s[pos := 0][pos + 1 := 0][pos + 2 := 0][pos + 3 := 1], next, converted + 1)
  {
    hide Walk;
    WalkUnfolds(s, pos, converted);
    if pos + 4 <= |s| {
      assert Marked(s, pos) == s[pos := 0][pos + 1 := 0][pos + 2 := 0][pos + 3 := 1];
    }
  }

  lemma WalkUnfolds(s: Bytes, pos: nat, converted: nat)
    requires pos <= |s| <= MAX_UNIT
    ensures Walk(s, pos, converted) ==
      if Stops(s, pos) then Walked(s, pos, converted) else Walk(Marked(s, pos), After(s, pos), converted + 1)
  {
    hide Stops, Marked, After, Count255;
  }

  /** Writes a start code over a length field. */
  method Mark(buf: array<Byte>, pos: nat, ghost length: nat)
    requires pos + 4 <= length <= buf.Length
    modifies buf
    ensures buf[..length] == Marked(old(buf[..length]), pos) && buf[length..] == old(buf[length..])
  {
    buf[pos], buf[pos + 1], buf[pos + 2], buf[pos + 3] := 0, 0, 0, 1;
  }

  /** The loop of the conversion. */
  method ConvertInPlace(buf: array<Byte>, length: nat) returns (pos: nat, converted: nat)
    requires length <= buf.Length && length <= MAX_UNIT
    modifies buf
    ensures Walked(buf[..length], pos, converted) == Walk(old(buf[..length]), 0, 0)
    ensures buf[length..] == old(buf[length..])
  {
    hide Count255, Value, Marked;
    pos, converted := 0, 0;
    while pos + 4 <= length
      invariant pos <= length && buf[length..] == old(buf[length..])
      invariant Walk(buf[..length], pos, converted) == Walk(old(buf[..length]), 0, 0)
      decreases Count255(buf[..length]), length - pos
    {
      ghost var s := buf[..length];
      var naluLen := Value(buf[pos], buf[pos + 1], buf[pos + 2], buf[pos + 3]);
      assert naluLen == LengthAt(s, pos);
      if naluLen == 0 || (pos + 4 + naluLen) % TWO32 > length { break; }
      MarkedCount(s, pos);
      Mark(buf, pos, length);
      converted := converted + 1;
      pos := (pos + 4 + naluLen) % TWO32;
    }
  }

  // The walk and the parser

  /** Where the parser stops after `at` bytes, the sum of the walk does not wrap. */
  predicate NoWrap(at: nat, s: Bytes) {
    var rest := Parse(s).rest;
    |rest| >= 4 ==> at + |s| - |rest| + 4 + LengthAt(rest, 0) < TWO32
  }

  lemma LengthBehind(done: Bytes, s: Bytes)
    requires |s| >= 4
    ensures LengthAt(done + s, |done|) == LengthAt(s, 0)
  {
    hide Value;
  }

  lemma StopsWithParser(done: Bytes, s: Bytes)
    requires |done + s| <= MAX_UNIT
    requires |s| >= 4 ==> |done| + 4 + LengthAt(s, 0) < TWO32
    ensures Stops(done + s, |done|) <==> !HasUnit(s)
    ensures HasUnit(s) ==> After(done + s, |done|) == |done| + 4 + LengthAt(s, 0)
  {
    hide LengthAt;
    if |s| >= 4 { LengthBehind(done, s); }
  }

  /** Before a wrap the walk and the parser go from unit to unit together. */
  lemma {:induction false} WalkIsParse(done: Bytes, s: Bytes, n: nat)
    requires |done + s| <= MAX_UNIT && NoWrap(|done|, s)
    ensures var p := Parse(s);
      |p.rest| <= |s|
      && Walk(done + s, |done|, n) == Walked(done + Stream(p.nals) + p.rest, |done| + |s| - |p.rest|, n + |p.nals|)
    decreases |s|
  {
    hide LengthAt, Parse, Walk, Marked, Stream, Stops, After;
    ParseStep(s);
    StopsWithParser(done, s);
    WalkStep(done + s, |done|, n);
    NothingStreamed();
    if HasUnit(s) {
      var len := LengthAt(s, 0);
      var nal, tail := s[4..4 + len], s[4 + len..];
      MarkedUnit(done, s, len);
      WalkIsParse(done + START_CODE + nal, tail, n + 1);
      StreamFirst(nal, Parse(tail).nals);
      assert done + START_CODE + nal + Stream(Parse(tail).nals) == done + Stream(Parse(s).nals);
    } else {
      assert done + [] + s == done + s;
    }
  }

  lemma WalkStep(s: Bytes, pos: nat, n: nat)
    requires pos <= |s| <= MAX_UNIT
    ensures Walk(s, pos, n) == if Stops(s, pos) then Walked(s, pos, n) else Walk(Marked(s, pos), After(s, pos), n + 1)
  {
  }

  lemma MarkedUnit(done: Bytes, s: Bytes, len: nat)
    requires 4 + len <= |s|
    ensures Marked(done + s, |done|) == done + START_CODE + s[4..4 + len] + s[4 + len..]
  {
  }

  // The whole preparation

  datatype Prepared = Submit(bytes: Bytes) | Drop

  /** The test for a start code already there. */
  predicate LooksStarted(s: Bytes) {
    |s| >= 4 && (s[..4] == START_CODE || s[..3] == START_CODE[1..])
  }

  /** What is handed to the decoder of an access unit of bytes `s` in a buffer of `capacity`. */
  function Prepare(s: Bytes, capacity: nat): Prepared
    requires |s| <= MAX_UNIT
  {
    if |s| <= 4 || LooksStarted(s) then Submit(s)
    else
      var w := Walk(s, 0, 0);
      if w.converted == 0 then Submit(if |s| + 4 <= capacity then START_CODE + s else s)
      else if w.pos != |s| then Drop
      else Submit(w.bytes)
  }

  /** The preparation in place; `length'` bytes of the buffer are to be submitted. */
  method PrepareInPlace(buf: array<Byte>, length: nat) returns (ok: bool, length': nat)
    requires length <= buf.Length && length <= MAX_UNIT
    modifies buf
    ensures length' <= buf.Length
    ensures if ok then Prepare(old(buf[..length]), buf.Length) == Submit(buf[..length'])
            else Prepare(old(buf[..length]), buf.Length) == Drop
  {
    hide Walk;
    ok, length' := true, length;
    if length > 4 {
      assert buf[..length][..4] == buf[..4] && buf[..length][..3] == buf[..3];
      var alreadyAnnexB := buf[..4] == START_CODE || buf[..3] == START_CODE[1..];
      if !alreadyAnnexB {
        ghost var s := buf[..length];
        var pos, converted := ConvertInPlace(buf, length);
        if converted == 0 {
          Unconverted(s);
          if length + 4 <= buf.Length {
            forall i | 0 <= i < length { buf[i + 4] := buf[i]; }
            assert buf[4..length + 4] == s;
            buf[0], buf[1], buf[2], buf[3] := 0, 0, 0, 1;
            length' := length + 4;
            assert buf[..length + 4] == START_CODE + s;
          }
        } else if pos != length {
          ok := false;
        }
      }
    }
  }

  lemma {:induction false} WalkCounts(s: Bytes, pos: nat, n: nat)
    requires pos <= |s| <= MAX_UNIT
    ensures Walk(s, pos, n).converted >= n
    ensures Walk(s, pos, n).converted == n ==> Walk(s, pos, n).bytes == s
    decreases Count255(s), |s| - pos
  {
    hide Count255, Marked, After;
    if !Stops(s, pos) {
      MarkedCount(s, pos);
      WalkCounts(Marked(s, pos), After(s, pos), n + 1);
    }
  }

  lemma {:induction false} Unconverted(s: Bytes)
    requires |s| <= MAX_UNIT && Walk(s, 0, 0).converted == 0
    ensures Walk(s, 0, 0).bytes == s
  {
    WalkCounts(s, 0, 0);
  }

  // What the preparation means

  /**
   What the parser makes of the bytes: units up to the end come out as a byte stream, bytes
   without any unit get one start code in front, and units followed by something else are not
   submitted.
   */
  function ByParse(s: Bytes): Prepared {
    var p := Parse(s);
    if p.rest == [] then Submit(Stream(p.nals)) else if p.nals == [] then Submit(START_CODE + s) else Drop
  }

  lemma ParsedIfNoWrap(s: Bytes, capacity: nat)
    requires 4 < |s| <= MAX_UNIT && |s| + 4 <= capacity && !LooksStarted(s) && NoWrap(0, s)
    ensures Prepare(s, capacity) == ByParse(s)
  {
    hide Parse, Stream, Walk, LooksStarted;
    WalkIsParse([], s, 0);
    assert [] + s == s;
    ParseStep(s);
    var p := Parse(s);
    assert [] + Stream(p.nals) + p.rest == Stream(p.nals) + p.rest;
    if p.rest == [] {
      assert Stream(p.nals) + [] == Stream(p.nals);
    }
  }

  /** A first length that wraps the sum does not stop the walk. */
  lemma WrapConverts(s: Bytes)
    requires 4 < |s| <= MAX_UNIT && 4 + LengthAt(s, 0) >= TWO32
    ensures Walk(s, 0, 0).converted >= 1
  {
    hide Value, Walk, Count255, Marked;
    assert !Stops(s, 0);
    WalkStep(s, 0, 0);
    WalkCounts(Marked(s, 0), After(s, 0), 1);
  }

  lemma WrapNotKept(s: Bytes, capacity: nat)
    requires 4 < |s| <= MAX_UNIT && !LooksStarted(s) && 4 + LengthAt(s, 0) >= TWO32
    ensures Prepare(s, capacity) != Submit(START_CODE + s)
  {
    hide LengthAt, Walk, LooksStarted;
    WrapConverts(s);
  }

  /**
   With room for one more start code the preparation follows the parser unless a sum wraps; for
   bytes that are all units or hold none, it follows it exactly when no sum wraps.
   */
  lemma PreparedByParse(s: Bytes, capacity: nat)
    requires 4 < |s| <= MAX_UNIT && |s| + 4 <= capacity && !LooksStarted(s)
    ensures NoWrap(0, s) ==> Prepare(s, capacity) == ByParse(s)
    ensures Parse(s).nals == [] || Parse(s).rest == [] ==> (Prepare(s, capacity) == ByParse(s) <==> NoWrap(0, s))
  {
    hide Parse, Prepare, LooksStarted, LengthAt, Stream;
    if NoWrap(0, s) {
      ParsedIfNoWrap(s, capacity);
    } else if Parse(s).nals == [] {
      NoUnitsNoStep(s);
      WrapNotKept(s, capacity);
    }
  }

  lemma NoUnitsNoStep(s: Bytes)
    ensures Parse(s).nals == [] ==> Parse(s).rest == s
  {
  }

  /** A partly valid access unit whose sums do not wrap is dropped. */
  lemma PartlyValidDropped(nals: seq<Bytes>, rest: Bytes, capacity: nat)
    requires nals != [] && rest != [] && Fits(nals) && !HasUnit(rest)
    requires var s := Prefixed(nals) + rest;
      4 < |s| <= MAX_UNIT && |s| + 4 <= capacity && !LooksStarted(s)
      && (|rest| >= 4 ==> |Prefixed(nals)| + 4 + LengthAt(rest, 0) < TWO32)
    ensures Prepare(Prefixed(nals) + rest, capacity) == Drop
  {
    hide Prepare, LooksStarted, Prefixed, LengthAt, Parse;
    ParsePrefixed(nals, rest);
    ParsedIfNoWrap(Prefixed(nals) + rest, capacity);
  }

  /** A wrapping length behind a valid unit can send the walk back to the end of that unit. */
  lemma PartlyValidSubmitted(capacity: nat)
    requires capacity >= 15
    ensures var s: Bytes := [0, 0, 0, 2, 9, 9, 255, 255, 255, 252, 7];
      Parse(s) == Parsed([[9, 9]], [255, 255, 255, 252, 7]) && !LooksStarted(s)
      && Prepare(s, capacity) == Submit([0, 0, 0, 1, 9, 9, 0, 0, 0, 1, 7])
  {
    var s: Bytes := [0, 0, 0, 2, 9, 9, 255, 255, 255, 252, 7];
    var m: Bytes := [0, 0, 0, 1, 9, 9, 255, 255, 255, 252, 7];
    var t: Bytes := [0, 0, 0, 1, 9, 9, 0, 0, 0, 1, 7];
    hide *;
    SecondParsed(s);
    FirstStep(s, m);
    SecondStep(m, t);
    LastSteps(t);
    PreparedFromWalk(s, t, capacity);
  }

  lemma PreparedFromWalk(s: Bytes, t: Bytes, capacity: nat)
    requires 4 < |s| == |t| <= MAX_UNIT && s[..4] == [0, 0, 0, 2] && Walk(s, 0, 0) == Walked(t, |s|, 3)
    ensures !LooksStarted(s) && Prepare(s, capacity) == Submit(t)
  {
    assert s[2] == s[..4][2] && s[3] == s[..4][3];
    assert s[..3][2] == s[2];
    hide Walk;
  }

  lemma FirstStep(s: Bytes, m: Bytes)
    requires s == [0, 0, 0, 2, 9, 9, 255, 255, 255, 252, 7] && m == [0, 0, 0, 1, 9, 9, 255, 255, 255, 252, 7]
    ensures |s| <= MAX_UNIT && |m| <= MAX_UNIT && Walk(s, 0, 0) == Walk(m, 6, 1)
    ensures s[..4] == [0, 0, 0, 2]
  {
    assert LengthAt(s, 0) == 2 && After(s, 0) == 6;
    WalkStep(s, 0, 0);
    hide Walk, Value;
    assert Marked(s, 0) == m;
  }

  lemma SecondStep(m: Bytes, t: Bytes)
    requires m == [0, 0, 0, 1, 9, 9, 255, 255, 255, 252, 7] && t == [0, 0, 0, 1, 9, 9, 0, 0, 0, 1, 7]
    ensures |m| <= MAX_UNIT && |t| <= MAX_UNIT && Walk(m, 6, 1) == Walk(t, 6, 2)
  {
    assert LengthAt(m, 6) == 0xffff_fffc && After(m, 6) == 6;
    WalkStep(m, 6, 1);
    hide Walk, Value;
    assert Marked(m, 6) == t;
  }

  lemma LastSteps(t: Bytes)
    requires t == [0, 0, 0, 1, 9, 9, 0, 0, 0, 1, 7]
    ensures |t| <= MAX_UNIT && Walk(t, 6, 2) == Walked(t, 11, 3)
  {
    assert LengthAt(t, 6) == 1 && After(t, 6) == 11;
    WalkStep(t, 6, 2);
    WalkStep(t, 11, 3);
    hide Walk, Value;
    assert Marked(t, 6) == t;
  }

  lemma SecondParsed(s: Bytes)
    requires s == [0, 0, 0, 2, 9, 9, 255, 255, 255, 252, 7]
    ensures Parse(s) == Parsed([[9, 9]], [255, 255, 255, 252, 7])
  {
    var rest := s[6..];
    assert LengthAt(s, 0) == 2 && LengthAt(rest, 0) == 0xffff_fffc;
    ParseStep(s);
    ParseStep(rest);
    hide Parse, Value;
    assert s[4..6] == [9, 9] && rest == [255, 255, 255, 252, 7];
    assert [[9, 9]] + [] == [[9, 9]];
  }

  /** Bytes with a bad first length stay as they are, behind one start code, exactly if it does not wrap the sum. */
  lemma NoUnitKept(s: Bytes, capacity: nat)
    requires 4 < |s| <= MAX_UNIT && |s| + 4 <= capacity && !LooksStarted(s) && !HasUnit(s)
    ensures Prepare(s, capacity) == Submit(START_CODE + s) <==> 4 + LengthAt(s, 0) < TWO32
  {
    hide Prepare, LooksStarted, LengthAt;
    PreparedByParse(s, capacity);
  }

  /** Without room for the start code such bytes are submitted as they are. */
  lemma NoRoomKept(s: Bytes, capacity: nat)
    requires 4 < |s| <= MAX_UNIT && capacity < |s| + 4 && !LooksStarted(s) && !HasUnit(s)
    requires 4 + LengthAt(s, 0) < TWO32
    ensures Prepare(s, capacity) == Submit(s)
  {
    hide LengthAt, LooksStarted;
    NoUnitKept(s, |s| + 4);
    assert |START_CODE + s| != |s|;
  }

  /** Bytes that already start with a start code, and at most four bytes of any kind, are submitted as they are. */
  lemma StartedKept(s: Bytes, capacity: nat)
    requires |s| <= 4 || (|s| <= 4194304 && s[0] == 0 && s[1] == 0 && (s[2] == 1 || (s[2] == 0 && s[3] == 1)))
    ensures |s| <= MAX_UNIT && Prepare(s, capacity) == Submit(s)
  {
    if |s| > 4 {
      assert s[..4] == [s[0], s[1], s[2], s[3]] && s[..3] == [s[0], s[1], s[2]];
      assert START_CODE[1..] == [0, 0, 1];
    }
    hide Walk;
  }

  /** A length of 1 or of 256 to 511 reads as a start code. */
  lemma LengthLooksStarted(nals: seq<Bytes>)
    requires nals != [] && Fits(nals)
    ensures LooksStarted(Prefixed(nals)) <==> |nals[0]| == 1 || 256 <= |nals[0]| < 512
  {
    var n, f := |nals[0]|, LengthField(|nals[0]|);
    assert Prefixed(nals) == f + (nals[0] + Prefixed(nals[1..]));
    assert Prefixed(nals)[..4] == f && Prefixed(nals)[..3] == f[..3];
    ValueOfDigits(n);
    hide LengthField;
    assert f[..3] == START_CODE[1..] <==> f[0] == 0 && f[1] == 0 && f[2] == 1;
    assert n == Value(f[0], f[1], f[2], f[3]);
  }

  /** The two forms are the same bytes exactly when every unit has length 1. */
  lemma {:induction false} FormsAgree(nals: seq<Bytes>)
    requires Fits(nals)
    ensures Prefixed(nals) == Stream(nals) <==> forall i | 0 <= i < |nals| :: |nals[i]| == 1
  {
    if nals != [] {
      var nal, rest := nals[0], nals[1..];
      FormsAgree(rest);
      SameLength(rest);
      var f := LengthField(|nal|);
      ValueOfDigits(|nal|);
      assert Prefixed(nals) == f + nal + Prefixed(rest) && Stream(nals) == START_CODE + nal + Stream(rest);
      hide LengthField, Prefixed, Stream;
      assert (f + nal + Prefixed(rest))[..4] == f && (START_CODE + nal + Stream(rest))[..4] == START_CODE;
      assert (f + nal + Prefixed(rest))[4 + |nal|..] == Prefixed(rest);
      assert (START_CODE + nal + Stream(rest))[4 + |nal|..] == Stream(rest);
      assert f == START_CODE <==> |nal| == 1;
      assert (forall i | 0 <= i < |nals| :: |nals[i]| == 1)
        <==> |nal| == 1 && forall i | 0 <= i < |rest| :: |rest[i]| == 1;
    }
  }

  /**
   Length-prefixed units are handed to the decoder as a byte stream exactly when the first
   length does not read as a start code, or all lengths are 1 and the two forms agree.
   */
  lemma UnitsConverted(nals: seq<Bytes>, capacity: nat)
    requires nals != [] && Fits(nals) && |Prefixed(nals)| + 4 <= capacity && |Prefixed(nals)| <= MAX_UNIT
    ensures Prepare(Prefixed(nals), capacity) == Submit(Stream(nals))
      <==> !(|nals[0]| == 1 || 256 <= |nals[0]| < 512) || forall i | 0 <= i < |nals| :: |nals[i]| == 1
    ensures |Stream(nals)| == |Prefixed(nals)|
  {
    hide LooksStarted, Prefixed, Stream, Walk, Parse;
    SameLength(nals);
    LengthLooksStarted(nals);
    FormsAgree(nals);
    MoreThanFour(nals);
    if !LooksStarted(Prefixed(nals)) {
      ParsePrefixed(nals, []);
      assert Prefixed(nals) + [] == Prefixed(nals);
      ParsedIfNoWrap(Prefixed(nals), capacity);
    }
  }

  /** There are such units: a first one of one byte before a longer one, and the two stay as they came. */
  lemma ShortUnitKept(a: Bytes, b: Bytes, capacity: nat)
    requires |a| == 1 < |b| <= MAX_UNIT - 9 && |b| + 13 <= capacity
    ensures Fits([a, b]) && |Prefixed([a, b])| == |b| + 9
    ensures Prepare(Prefixed([a, b]), capacity) == Submit(Prefixed([a, b])) && Prefixed([a, b]) != Stream([a, b])
  {
    var nals, none: seq<Bytes> := [a, b], [];
    assert nals[1..] == [b] && nals[1..][1..] == none;
    assert |Prefixed(nals[1..])| == 4 + |b| + |Prefixed(none)|;
    hide LooksStarted, Stream, LengthField, Walk;
    LengthLooksStarted(nals);
    UnitsConverted(nals, capacity);
    assert |nals[1]| != 1;
  }

  lemma MoreThanFour(nals: seq<Bytes>)
    requires nals != [] && Fits(nals)
    ensures |Prefixed(nals)| > 4
  {
    hide LengthField;
  }

  /** What the decoder splits off the converted stream are the units that arrived. */
  lemma DecoderSeesUnits(nals: seq<Bytes>, capacity: nat)
    requires nals != [] && Fits(nals) && |Prefixed(nals)| + 4 <= capacity && |Prefixed(nals)| <= MAX_UNIT
    requires |nals[0]| != 1 && !(256 <= |nals[0]| < 512)
    requires forall i | 0 <= i < |nals| :: Emulated(nals[i])
    ensures Prepare(Prefixed(nals), capacity).Submit? && Split(Prepare(Prefixed(nals), capacity).bytes) == nals
  {
    hide Prepare, Emulated, Split;
    UnitsConverted(nals, capacity);
    SplitStream(nals);
  }

  /** With a wrapping sum, five bytes without any unit are taken for two units. */
  lemma WrapMisleads(capacity: nat)
    requires capacity >= 9
    ensures var s: Bytes := [255, 255, 255, 252, 9];
      Parse(s) == Parsed([], s) && !LooksStarted(s) && Prepare(s, capacity) == Submit([0, 0, 0, 1, 9])
  {
    var s: Bytes := [255, 255, 255, 252, 9];
    var m: Bytes := [0, 0, 0, 1, 9];
    assert LengthAt(s, 0) == 0xffff_fffc && After(s, 0) == 0;
    assert LengthAt(m, 0) == 1 && After(m, 0) == 5;
    WalkStep(s, 0, 0);
    WalkStep(m, 0, 1);
    WalkStep(m, 5, 2);
    assert Marked(s, 0) == m && Marked(m, 0) == m;
    hide Walk, Value;
  }
}
