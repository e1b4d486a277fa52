/**
 Access units as lists of NAL units: the length-prefixed form that arrives, the byte stream of
 Annex B of H.264 that the decoder wants, and the reading of each back into the list.
 */
module NalUnits {
  import opened Memory

  type Byte = n: nat | n < 256
  type Bytes = seq<Byte>

  const START_CODE: Bytes := [0, 0, 0, 1]

  /** The four-byte big-endian length field at `pos`. */
  function LengthAt(s: Bytes, pos: nat): (n: nat)
    requires pos + 4 <= |s|
    ensures n < TWO32
  {
    Value(s[pos], s[pos + 1], s[pos + 2], s[pos + 3])
  }

  function Value(a: Byte, b: Byte, c: Byte, d: Byte): (n: nat)
    ensures n < TWO32
    ensures a < 255 ==> n < 0xff00_0000
  {
    var x: int, y: int, z: int := a, b, c;
    ((x * 256 + y) * 256 + z) * 256 + d
  }

  function LengthField(n: nat): (f: Bytes)
    requires n < TWO32
    ensures |f| == 4
  {
    TopDigit(n);
    [n / 256 / 256 / 256, n / 256 / 256 % 256, n / 256 % 256, n % 256]
  }

  lemma TopDigit(n: nat)
    requires n < TWO32
    ensures n / 256 / 256 / 256 < 256
  {
  }

  lemma ValueOfDigits(n: nat)
    requires n < TWO32
    ensures LengthAt(LengthField(n), 0) == n
  {
    TopDigit(n);
    var p, q := n / 256, n / 256 / 256;
    assert n == p * 256 + n % 256 && p == q * 256 + p % 256 && q == q / 256 * 256 + q % 256;
  }

  lemma DigitsOfValue(a: Byte, b: Byte, c: Byte, d: Byte)
    ensures LengthField(Value(a, b, c, d)) == [a, b, c, d]
  {
    var n, x: int, y: int, z: int := Value(a, b, c, d), a, b, c;
    assert n == ((x * 256 + y) * 256 + z) * 256 + d;
    assert n / 256 == (x * 256 + y) * 256 + z;
    assert n / 256 / 256 == x * 256 + y;
    hide Value;
  }

  lemma FieldOfLength(n: nat, s: Bytes)
    requires n < TWO32
    ensures LengthAt(LengthField(n) + s, 0) == n
  {
    ValueOfDigits(n);
    hide LengthField, Value;
  }

  lemma LengthOfField(f: Bytes, n: nat)
    requires |f| == 4 && n == LengthAt(f, 0)
    ensures LengthField(n) == f
  {
    DigitsOfValue(f[0], f[1], f[2], f[3]);
    hide LengthField, Value;
  }

  ghost predicate Fits(nals: seq<Bytes>) {
    forall i | 0 <= i < |nals| :: 0 < |nals[i]| < TWO32
  }

  /** The length-prefixed form. */
  function Prefixed(nals: seq<Bytes>): Bytes
    requires Fits(nals)
  {
    if nals == [] then [] else LengthField(|nals[0]|) + nals[0] + Prefixed(nals[1..])
  }

  /** The byte stream form. */
  function Stream(nals: seq<Bytes>): Bytes {
    if nals == [] then [] else START_CODE + nals[0] + Stream(nals[1..])
  }

  lemma {:induction false} SameLength(nals: seq<Bytes>)
    requires Fits(nals)
    ensures |Stream(nals)| == |Prefixed(nals)|
  {
    if nals != [] { SameLength(nals[1..]); }
  }

  // Reading the length-prefixed form

  datatype Parsed = Parsed(nals: seq<Bytes>, rest: Bytes)

  /** Whether `s` starts with a length field and that many bytes, at least one. */
  predicate HasUnit(s: Bytes) {
    |s| >= 4 && 0 < LengthAt(s, 0) <= |s| - 4
  }

  /** The NAL units up to the first bad length field, and the bytes from there on. */
  function Parse(s: Bytes): (p: Parsed)
    ensures Fits(p.nals) && !HasUnit(p.rest)
  {
    if !HasUnit(s) then Parsed([], s)
    else
      var n := LengthAt(s, 0);
      var p := Parse(s[4 + n..]);
      Parsed([s[4..4 + n]] + p.nals, p.rest)
  }

  lemma ParseFirst(nal: Bytes, s: Bytes)
    requires 0 < |nal| < TWO32
    ensures Parse(LengthField(|nal|) + nal + s) == Parsed([nal] + Parse(s).nals, Parse(s).rest)
  {
    var whole := LengthField(|nal|) + nal + s;
    assert whole == LengthField(|nal|) + (nal + s);
    FieldOfLength(|nal|, nal + s);
    hide LengthAt, LengthField;
    assert whole[4..4 + |nal|] == nal && whole[4 + |nal|..] == s;
  }

  /** Prefixing and parsing are inverse, also in front of bytes that are no unit. */
  lemma {:induction false} ParsePrefixed(nals: seq<Bytes>, rest: Bytes)
    requires Fits(nals) && !HasUnit(rest)
    ensures Parse(Prefixed(nals) + rest) == Parsed(nals, rest)
  {
    hide Parse, LengthField, HasUnit;
    if nals == [] {
      ParseStep(rest);
      assert Prefixed(nals) + rest == rest;
    } else {
      ParsePrefixed(nals[1..], rest);
      ParseFirst(nals[0], Prefixed(nals[1..]) + rest);
      Regrouped(LengthField(|nals[0]|), nals[0], Prefixed(nals[1..]), rest);
      hide Prefixed;
      assert [nals[0]] + nals[1..] == nals;
    }
  }

  lemma Regrouped(a: Bytes, b: Bytes, c: Bytes, d: Bytes)
    ensures a + b + c + d == a + b + (c + d)
  {
  }

  lemma PrefixedFirst(nal: Bytes, nals: seq<Bytes>)
    requires Fits(nals) && 0 < |nal| < TWO32
    ensures Fits([nal] + nals) && Prefixed([nal] + nals) == LengthField(|nal|) + nal + Prefixed(nals)
  {
    hide LengthField;
    assert ([nal] + nals)[1..] == nals;
  }

  lemma ParseStep(s: Bytes)
    ensures !HasUnit(s) ==> Parse(s) == Parsed([], s)
    ensures HasUnit(s) ==>
      var n := LengthAt(s, 0); var p := Parse(s[4 + n..]);
      0 < n < TWO32 && Parse(s) == Parsed([s[4..4 + n]] + p.nals, p.rest)
  {
    hide LengthAt;
  }

  lemma {:induction false} PrefixedParse(s: Bytes)
    ensures Prefixed(Parse(s).nals) + Parse(s).rest == s
    decreases |s|
  {
    hide Parse, Prefixed, Value, LengthField, Fits;
    ParseStep(s);
    if HasUnit(s) {
      var n := LengthAt(s, 0);
      var nal, tail := s[4..4 + n], s[4 + n..];
      PrefixedParse(tail);
      LengthOfField(s[..4], n);
      PrefixedFirst(nal, Parse(tail).nals);
      assert s == s[..4] + nal + tail;
    } else {
      assert Prefixed([]) + s == s by { NothingPrefixed(); }
    }
  }

  lemma NothingPrefixed()
    ensures Prefixed([]) == []
  {
  }

  // Reading the byte stream, section B.1

  /** Three bytes that end a NAL unit: two zeros and a byte of at most one. */
  predicate EndsUnit(s: Bytes, k: nat) {
    k + 3 <= |s| && s[k] == 0 && s[k + 1] == 0 && s[k + 2] <= 1
  }

  function UnitEnd(s: Bytes, k: nat): (e: nat)
    requires k <= |s|
    ensures k <= e <= |s|
    decreases |s| - k
  {
    if k == |s| || EndsUnit(s, k) then k else UnitEnd(s, k + 1)
  }

  predicate StartsUnit(s: Bytes, k: nat) {
    k + 3 <= |s| && s[k] == 0 && s[k + 1] == 0 && s[k + 2] == 1
  }

  /** The position after the next start code, or past the end. */
  function UnitStart(s: Bytes, k: nat): (e: nat)
    requires k <= |s|
    ensures e > |s| || k + 3 <= e
    decreases |s| - k
  {
    if k == |s| then |s| + 1 else if StartsUnit(s, k) then k + 3 else UnitStart(s, k + 1)
  }

  /** The NAL units of a byte stream. */
  function Split(s: Bytes): seq<Bytes>
    decreases |s|
  {
    var at := UnitStart(s, 0);
    if at > |s| then [] else [s[at..UnitEnd(s, at)]] + Split(s[UnitEnd(s, at)..])
  }

  /** What section 7.4.1 demands of a NAL unit: no start code within, and no zero byte last. */
  ghost predicate Emulated(nal: Bytes) {
    && nal != [] && nal[|nal| - 1] != 0
    && forall k | 0 <= k < |nal| :: !EndsUnit(nal, k)
  }

  /** No start code begins in the unit even when another unit follows. */
  lemma NoEndInside(nal: Bytes, tail: Bytes, k: nat)
    requires Emulated(nal) && k < |nal|
    ensures !EndsUnit(nal + tail, k)
  {
    assert !EndsUnit(nal, k);
  }

  lemma {:induction false} EndFound(nal: Bytes, tail: Bytes, k: nat)
    requires Emulated(nal) && k <= |nal| && (tail == [] || EndsUnit(tail, 0))
    ensures UnitEnd(nal + tail, k) == |nal|
    decreases |nal| - k
  {
    var s := nal + tail;
    if k < |nal| {
      NoEndInside(nal, tail, k);
      EndFound(nal, tail, k + 1);
    } else {
      assert tail != [] ==> EndsUnit(s, k) == EndsUnit(tail, 0);
    }
  }

  lemma {:induction false} EndShifts(s: Bytes, k: nat, d: nat)
    requires d + k <= |s|
    ensures UnitEnd(s, d + k) == d + UnitEnd(s[d..], k)
    decreases |s| - k
  {
    assert EndsUnit(s, d + k) == EndsUnit(s[d..], k);
    if d + k < |s| && !EndsUnit(s, d + k) { EndShifts(s, k + 1, d); }
  }

  /** Splitting the byte stream gives the units back. */
  lemma {:induction false} SplitStream(nals: seq<Bytes>)
    requires forall i | 0 <= i < |nals| :: Emulated(nals[i])
    ensures Split(Stream(nals)) == nals
  {
    hide *;
    if nals != [] {
      var nal, rest := nals[0], nals[1..];
      forall i | 0 <= i < |rest| ensures Emulated(rest[i]) { assert rest[i] == nals[i + 1]; }
      SplitStream(rest);
      TailStarts(rest);
      SplitFirst(nal, Stream(rest));
      StreamFirst(nal, rest);
      assert [nal] + rest == nals;
      assert START_CODE + nal + Stream(rest) == START_CODE + (nal + Stream(rest));
    } else {
      NothingSplit();
    }
  }

  lemma NothingStreamed()
    ensures Stream([]) == []
  {
  }

  lemma NothingSplit()
    ensures Split(Stream([])) == []
  {
    assert UnitStart([], 0) == 1;
  }

  lemma StreamFirst(nal: Bytes, nals: seq<Bytes>)
    ensures Stream([nal] + nals) == START_CODE + nal + Stream(nals)
  {
    assert ([nal] + nals)[1..] == nals;
  }

  lemma TailStarts(nals: seq<Bytes>)
    ensures Stream(nals) == [] || EndsUnit(Stream(nals), 0)
  {
  }

  lemma SplitFirst(nal: Bytes, tail: Bytes)
    requires Emulated(nal) && (tail == [] || EndsUnit(tail, 0))
    ensures Split(START_CODE + (nal + tail)) == [nal] + Split(tail)
  {
    hide Emulated;
    var s := START_CODE + (nal + tail);
    FirstStart(nal + tail);
    assert s[4..] == nal + tail;
    EndFound(nal, tail, 0);
    EndShifts(s, 0, 4);
    hide UnitEnd, UnitStart, EndsUnit;
    assert s[4..4 + |nal|] == nal && s[4 + |nal|..] == tail;
  }

  lemma FirstStart(s: Bytes)
    ensures UnitStart(START_CODE + s, 0) == 4
  {
    assert !StartsUnit(START_CODE + s, 0) && StartsUnit(START_CODE + s, 1);
  }
}
