/** Searching in strings, as `strstr` does, and decimal numbers. */
module Strings {

  /** The position of the first occurrence of `pat`, or the length of `s` plus one. */
  function Find(s: string, pat: string): (i: nat)
    ensures i == |s| + 1 || i + |pat| <= |s|
  {
    if pat <= s then 0 else if s == [] then 1 else 1 + Find(s[1..], pat)
  }

  lemma {:induction false} FindIsFirst(s: string, pat: string)
    ensures Find(s, pat) <= |s| ==> pat <= s[Find(s, pat)..]
    ensures forall k | 0 <= k < Find(s, pat) && k <= |s| :: !(pat <= s[k..])
  {
    assert s[0..] == s;
    if !(pat <= s) && s != [] {
      FindIsFirst(s[1..], pat);
      assert forall k | 1 <= k <= |s| :: s[1..][k - 1..] == s[k..];
    }
  }

  predicate Occurs(s: string, pat: string) {
    Find(s, pat) <= |s|
  }

  /** A tag-like piece: it may begin with `<` but has no other. */
  predicate Piece(p: string) {
    forall k | 1 <= k < |p| :: p[k] != '<'
  }

  /** Whether the piece cannot be the beginning of an occurrence of `pat`. */
  predicate Differs(p: string, pat: string) {
    p == [] || exists j :: 0 <= j < |p| && j < |pat| && p[j] != pat[j]
  }

  /** A search for a tag passes over a piece that is not that tag. */
  lemma Passes(p: string, rest: string, pat: string)
    requires Piece(p) && Differs(p, pat) && pat != [] && pat[0] == '<'
    ensures Find(p + rest, pat) == |p| + Find(rest, pat)
  {
    var s := p + rest;
    forall k | 0 <= k < |p| ensures !(pat <= s[k..]) {
      if k == 0 {
        var j :| 0 <= j < |p| && j < |pat| && p[j] != pat[j];
        assert s[0..][j] == p[j];
      } else {
        assert s[k..][0] == p[k];
      }
    }
    assert s[|p|..] == rest;
    FindFrom(s, pat, |p|);
  }

  lemma {:induction false} FindFrom(s: string, pat: string, n: nat)
    requires n <= |s| && forall k | 0 <= k < n :: !(pat <= s[k..])
    ensures Find(s, pat) == n + Find(s[n..], pat)
  {
    if n > 0 {
      assert !(pat <= s[0..]) && s[0..] == s;
      forall k | 0 <= k < n - 1 ensures !(pat <= s[1..][k..]) { assert s[1..][k..] == s[k + 1..]; }
      FindFrom(s[1..], pat, n - 1);
      assert s[1..][n - 1..] == s[n..];
    } else {
      assert s[0..] == s;
    }
  }

  /** A search stops at the tag itself. */
  lemma StopsAt(pat: string, rest: string)
    ensures Find(pat + rest, pat) == 0
  {
  }

  function Cat(pieces: seq<string>): string {
    if pieces == [] then "" else pieces[0] + Cat(pieces[1..])
  }

  /** A search for a tag passes over any number of other pieces. */
  lemma {:induction false} PassesAll(pieces: seq<string>, rest: string, pat: string)
    requires pat != [] && pat[0] == '<'
    requires forall i | 0 <= i < |pieces| :: Piece(pieces[i]) && Differs(pieces[i], pat)
    ensures Find(Cat(pieces) + rest, pat) == |Cat(pieces)| + Find(rest, pat)
  {
    hide Piece, Differs, Find;
    if pieces == [] {
      assert Cat(pieces) + rest == rest;
    } else {
      PassesAll(pieces[1..], rest, pat);
      Passes(pieces[0], Cat(pieces[1..]) + rest, pat);
      assert Cat(pieces) + rest == pieces[0] + (Cat(pieces[1..]) + rest);
    }
  }

  lemma CatFirst(pieces: seq<string>)
    requires pieces != []
    ensures Cat(pieces) == pieces[0] + Cat(pieces[1..])
  {
  }

  lemma CatNone()
    ensures Cat([]) == ""
  {
  }

  lemma {:induction false} CatAppends(a: seq<string>, b: seq<string>)
    ensures Cat(a + b) == Cat(a) + Cat(b)
  {
    hide Cat;
    if a == [] {
      CatNone();
      assert a + b == b;
    } else {
      CatAppends(a[1..], b);
      CatFirst(a);
      CatFirst(a + b);
      assert (a + b)[1..] == a[1..] + b;
    }
  }

  /** The first piece that is the tag is where the search stops. */
  lemma FindsPiece(pieces: seq<string>, i: nat, pat: string)
    requires i < |pieces| && pieces[i] == pat && pat != [] && pat[0] == '<'
    requires forall k | 0 <= k < i :: Piece(pieces[k]) && Differs(pieces[k], pat)
    ensures var at := |Cat(pieces[..i])|;
      Find(Cat(pieces), pat) == at && at + |pat| <= |Cat(pieces)|
      && Cat(pieces)[at + |pat|..] == Cat(pieces[i + 1..])
  {
    hide Find, Piece, Differs, Cat;
    var rest := Cat(pieces[i + 1..]);
    assert pieces == pieces[..i] + pieces[i..];
    CatAppends(pieces[..i], pieces[i..]);
    CatFirst(pieces[i..]);
    assert pieces[i..][1..] == pieces[i + 1..];
    PassesAll(pieces[..i], pat + rest, pat);
    StopsAt(pat, rest);
  }

  lemma NoOverlap(text: string, rest: string, pat: string, k: nat)
    requires k < |text| && !(pat <= text[k..]) && Piece(pat) && rest != [] && rest[0] == '<'
    ensures !(pat <= (text + rest)[k..])
  {
    var s := (text + rest)[k..];
    if |pat| <= |text| - k {
      assert s[..|pat|] == text[k..][..|pat|];
    } else if |pat| <= |s| {
      assert s[|text| - k] == rest[0];
    }
  }

  /** A text without the tag stays without it when another tag follows. */
  lemma {:induction false} PassesText(text: string, rest: string, pat: string)
    requires !Occurs(text, pat) && Piece(pat) && rest != [] && rest[0] == '<'
    ensures Find(text + rest, pat) == |text| + Find(rest, pat)
  {
    var s := text + rest;
    FindIsFirst(text, pat);
    hide Find, Piece;
    forall k: nat | k < |text| ensures !(pat <= s[k..]) {
      assert !(pat <= text[k..]);
      NoOverlap(text, rest, pat, k);
    }
    assert s[|text|..] == rest;
    FindFrom(s, pat, |text|);
  }

  // Decimal numbers

  predicate IsDigit(c: char) {
    '0' <= c <= '9'
  }

  function DigitChar(d: nat): (c: char)
    requires d < 10
    ensures IsDigit(c)
  {
    d as char + '0'
  }

  function Decimal(n: nat): (s: string)
    ensures s != [] && forall k | 0 <= k < |s| :: IsDigit(s[k])
  {
    if n < 10 then [DigitChar(n)] else Decimal(n / 10) + [DigitChar(n % 10)]
  }

  function Signed(n: int): (s: string)
    ensures s != [] && forall k | 0 <= k < |s| :: IsDigit(s[k]) || (k == 0 && s[k] == '-')
  {
    if n < 0 then "-" + Decimal(-n) else Decimal(n)
  }

  function Leading(s: string): (n: nat)
    ensures n <= |s| && forall k | 0 <= k < n :: IsDigit(s[k])
  {
    if s == [] || !IsDigit(s[0]) then 0 else 1 + Leading(s[1..])
  }

  function Value(s: string): nat
    requires forall k | 0 <= k < |s| :: IsDigit(s[k])
  {
    if s == [] then 0
    else
      assert IsDigit(s[|s| - 1]);
      10 * Value(s[..|s| - 1]) + (s[|s| - 1] as int - '0' as int)
  }

  predicate IsSpace(c: char) {
    c == ' ' || c == '\t' || c == '\n' || c == '\r' || c == 11 as char || c == 12 as char
  }

  /** `atoi`, on an unbounded `int`: spaces, a sign, digits. */
  function Atoi(s: string): int {
    if s == [] then 0
    else if IsSpace(s[0]) then Atoi(s[1..])
    else if s[0] == '-' then 0 - Value(s[1..][..Leading(s[1..])])
    else if s[0] == '+' then Value(s[1..][..Leading(s[1..])])
    else Value(s[..Leading(s)])
  }

  lemma {:induction false} AllLeading(s: string)
    requires forall k | 0 <= k < |s| :: IsDigit(s[k])
    ensures Leading(s) == |s|
  {
    if s != [] { AllLeading(s[1..]); }
  }

  lemma {:induction false} ValueOfDecimal(n: nat)
    ensures Value(Decimal(n)) == n
  {
    if n >= 10 {
      ValueOfDecimal(n / 10);
      assert Decimal(n)[..|Decimal(n)| - 1] == Decimal(n / 10);
    }
  }

  /** Reading a number back from its decimal form. */
  lemma AtoiOfSigned(n: int)
    ensures Atoi(Signed(n)) == n
  {
    var m := if n < 0 then -n else n;
    var d := Decimal(m);
    ValueOfDecimal(m);
    AllLeading(d);
    assert d[..|d|] == d;
    if n < 0 {
      assert Signed(n)[1..] == d;
    } else {
      assert IsDigit(d[0]);
    }
    hide Decimal, Value, Leading;
  }

  lemma AtoiOfNumber(n: int, rest: string)
    requires rest == "" || !IsDigit(rest[0])
    ensures Atoi(Signed(n) + rest) == n
  {
    var d, s := Decimal(if n < 0 then -n else n), Signed(n) + rest;
    ValueOfDecimal(if n < 0 then -n else n);
    LeadingStops(d, rest);
    assert (d + rest)[..|d|] == d;
    if n < 0 {
      assert s[0] == '-' && s[1..] == d + rest;
    } else {
      assert s == d + rest && IsDigit(s[0]);
    }
    hide Decimal, Value, Leading;
  }

  /** White space in front and text that does not go on with a digit make no difference. */
  lemma {:induction false} AtoiIgnores(space: string, n: int, rest: string)
    requires forall k | 0 <= k < |space| :: space[k] in " \t\n\r"
    requires rest == "" || !('0' <= rest[0] <= '9')
    ensures Atoi(space + Signed(n) + rest) == n
  {
    if space == "" {
      assert space + Signed(n) + rest == Signed(n) + rest;
      AtoiOfNumber(n, rest);
    } else {
      AtoiIgnores(space[1..], n, rest);
      SpaceSkipped(space, Signed(n) + rest);
      hide *;
      assert space + Signed(n) + rest == space + (Signed(n) + rest);
      assert space[1..] + Signed(n) + rest == space[1..] + (Signed(n) + rest);
    }
  }

  lemma SpaceSkipped(space: string, rest: string)
    requires space != "" && space[0] in " \t\n\r"
    ensures Atoi(space + rest) == Atoi(space[1..] + rest)
  {
    assert (space + rest)[1..] == space[1..] + rest;
    hide Value, Leading;
  }

  lemma {:induction false} LeadingStops(d: string, rest: string)
    requires forall k | 0 <= k < |d| :: IsDigit(d[k])
    requires rest == "" || !IsDigit(rest[0])
    ensures Leading(d + rest) == |d|
  {
    if d == "" {
      assert d + rest == rest;
    } else {
      assert (d + rest)[1..] == d[1..] + rest;
      LeadingStops(d[1..], rest);
    }
  }

  /** A text that starts with a letter is zero. */
  lemma AtoiOfText(s: string)
    requires s != "" && ('a' <= s[0] <= 'z' || 'A' <= s[0] <= 'Z')
    ensures Atoi(s) == 0
  {
    assert Leading(s) == 0;
  }

  lemma DecimalDigits()
    ensures Signed(1908) == "1908" && Signed(-305) == "-305" && Signed(0) == "0"
  {
    assert Decimal(190) == "190" && Decimal(30) == "30";
  }
}
