/**
 The saved settings: the host address and its setter, the file that is written and the reader,
 which also understands the keys of older versions. Files are strings.
 */
module Settings {
  import opened Strings
  import opened Wrappers

  const MAX_TEXT := 63
  const MAX_LINE := 127
  const BITRATES := 5

  type Octets = s: seq<int> | |s| == 4 witness [0, 0, 0, 0]

  datatype Scaling = Shader | Legacy

  datatype Config = Config(
    host: string, octets: Octets, fps: int, bitrateIdx: int, mouseMode: int, vsync: bool,
    stats: bool, verbose: bool, res16x9: int, res4x3: int, scaling: Scaling)

  // The host address

  /** `sscanf` of one `%d`, on an unbounded `int`, and what follows it. */
  function ScanInt(s: string): (r: Option<(int, string)>)
    ensures r.Some? ==> |r.value.1| < |s|
  {
    if s == [] then None
    else if IsSpace(s[0]) then ScanInt(s[1..])
    else
      var signed := s[0] == '-' || s[0] == '+';
      var t := if signed then s[1..] else s;
      var n := Leading(t);
      if n == 0 then None
      else Some((if s[0] == '-' then 0 - Strings.Value(t[..n]) else Strings.Value(t[..n]), t[n..]))
  }

  /** `n` numbers with a dot after each but the last. */
  function ScanDotted(s: string, n: nat): (r: Option<seq<int>>)
    requires n > 0
    ensures r.Some? ==> |r.value| == n
    decreases n
  {
    match ScanInt(s)
    case None => None
    case Some((x, rest)) =>
      if n == 1 then Some([x])
      else if rest == [] || rest[0] != '.' then None
      else
        match ScanDotted(rest[1..], n - 1)
        case None => None
        case Some(xs) => Some([x] + xs)
  }

  function Quad(s: string): (r: Option<Octets>) {
    ScanDotted(s, 4)
  }

  function Dotted(o: Octets): string {
    Signed(o[0]) + "." + Signed(o[1]) + "." + Signed(o[2]) + "." + Signed(o[3])
  }

  predicate IsOctet(x: int) {
    0 <= x <= 255
  }

  predicate InRange(o: Octets) {
    IsOctet(o[0]) && IsOctet(o[1]) && IsOctet(o[2]) && IsOctet(o[3])
  }

  /** Only numbers in range replace the octets. */
  function Patched(o: Octets, x: Octets): Octets {
    seq(4, i requires 0 <= i < 4 => if IsOctet(x[i]) then x[i] else o[i])
  }

  function Cut(s: string): string {
    if |s| <= MAX_TEXT then s else s[..MAX_TEXT]
  }

  function WithHost(c: Config, s: string): Config {
    if s == [] then c
    else
      match Quad(s)
      case Some(x) => var o := Patched(c.octets, x); c.(octets := o, host := Dotted(o))
      case None => c.(host := Cut(s))
  }

  /** A host that the setter would store as it is. */
  predicate Stable(host: string) {
    && 0 < |host| <= MAX_TEXT
    && (Quad(host).Some? ==> InRange(Quad(host).value) && host == Dotted(Quad(host).value))
  }

  /** Digits up to something else, and the same after a minus sign. */
  lemma ScanDigits(d: string, rest: string)
    requires d != "" && (forall k | 0 <= k < |d| :: IsDigit(d[k])) && (rest == "" || !IsDigit(rest[0]))
    ensures ScanInt(d + rest) == Some((Strings.Value(d), rest))
  {
    LeadingStops(d, rest);
    assert (d + rest)[..|d|] == d && (d + rest)[|d|..] == rest && IsDigit((d + rest)[0]);
    hide Leading, Strings.Value;
  }

  lemma ScanMinus(d: string, rest: string)
    requires d != "" && (forall k | 0 <= k < |d| :: IsDigit(d[k])) && (rest == "" || !IsDigit(rest[0]))
    ensures var v: int := Strings.Value(d); ScanInt("-" + (d + rest)) == Some((0 - v, rest))
  {
    LeadingStops(d, rest);
    var t := d + rest;
    var s := "-" + t;
    assert s[1..] == t && t[..|d|] == d && t[|d|..] == rest;
    hide Leading, Strings.Value;
  }

  lemma ScanOctet(n: int, rest: string)
    requires rest == [] || !IsDigit(rest[0])
    ensures ScanInt(Signed(n) + rest) == Some((n, rest))
  {
    hide Decimal, Strings.Value, ScanInt;
    if n < 0 {
      var d := Decimal(-n);
      ValueOfDecimal(-n);
      ScanMinus(d, rest);
      assert Signed(n) + rest == "-" + (d + rest);
    } else {
      ValueOfDecimal(n);
      ScanDigits(Decimal(n), rest);
    }
  }

  /** The dotted form reads back as its octets. */
  lemma QuadOfNumbers(o: Octets)
    ensures Quad(Dotted(o)) == Some(o)
  {
    hide ScanInt, Signed;
    var t3 := Signed(o[3]) + "";
    var t2 := Signed(o[2]) + ("." + t3);
    var t1 := Signed(o[1]) + ("." + t2);
    assert Dotted(o) == Signed(o[0]) + ("." + t1);
    ScanOctet(o[0], "." + t1);
    ScanOctet(o[1], "." + t2);
    ScanOctet(o[2], "." + t3);
    ScanOctet(o[3], "");
    assert ("." + t1)[1..] == t1 && ("." + t2)[1..] == t2 && ("." + t3)[1..] == t3;
    DottedStep(t3, 1); DottedStep(t2, 2); DottedStep(t1, 3); DottedStep(Dotted(o), 4);
    hide ScanDotted, Dotted;
    assert [o[2]] + [o[3]] == [o[2], o[3]] && [o[1]] + [o[2], o[3]] == [o[1], o[2], o[3]];
    assert [o[0]] + [o[1], o[2], o[3]] == o;
  }

  lemma QuadOfDotted(o: Octets)
    requires InRange(o)
    ensures Quad(Dotted(o)) == Some(o)
  {
    hide Quad, Dotted;
    QuadOfNumbers(o);
  }

  lemma DottedStep(s: string, n: nat)
    requires n > 0
    ensures ScanDotted(s, n) ==
      if ScanInt(s).None? then None
      else if n == 1 then Some([ScanInt(s).value.0])
      else
        var rest := ScanInt(s).value.1;
        if rest == [] || rest[0] != '.' || ScanDotted(rest[1..], n - 1).None? then None
        else Some([ScanInt(s).value.0] + ScanDotted(rest[1..], n - 1).value)
  {
    hide ScanInt;
  }

  lemma {:induction false} DecimalShort(n: nat)
    requires n <= 255
    ensures |Decimal(n)| <= 3
  {
    if n >= 10 {
      assert Decimal(n) == Decimal(n / 10) + [DigitChar(n % 10)];
      if n / 10 >= 10 { assert Decimal(n / 10) == Decimal(n / 10 / 10) + [DigitChar(n / 10 % 10)]; }
    }
  }

  lemma DottedShort(o: Octets)
    requires InRange(o)
    ensures 0 < |Dotted(o)| <= 15
  {
    DecimalShort(o[0]); DecimalShort(o[1]); DecimalShort(o[2]); DecimalShort(o[3]);
    hide Decimal;
  }

  lemma {:induction false} LeadingGrows(s: string, more: string)
    ensures Leading(s + more) >= Leading(s)
    ensures Leading(s) < |s| ==> Leading(s + more) == Leading(s)
  {
    if s != [] {
      LeadingGrows(s[1..], more);
      assert (s + more)[1..] == s[1..] + more;
    }
  }

  /** More characters do not stop a number from being read. */
  lemma {:induction false} ScanGrows(s: string, more: string)
    requires ScanInt(s).Some?
    ensures ScanInt(s + more).Some?
    ensures ScanInt(s).value.1 != [] ==> ScanInt(s + more).value == (ScanInt(s).value.0, ScanInt(s).value.1 + more)
  {
    hide Leading, Strings.Value;
    assert (s + more)[1..] == s[1..] + more;
    if IsSpace(s[0]) {
      ScanGrows(s[1..], more);
    } else {
      var t := if s[0] == '-' || s[0] == '+' then s[1..] else s;
      LeadingGrows(t, more);
      var n := Leading(t);
      if n < |t| {
        assert (t + more)[..n] == t[..n] && (t + more)[n..] == t[n..] + more;
      }
    }
  }

  lemma {:induction false} DottedGrows(s: string, more: string, n: nat)
    requires n > 0 && ScanDotted(s, n).Some?
    ensures ScanDotted(s + more, n).Some?
    decreases n
  {
    hide ScanInt;
    ScanGrows(s, more);
    if n > 1 {
      var rest := ScanInt(s).value.1;
      DottedGrows(rest[1..], more, n - 1);
      assert (rest + more)[1..] == rest[1..] + more;
    }
  }

  /** Cutting does not make four numbers out of a text that was none. */
  lemma CutNoQuad(s: string)
    ensures Quad(s).None? ==> Quad(Cut(s)).None?
  {
    hide ScanDotted;
    var p := Cut(s);
    assert p + s[|p|..] == s;
    if Quad(p).Some? { DottedGrows(p, s[|p|..], 4); }
  }

  /** The setter stores only hosts that it would store again as they are. */
  lemma SetterStable(c: Config, s: string)
    requires InRange(c.octets) && Stable(c.host)
    ensures var c' := WithHost(c, s); InRange(c'.octets) && Stable(c'.host)
  {
    hide ScanDotted, Dotted;
    if s != [] {
      match Quad(s)
      case Some(x) =>
        var o := Patched(c.octets, x);
        QuadOfDotted(o);
        DottedShort(o);
      case None => CutNoQuad(s);
    }
  }

  /** A stable host is stored as it is, whatever was there before. */
  lemma StableStored(c: Config, host: string)
    requires Stable(host)
    ensures WithHost(c, host).host == host
    ensures WithHost(c, host) == c.(host := host, octets := if Quad(host).Some? then Quad(host).value else c.octets)
  {
    hide ScanDotted, Dotted;
    if Quad(host).Some? {
      var x := Quad(host).value;
      assert Patched(c.octets, x) == x;
    }
  }

  /** Storing what is stored changes nothing. */
  lemma SetterIdempotent(c: Config, s: string)
    requires InRange(c.octets) && Stable(c.host) && s != []
    ensures var c' := WithHost(c, s); WithHost(c', c'.host) == c'
  {
    hide ScanDotted, Dotted;
    var c' := WithHost(c, s);
    SetterStable(c, s);
    StableStored(c', c'.host);
    if Quad(s).Some? { QuadOfDotted(Patched(c.octets, Quad(s).value)); }
    CutNoQuad(s);
  }

  // The file

  datatype Key =
    HostIp | Fps | BitrateIdx | MouseMode | Vsync | Stats | Verbose | Res16x9 | Res4x3
    | ScalingMode | OldScaling | OldUpscaler | Unknown

  function KeyOf(name: string): Key {
    if name == "host_ip" || name == "ip" then HostIp
    else if name == "fps" then Fps
    else if name == "bitrate_idx" then BitrateIdx
    else if name == "mouse_mode" then MouseMode
    else if name == "vsync" then Vsync
    else if name == "stats" then Stats
    else if name == "verbose" then Verbose
    else if name == "res_16_9" then Res16x9
    else if name == "res_4_3" then Res4x3
    else if name == "scaling_mode" then ScalingMode
    else if name == "scaling" then OldScaling
    else if name == "upscaler" then OldUpscaler
    else Unknown
  }

  /** The reader on its way: the settings so far and what it has seen about scaling. */
  datatype Reading = Reading(config: Config, explicit: bool, oldScaling: int, oldUpscaler: int)

  datatype Entry = Entry(key: Key, value: string)

  function Applied(r: Reading, e: Entry): Reading {
    var c, v := r.config, Atoi(e.value);
    match e.key
    case HostIp => r.(config := WithHost(c, e.value))
    case Fps => if v == 30 || v == 60 then r.(config := c.(fps := v)) else r
    case BitrateIdx => if 0 <= v < BITRATES then r.(config := c.(bitrateIdx := v)) else r
    case MouseMode => if v == 0 || v == 1 then r.(config := c.(mouseMode := v)) else r
    case Vsync => r.(config := c.(vsync := v != 0))
    case Stats => r.(config := c.(stats := v != 0))
    case Verbose => r.(config := c.(verbose := v != 0))
    case Res16x9 => r.(config := c.(res16x9 := if v == 1 then 1 else 0))
    case Res4x3 => r.(config := c.(res4x3 := if v == 1 then 1 else 0))
    case ScalingMode => r.(config := c.(scaling := if v != 0 then Legacy else Shader), explicit := true)
    case OldScaling => r.(oldScaling := v)
    case OldUpscaler => r.(oldUpscaler := v)
    case Unknown => r
  }

  /** The fallback to the keys of older versions, for a file without a scaling mode. */
  function Finished(r: Reading): Config {
    if r.explicit then r.config
    else if r.oldScaling >= 0 then r.config.(scaling := if r.oldScaling == 3 then Legacy else Shader)
    else if r.oldUpscaler >= 0 then r.config.(scaling := if r.oldUpscaler != 0 then Shader else Legacy)
    else r.config
  }

  function AppliedAll(r: Reading, es: seq<Entry>): Reading {
    if es == [] then r else Applied(AppliedAll(r, es[..|es| - 1]), es[|es| - 1])
  }

  predicate IsBlank(c: char) {
    c == ' ' || c == '\t'
  }

  predicate IsTrailing(c: char) {
    IsBlank(c) || c == '\r' || c == '\n'
  }

  predicate NotNewline(c: char) {
    c != '\n'
  }

  predicate NotEquals(c: char) {
    c != '='
  }

  predicate NotSpace(c: char) {
    !IsSpace(c)
  }

  function TrimLeft(s: string): string {
    if s != [] && IsBlank(s[0]) then TrimLeft(s[1..]) else s
  }

  function TrimRight(s: string, strip: char -> bool): string {
    if s != [] && strip(s[|s| - 1]) then TrimRight(s[..|s| - 1], strip) else s
  }

  /** The length of the longest prefix, at most `limit`, of characters that are `ok`. */
  function Span(s: string, ok: char -> bool, limit: nat): (n: nat)
    ensures n <= |s| && n <= limit
  {
    if s == [] || limit == 0 || !ok(s[0]) then 0 else 1 + Span(s[1..], ok, limit - 1)
  }

  function SkipSpaces(s: string): string {
    if s != [] && IsSpace(s[0]) then SkipSpaces(s[1..]) else s
  }

  /** A key and a value as the reader's pattern takes them apart. */
  function ScanPair(q: string): Option<Entry> {
    var n := Span(q, NotEquals, MAX_TEXT);
    if n == 0 || n == |q| || q[n] != '=' then None
    else
      var rest := SkipSpaces(q[n + 1..]);
      var m := Span(rest, NotSpace, MAX_TEXT);
      if m == 0 then None else Some(Entry(KeyOf(TrimRight(q[..n], IsBlank)), rest[..m]))
  }

  function ScanLine(line: string): Option<Entry> {
    var p := TrimLeft(line);
    if p == [] || p[0] == '#' || p[0] == ';' || p[0] == '\r' || p[0] == '\n' then None
    else ScanPair(TrimRight(p, IsTrailing))
  }

  /** How much of the file one `fgets` takes. */
  function LineLength(s: string): (n: nat)
    requires s != []
    ensures 0 < n <= |s|
  {
    var k := Span(s, NotNewline, MAX_LINE);
    if k == MAX_LINE || k == |s| then k else k + 1
  }

  function Entries(s: string): seq<Entry> {
    if s == [] then []
    else
      var n := LineLength(s);
      var e := ScanLine(s[..n]);
      (if e.Some? then [e.value] else []) + Entries(s[n..])
  }

  function Loaded(c: Config, file: string): Config {
    Finished(AppliedAll(Reading(c, false, -1, -1), Entries(file)))
  }

  function Flag(b: bool): int {
    if b then 1 else 0
  }

  function Line(key: string, value: string): string {
    key + "=" + value + "\n"
  }

  const HEADER := "# PS3-Moonlight Configuration File\n"

  /** The lines after the host's. */
  function Numbers(c: Config): string {
    Line("fps", Signed(c.fps)) + (Line("bitrate_idx", Signed(c.bitrateIdx))
    + (Line("mouse_mode", Signed(c.mouseMode)) + (Line("vsync", Signed(Flag(c.vsync)))
    + (Line("stats", Signed(Flag(c.stats))) + (Line("verbose", Signed(Flag(c.verbose)))
    + (Line("res_16_9", Signed(c.res16x9)) + (Line("res_4_3", Signed(c.res4x3))
    + (Line("scaling_mode", Signed(if c.scaling.Legacy? then 1 else 0)) + ""))))))))
  }

  function Saved(c: Config): string {
    HEADER + (Line("host_ip", c.host) + Numbers(c))
  }

  // Scaling

  /** The value of the last entry with a key, or -1. */
  function LastValue(es: seq<Entry>, key: Key): int {
    if es == [] then -1
    else if es[|es| - 1].key == key then Atoi(es[|es| - 1].value)
    else LastValue(es[..|es| - 1], key)
  }

  predicate Has(es: seq<Entry>, key: Key) {
    exists i :: 0 <= i < |es| && es[i].key == key
  }

  lemma {:induction false} SeenScaling(c: Config, es: seq<Entry>)
    ensures var r := AppliedAll(Reading(c, false, -1, -1), es);
      && r.explicit == Has(es, ScalingMode)
      && r.oldScaling == LastValue(es, OldScaling) && r.oldUpscaler == LastValue(es, OldUpscaler)
      && r.config.scaling ==
           if Has(es, ScalingMode) then (if LastValue(es, ScalingMode) != 0 then Legacy else Shader) else c.scaling
  {
    hide WithHost, Atoi;
    if es != [] {
      var before, last := es[..|es| - 1], es[|es| - 1];
      SeenScaling(c, before);
      HostOnly(AppliedAll(Reading(c, false, -1, -1), before).config, last.value);
      HasOneMore(es, ScalingMode);
    }
  }

  lemma HasOneMore(es: seq<Entry>, key: Key)
    requires es != []
    ensures Has(es, key) <==> es[|es| - 1].key == key || Has(es[..|es| - 1], key)
  {
    var before := es[..|es| - 1];
    if Has(before, key) {
      var i :| 0 <= i < |before| && before[i].key == key;
      assert es[i].key == key;
    }
    if Has(es, key) && es[|es| - 1].key != key {
      var i :| 0 <= i < |es| && es[i].key == key;
      assert before[i].key == key;
    }
  }

  lemma HostOnly(c: Config, s: string)
    ensures WithHost(c, s) == c.(host := WithHost(c, s).host, octets := WithHost(c, s).octets)
  {
    hide Quad, Patched, Dotted, Cut;
  }

  /**
   In whatever order the lines stand, the last scaling mode decides; without one the last
   value of the older key, then of the oldest.
   */
  lemma ScalingDecided(c: Config, file: string)
    ensures var es := Entries(file);
      Loaded(c, file).scaling ==
        if Has(es, ScalingMode) then (if LastValue(es, ScalingMode) != 0 then Legacy else Shader)
        else if LastValue(es, OldScaling) >= 0 then (if LastValue(es, OldScaling) == 3 then Legacy else Shader)
        else if LastValue(es, OldUpscaler) >= 0 then (if LastValue(es, OldUpscaler) != 0 then Shader else Legacy)
        else c.scaling
  {
    SeenScaling(c, Entries(file));
    hide AppliedAll, Entries, LastValue, Has;
  }

  // What is saved is restored

  predicate NoSpace(s: string) {
    forall k | 0 <= k < |s| :: !IsSpace(s[k])
  }

  predicate HostFine(c: Config) {
    Stable(c.host) && InRange(c.octets)
  }

  predicate NumbersFine(c: Config) {
    && (c.fps == 30 || c.fps == 60) && 0 <= c.bitrateIdx < BITRATES && (c.mouseMode == 0 || c.mouseMode == 1)
    && (c.res16x9 == 0 || c.res16x9 == 1) && (c.res4x3 == 0 || c.res4x3 == 1)
  }

  predicate WellFormed(c: Config) {
    HostFine(c) && NumbersFine(c)
  }

  lemma AppliedHostFine(r: Reading, e: Entry)
    requires HostFine(r.config)
    ensures HostFine(Applied(r, e).config)
  {
    hide WithHost, Stable, Atoi, InRange;
    SetterStable(r.config, e.value);
  }

  lemma AppliedNumbersFine(r: Reading, e: Entry)
    requires NumbersFine(r.config)
    ensures NumbersFine(Applied(r, e).config)
  {
    hide WithHost, Atoi, NumbersFine;
    HostOnly(r.config, e.value);
    NumbersKept(r.config, Applied(r, e).config);
  }

  lemma NumbersKept(c: Config, c': Config)
    requires NumbersFine(c)
    requires c'.fps == c.fps || c'.fps == 30 || c'.fps == 60
    requires c'.bitrateIdx == c.bitrateIdx || 0 <= c'.bitrateIdx < BITRATES
    requires c'.mouseMode == c.mouseMode || c'.mouseMode == 0 || c'.mouseMode == 1
    requires c'.res16x9 == c.res16x9 || c'.res16x9 == 0 || c'.res16x9 == 1
    requires c'.res4x3 == c.res4x3 || c'.res4x3 == 0 || c'.res4x3 == 1
    ensures NumbersFine(c')
  {
  }

  lemma AppliedWellFormed(r: Reading, e: Entry)
    requires WellFormed(r.config)
    ensures WellFormed(Applied(r, e).config)
  {
    hide HostFine, NumbersFine, Applied;
    AppliedHostFine(r, e);
    AppliedNumbersFine(r, e);
  }

  lemma {:induction false} AllWellFormed(r: Reading, es: seq<Entry>)
    requires WellFormed(r.config)
    ensures WellFormed(AppliedAll(r, es).config)
  {
    hide WellFormed, Applied;
    if es != [] {
      AllWellFormed(r, es[..|es| - 1]);
      AppliedWellFormed(AppliedAll(r, es[..|es| - 1]), es[|es| - 1]);
    }
  }

  lemma OnlyScaling(c: Config, c': Config)
    requires WellFormed(c) && c' == c.(scaling := c'.scaling)
    ensures WellFormed(c')
  {
    hide Stable, InRange;
  }

  /** No file can bring the settings out of their ranges. */
  lemma LoadedWellFormed(c: Config, file: string)
    requires WellFormed(c)
    ensures WellFormed(Loaded(c, file))
  {
    hide AppliedAll, Entries, WellFormed;
    var r := AppliedAll(Reading(c, false, -1, -1), Entries(file));
    AllWellFormed(Reading(c, false, -1, -1), Entries(file));
    OnlyScaling(r.config, Finished(r));
  }

  lemma {:induction false} SpanStops(a: string, b: string, ok: char -> bool, limit: nat)
    requires |a| <= limit && (forall k | 0 <= k < |a| :: ok(a[k])) && (b == [] || !ok(b[0]) || |a| == limit)
    ensures Span(a + b, ok, limit) == |a|
  {
    if a == [] {
      assert a + b == b;
    } else {
      SpanStops(a[1..], b, ok, limit - 1);
      assert (a + b)[1..] == a[1..] + b;
    }
  }

  /** A key as the program writes it. */
  predicate KeyText(key: string) {
    && 0 < |key| <= 12 && key[0] != '#' && key[0] != ';'
    && forall k | 0 <= k < |key| :: key[k] != '=' && !IsTrailing(key[k])
  }

  predicate ValueText(value: string) {
    0 < |value| <= MAX_TEXT && NoSpace(value)
  }

  lemma PairScanned(key: string, value: string)
    requires KeyText(key) && ValueText(value)
    ensures ScanPair(key + "=" + value) == Some(Entry(KeyOf(key), value))
  {
    hide KeyOf, Span, TrimRight;
    var q := key + ("=" + value);
    assert key + "=" + value == q;
    SpanStops(key, "=" + value, NotEquals, MAX_TEXT);
    assert q[|key| + 1..] == value && q[..|key|] == key;
    NoSpaceSkipped(value);
    SpanStops(value, "", NotSpace, MAX_TEXT);
    assert value + "" == value && value[..|value|] == value;
    NothingTrimmed(key, IsBlank);
  }

  lemma NoSpaceSkipped(s: string)
    requires s == [] || !IsSpace(s[0])
    ensures SkipSpaces(s) == s
  {
  }

  lemma NothingTrimmed(s: string, strip: char -> bool)
    requires s == [] || !strip(s[|s| - 1])
    ensures TrimRight(s, strip) == s
  {
  }

  lemma NewlineTrimmed(s: string)
    requires s != [] && !IsTrailing(s[|s| - 1])
    ensures TrimRight(s + "\n", IsTrailing) == s
  {
    assert (s + "\n")[..|s|] == s;
    NothingTrimmed(s, IsTrailing);
  }

  lemma LineScanned(key: string, value: string)
    requires KeyText(key) && ValueText(value)
    ensures ScanLine(Line(key, value)) == Some(Entry(KeyOf(key), value))
  {
    var q := key + "=" + value;
    var line := q + "\n";
    assert line[0] == key[0] && TrimLeft(line) == line;
    assert q[|q| - 1] == value[|value| - 1];
    NewlineTrimmed(q);
    PairScanned(key, value);
    hide ScanPair, TrimRight, KeyOf;
  }

  lemma LineTaken(text: string, rest: string)
    requires |text| < MAX_LINE && forall k | 0 <= k < |text| :: text[k] != '\n'
    ensures LineLength(text + "\n" + rest) == |text| + 1
  {
    SpanStops(text, "\n" + rest, NotNewline, MAX_LINE);
    assert text + "\n" + rest == text + ("\n" + rest);
  }

  lemma LineEntries(key: string, value: string, rest: string)
    requires KeyText(key) && ValueText(value)
    ensures Entries(Line(key, value) + rest) == [Entry(KeyOf(key), value)] + Entries(rest)
  {
    hide ScanLine, KeyOf, LineLength;
    var text := key + "=" + value;
    forall k | 0 <= k < |text| ensures text[k] != '\n' {
      assert text[k] == if k < |key| then key[k] else if k == |key| then '=' else value[k - |key| - 1];
    }
    LineTaken(text, rest);
    LineScanned(key, value);
    var s := Line(key, value) + rest;
    assert s[..|text| + 1] == Line(key, value) && s[|text| + 1..] == rest;
  }

  lemma HeaderEntries(rest: string)
    ensures Entries(HEADER + rest) == Entries(rest)
  {
    var text := "# PS3-Moonlight Configuration File";
    assert HEADER == text + "\n";
    LineTaken(text, rest);
    assert TrimLeft(HEADER) == HEADER && HEADER[0] == '#';
    assert ScanLine(HEADER) == None;
    hide ScanLine, LineLength;
    var s := HEADER + rest;
    assert s[..|text| + 1] == HEADER && s[|text| + 1..] == rest;
  }

  lemma {:induction false} AppliedFirst(r: Reading, e: Entry, es: seq<Entry>)
    ensures AppliedAll(r, [e] + es) == AppliedAll(Applied(r, e), es)
  {
    hide Applied;
    if es == [] {
      assert [e] + es == [e] && [e][..0] == [];
    } else {
      AppliedFirst(r, e, es[..|es| - 1]);
      assert ([e] + es)[..|es|] == [e] + es[..|es| - 1];
    }
  }

  function ReadFrom(r: Reading, s: string): Reading {
    AppliedAll(r, Entries(s))
  }

  /** One written line brings one entry. */
  lemma LineRead(r: Reading, key: string, value: string, rest: string)
    requires KeyText(key) && ValueText(value)
    ensures ReadFrom(r, Line(key, value) + rest) == ReadFrom(Applied(r, Entry(KeyOf(key), value)), rest)
  {
    hide Applied, Entries, AppliedAll, KeyOf;
    LineEntries(key, value, rest);
    AppliedFirst(r, Entry(KeyOf(key), value), Entries(rest));
  }

  lemma NumberText(n: int)
    requires -99 <= n <= 99
    ensures ValueText(Signed(n)) && Atoi(Signed(n)) == n
  {
    AtoiOfSigned(n);
    var d := Signed(n);
    assert forall k | 0 <= k < |d| :: IsDigit(d[k]) || d[k] == '-';
    DecimalShort(if n < 0 then -n else n);
    hide Decimal, Atoi;
  }

  lemma KeyNames()
    ensures KeyText("host_ip") && KeyText("fps") && KeyText("bitrate_idx") && KeyText("mouse_mode") && KeyText("vsync")
    ensures KeyText("stats") && KeyText("verbose") && KeyText("res_16_9") && KeyText("res_4_3")
    ensures KeyText("scaling_mode")
  {
  }

  lemma KeysOfNames()
    ensures KeyOf("host_ip") == HostIp && KeyOf("fps") == Fps && KeyOf("bitrate_idx") == BitrateIdx
    ensures KeyOf("mouse_mode") == MouseMode && KeyOf("vsync") == Vsync && KeyOf("stats") == Stats
    ensures KeyOf("verbose") == Verbose && KeyOf("res_16_9") == Res16x9 && KeyOf("res_4_3") == Res4x3
    ensures KeyOf("scaling_mode") == ScalingMode
  {
  }

  lemma NumberRead(r: Reading, key: string, n: int, rest: string)
    requires KeyText(key) && -99 <= n <= 99
    ensures Atoi(Signed(n)) == n
    ensures ReadFrom(r, Line(key, Signed(n)) + rest) == ReadFrom(Applied(r, Entry(KeyOf(key), Signed(n))), rest)
  {
    hide *;
    NumberText(n);
    LineRead(r, key, Signed(n), rest);
  }

  lemma NothingRead(r: Reading)
    ensures ReadFrom(r, "") == r
  {
  }

  /** The lines after the host's, read back. */
  lemma NumbersRead(r: Reading, c: Config)
    requires WellFormed(c)
    ensures ReadFrom(r, Numbers(c))
         == r.(explicit := true, config := c.(host := r.config.host, octets := r.config.octets))
  {
    hide KeyOf, KeyText, Signed, Atoi, ReadFrom, Line, WithHost, Stable;
    KeyNames();
    KeysOfNames();
    var t9 := Line("scaling_mode", Signed(if c.scaling.Legacy? then 1 else 0)) + "";
    var t8 := Line("res_4_3", Signed(c.res4x3)) + t9;
    var t7 := Line("res_16_9", Signed(c.res16x9)) + t8;
    var t6 := Line("verbose", Signed(Flag(c.verbose))) + t7;
    var t5 := Line("stats", Signed(Flag(c.stats))) + t6;
    var t4 := Line("vsync", Signed(Flag(c.vsync))) + t5;
    var t3 := Line("mouse_mode", Signed(c.mouseMode)) + t4;
    var t2 := Line("bitrate_idx", Signed(c.bitrateIdx)) + t3;
    assert Numbers(c) == Line("fps", Signed(c.fps)) + t2;
    NumberRead(r, "fps", c.fps, t2);
    var r1 := r.(config := r.config.(fps := c.fps));
    NumberRead(r1, "bitrate_idx", c.bitrateIdx, t3);
    var r2 := r1.(config := r1.config.(bitrateIdx := c.bitrateIdx));
    NumberRead(r2, "mouse_mode", c.mouseMode, t4);
    var r3 := r2.(config := r2.config.(mouseMode := c.mouseMode));
    NumberRead(r3, "vsync", Flag(c.vsync), t5);
    var r4 := r3.(config := r3.config.(vsync := c.vsync));
    NumberRead(r4, "stats", Flag(c.stats), t6);
    var r5 := r4.(config := r4.config.(stats := c.stats));
    NumberRead(r5, "verbose", Flag(c.verbose), t7);
    var r6 := r5.(config := r5.config.(verbose := c.verbose));
    NumberRead(r6, "res_16_9", c.res16x9, t8);
    var r7 := r6.(config := r6.config.(res16x9 := c.res16x9));
    NumberRead(r7, "res_4_3", c.res4x3, t9);
    var r8 := r7.(config := r7.config.(res4x3 := c.res4x3));
    NumberRead(r8, "scaling_mode", if c.scaling.Legacy? then 1 else 0, "");
    NothingRead(r8.(config := r8.config.(scaling := c.scaling), explicit := true));
  }

  /** Whatever the settings were, loading what was saved restores every saved setting. */
  lemma SavedRestored(prior: Config, c: Config)
    requires WellFormed(c) && NoSpace(c.host)
    ensures Loaded(prior, Saved(c)) ==
      c.(octets := if Quad(c.host).Some? then Quad(c.host).value else prior.octets)
  {
    hide KeyOf, KeyText, ReadFrom, Numbers, WithHost, Quad;
    var r := Reading(prior, false, -1, -1);
    KeyNames();
    KeysOfNames();
    SavedReading(r, c);
    LineRead(r, "host_ip", c.host, Numbers(c));
    StableStored(prior, c.host);
    NumbersRead(r.(config := WithHost(prior, c.host)), c);
  }

  lemma SavedReading(r: Reading, c: Config)
    ensures ReadFrom(r, Saved(c)) == ReadFrom(r, Line("host_ip", c.host) + Numbers(c))
    ensures Loaded(r.config, Saved(c)) == Finished(ReadFrom(Reading(r.config, false, -1, -1), Saved(c)))
  {
    hide Entries, AppliedAll, Numbers, Line;
    HeaderEntries(Line("host_ip", c.host) + Numbers(c));
  }

  // Lines as people write them

  /** Blanks, and at the end of a line carriage returns too. */
  predicate Blanks(s: string) {
    forall k | 0 <= k < |s| :: s[k] == ' ' || s[k] == '\t'
  }

  predicate Trailing(s: string) {
    forall k | 0 <= k < |s| :: s[k] == ' ' || s[k] == '\t' || s[k] == '\r'
  }

  lemma {:induction false} TrimsLeft(b: string, s: string)
    requires Blanks(b) && (s == "" || !IsBlank(s[0]))
    ensures TrimLeft(b + s) == s
  {
    if b == "" {
      assert b + s == s;
    } else {
      assert (b + s)[1..] == b[1..] + s;
      TrimsLeft(b[1..], s);
    }
  }

  lemma {:induction false} TrimsRight(s: string, b: string, strip: char -> bool)
    requires (forall k | 0 <= k < |b| :: strip(b[k])) && (s == "" || !strip(s[|s| - 1]))
    ensures TrimRight(s + b, strip) == s
  {
    if b == "" {
      assert s + b == s;
      NothingTrimmed(s, strip);
    } else {
      assert (s + b)[..|s + b| - 1] == s + b[..|b| - 1];
      TrimsRight(s, b[..|b| - 1], strip);
    }
  }

  lemma {:induction false} SkipsBlanks(b: string, s: string)
    requires Blanks(b) && (s == "" || !IsSpace(s[0]))
    ensures SkipSpaces(b + s) == s
  {
    if b == "" {
      assert b + s == s;
      NoSpaceSkipped(s);
    } else {
      assert (b + s)[1..] == b[1..] + s;
      SkipsBlanks(b[1..], s);
    }
  }

  lemma SpacedPair(key: string, b1: string, b2: string, value: string)
    requires KeyText(key) && ValueText(value) && Blanks(b1) && Blanks(b2) && |key| + |b1| <= 63
    ensures ScanPair(key + b1 + "=" + b2 + value) == Some(Entry(KeyOf(key), value))
  {
    hide KeyOf, Span, TrimRight, SkipSpaces;
    var q := (key + b1) + ("=" + (b2 + value));
    assert key + b1 + "=" + b2 + value == q;
    SpanStops(key + b1, "=" + (b2 + value), NotEquals, MAX_TEXT);
    var n := |key + b1|;
    assert q[..n] == key + b1 && q[n + 1..] == b2 + value;
    SkipsBlanks(b2, value);
    SpanStops(value, "", NotSpace, MAX_TEXT);
    assert value + "" == value && value[..|value|] == value;
    TrimsRight(key, b1, IsBlank);
  }

  lemma SpacedScanned(b0: string, key: string, b1: string, b2: string, value: string, b3: string)
    requires KeyText(key) && ValueText(value) && Blanks(b0) && Blanks(b1) && Blanks(b2) && Trailing(b3)
    requires |key| + |b1| <= 63
    ensures ScanLine(b0 + (key + b1 + "=" + b2 + value) + (b3 + "\n")) == Some(Entry(KeyOf(key), value))
  {
    var q := key + b1 + "=" + b2 + value;
    var line := q + (b3 + "\n");
    assert q[0] == key[0] == line[0] && b0 + q + (b3 + "\n") == b0 + line;
    assert q[|q| - 1] == value[|value| - 1];
    TrimsLeft(b0, line);
    TrimsRight(q, b3 + "\n", IsTrailing);
    SpacedPair(key, b1, b2, value);
    hide ScanPair, TrimRight, TrimLeft, KeyOf;
  }

  /** Blanks around the key and the value make no difference, nor does a carriage return. */
  lemma SpacedLine(b0: string, key: string, b1: string, b2: string, value: string, b3: string, rest: string)
    requires KeyText(key) && ValueText(value) && Blanks(b0) && Blanks(b1) && Blanks(b2) && Trailing(b3)
    requires |key| + |b1| <= 63 && |b0| + |key| + |b1| + |b2| + |value| + |b3| < 126
    ensures Entries(b0 + key + b1 + "=" + b2 + value + b3 + "\n" + rest) == [Entry(KeyOf(key), value)] + Entries(rest)
  {
    hide ScanLine, KeyOf, LineLength, KeyText, ValueText;
    var q := key + b1 + "=" + b2 + value;
    var text := b0 + q + b3;
    var s := b0 + key + b1 + "=" + b2 + value + b3 + "\n" + rest;
    NoNewline(key, value);
    assert s == text + "\n" + rest && b0 + q + (b3 + "\n") == text + "\n";
    LineTaken(text, rest);
    SpacedScanned(b0, key, b1, b2, value, b3);
    assert s[..|text| + 1] == text + "\n" && s[|text| + 1..] == rest;
  }

  lemma NoNewline(key: string, value: string)
    requires KeyText(key) && ValueText(value)
    ensures (forall k | 0 <= k < |key| :: key[k] != '\n') && forall k | 0 <= k < |value| :: value[k] != '\n'
  {
  }

  /** A comment, a blank line and a line without `=` bring nothing. */
  lemma SkippedLine(b0: string, text: string, rest: string)
    requires Blanks(b0) && |b0| + |text| < 126 && forall k | 0 <= k < |text| :: text[k] != '\n'
    requires text == "" || text[0] == '#' || text[0] == ';' || (!IsBlank(text[0]) && '=' !in text)
    ensures Entries(b0 + text + "\n" + rest) == Entries(rest)
  {
    hide LineLength, ScanPair, TrimRight;
    var line := b0 + text + "\n";
    LineTaken(b0 + text, rest);
    assert b0 + text + "\n" == b0 + (text + "\n");
    TrimsLeft(b0, text + "\n");
    if '=' !in text { NoPair(text + "\n"); }
    hide ScanLine;
    var s := line + rest;
    assert s[..|b0 + text| + 1] == line && s[|b0 + text| + 1..] == rest;
  }

  lemma NoPair(p: string)
    requires '=' !in p
    ensures ScanPair(TrimRight(p, IsTrailing)).None?
  {
    TrimmedPart(p, IsTrailing);
    var q := TrimRight(p, IsTrailing);
    assert '=' !in q;
    hide TrimRight, SkipSpaces, KeyOf;
  }

  lemma {:induction false} TrimmedPart(s: string, strip: char -> bool)
    ensures TrimRight(s, strip) <= s
  {
    if s != "" && strip(s[|s| - 1]) { TrimmedPart(s[..|s| - 1], strip); }
  }

  /** Of a value only the first 63 characters count. */
  lemma LongValue(key: string, value: string)
    requires KeyText(key) && |value| > 63 && NoSpace(value)
    ensures ScanPair(key + "=" + value) == Some(Entry(KeyOf(key), value[..63]))
  {
    hide KeyOf, Span, TrimRight;
    var q := key + ("=" + value);
    assert key + "=" + value == q;
    SpanStops(key, "=" + value, NotEquals, MAX_TEXT);
    assert q[|key| + 1..] == value && q[..|key|] == key;
    NoSpaceSkipped(value);
    SpanStops(value[..63], value[63..], NotSpace, MAX_TEXT);
    assert value[..63] + value[63..] == value;
    NothingTrimmed(key, IsBlank);
  }

  /** A line of more than 127 characters is read in parts. */
  lemma LongLine(s: string)
    requires |s| >= 127 && forall k | 0 <= k < 127 :: s[k] != '\n'
    ensures LineLength(s) == 127
  {
    SpanStops(s[..127], s[127..], NotNewline, MAX_LINE);
    assert s[..127] + s[127..] == s;
  }

  lemma OlderKeys()
    ensures KeyText("ip") && KeyText("scaling") && KeyText("upscaler") && KeyText("ip_address")
    ensures KeyOf("ip") == HostIp && KeyOf("scaling") == OldScaling && KeyOf("upscaler") == OldUpscaler
    ensures KeyOf("ip_address") == Unknown
  {
  }

  /** A file of one line is what its entry makes of the settings. */
  lemma OneLine(c: Config, key: string, value: string)
    requires KeyText(key) && ValueText(value)
    ensures Loaded(c, key + "=" + value + "\n")
         == Finished(Applied(Reading(c, false, -1, -1), Entry(KeyOf(key), value)))
  {
    hide Applied, Entries, AppliedAll, KeyOf, Finished;
    var r := Reading(c, false, -1, -1);
    LineRead(r, key, value, "");
    assert Line(key, value) + "" == key + "=" + value + "\n";
    NothingRead(Applied(r, Entry(KeyOf(key), value)));
  }

  /** What each key does with a number: a file of one line. */
  lemma EveryKey(c: Config, n: int)
    requires -99 <= n <= 99
    ensures var v := "=" + Signed(n) + "\n";
      && Loaded(c, "fps" + v) == c.(fps := if n == 30 || n == 60 then n else c.fps)
      && Loaded(c, "bitrate_idx" + v) == c.(bitrateIdx := if 0 <= n < 5 then n else c.bitrateIdx)
      && Loaded(c, "mouse_mode" + v) == c.(mouseMode := if n == 0 || n == 1 then n else c.mouseMode)
      && Loaded(c, "vsync" + v) == c.(vsync := n != 0)
      && Loaded(c, "stats" + v) == c.(stats := n != 0)
      && Loaded(c, "verbose" + v) == c.(verbose := n != 0)
    ensures var v := "=" + Signed(n) + "\n";
      && Loaded(c, "res_16_9" + v) == c.(res16x9 := if n == 1 then 1 else 0)
      && Loaded(c, "res_4_3" + v) == c.(res4x3 := if n == 1 then 1 else 0)
      && Loaded(c, "scaling_mode" + v) == c.(scaling := if n != 0 then Legacy else Shader)
      && Loaded(c, "scaling" + v) == c.(scaling := if n == 3 then Legacy else if n >= 0 then Shader else c.scaling)
      && Loaded(c, "upscaler" + v) == c.(scaling := if n == 0 then Legacy else if n > 0 then Shader else c.scaling)
      && Loaded(c, "ip_address" + v) == c
  {
    hide KeyOf, KeyText, ValueText, Atoi, Signed, Loaded, WithHost;
    KeyNames();
    KeysOfNames();
    OlderKeys();
    NumberText(n);
    OneNumber(c, "fps", n); OneNumber(c, "bitrate_idx", n); OneNumber(c, "mouse_mode", n);
    OneNumber(c, "vsync", n); OneNumber(c, "stats", n); OneNumber(c, "verbose", n);
    OneNumber(c, "res_16_9", n); OneNumber(c, "res_4_3", n); OneNumber(c, "scaling_mode", n);
    OneNumber(c, "scaling", n); OneNumber(c, "upscaler", n); OneNumber(c, "ip_address", n);
  }

  lemma OneNumber(c: Config, key: string, n: int)
    requires KeyText(key) && ValueText(Signed(n))
    ensures Loaded(c, key + ("=" + Signed(n) + "\n"))
         == Finished(Applied(Reading(c, false, -1, -1), Entry(KeyOf(key), Signed(n))))
  {
    hide *;
    OneLine(c, key, Signed(n));
    assert key + ("=" + Signed(n) + "\n") == key + "=" + Signed(n) + "\n";
  }

  /** Both names of the host. */
  lemma HostKeys(c: Config, s: string)
    requires 0 < |s| <= 63 && forall k | 0 <= k < |s| :: !IsSpace(s[k])
    ensures Loaded(c, "host_ip=" + s + "\n") == Loaded(c, "ip=" + s + "\n") == WithHost(c, s)
  {
    hide KeyOf, KeyText, Atoi, Loaded, WithHost;
    KeyNames();
    KeysOfNames();
    OlderKeys();
    OneLine(c, "host_ip", s);
    OneLine(c, "ip", s);
    assert "host_ip" + "=" + s + "\n" == "host_ip=" + s + "\n" && "ip" + "=" + s + "\n" == "ip=" + s + "\n";
  }

  /** Four numbers with dots: those in range replace the octets, and the host is written from them. */
  lemma QuadStored(c: Config, n0: int, n1: int, n2: int, n3: int)
    ensures var o := [if 0 <= n0 <= 255 then n0 else c.octets[0], if 0 <= n1 <= 255 then n1 else c.octets[1],
                      if 0 <= n2 <= 255 then n2 else c.octets[2], if 0 <= n3 <= 255 then n3 else c.octets[3]];
      WithHost(c, Signed(n0) + "." + Signed(n1) + "." + Signed(n2) + "." + Signed(n3))
        == c.(octets := o, host := Signed(o[0]) + "." + Signed(o[1]) + "." + Signed(o[2]) + "." + Signed(o[3]))
  {
    hide Signed, Quad;
    QuadOfNumbers([n0, n1, n2, n3]);
  }

  /** White space in front makes no difference, nor does a plus sign. */
  lemma QuadLoose(s: string, digits: string)
    requires s != "" && digits != "" && IsDigit(digits[0])
    ensures Quad(" " + s) == Quad(s) && Quad("\t" + s) == Quad(s) && Quad("+" + digits) == Quad(digits)
  {
    assert (" " + s)[1..] == s && ("\t" + s)[1..] == s && ("+" + digits)[1..] == digits;
    assert ScanInt(" " + s) == ScanInt(s) && ScanInt("\t" + s) == ScanInt(s);
    assert ScanInt("+" + digits) == ScanInt(digits);
    DottedStep(" " + s, 4); DottedStep("\t" + s, 4); DottedStep(s, 4);
    DottedStep("+" + digits, 4); DottedStep(digits, 4);
    hide ScanInt, ScanDotted;
  }

  /** Anything else is stored as text, the first 63 characters of it. */
  lemma TextStored(c: Config, s: string)
    requires s != "" && ('a' <= s[0] <= 'z' || 'A' <= s[0] <= 'Z')
    ensures WithHost(c, s) == c.(host := if |s| <= 63 then s else s[..63])
    ensures WithHost(c, "") == c
  {
    NotDotted(s);
    hide Quad;
  }

  lemma LineText(key: string, start: string, value: string)
    requires key + "=" == start
    ensures Line(key, value) == start + value + "\n"
  {
  }

  lemma FlagText(b: bool)
    ensures Signed(Flag(b)) == if b then "1" else "0"
  {
  }

  /** The text that is written. */
  lemma SavedText(c: Config)
    ensures Saved(c) == "# PS3-Moonlight Configuration File\n"
      + (("host_ip=" + c.host + "\n")
      + (("fps=" + Signed(c.fps) + "\n")
      + (("bitrate_idx=" + Signed(c.bitrateIdx) + "\n")
      + (("mouse_mode=" + Signed(c.mouseMode) + "\n")
      + (("vsync=" + (if c.vsync then "1" else "0") + "\n")
      + (("stats=" + (if c.stats then "1" else "0") + "\n")
      + (("verbose=" + (if c.verbose then "1" else "0") + "\n")
      + (("res_16_9=" + Signed(c.res16x9) + "\n")
      + (("res_4_3=" + Signed(c.res4x3) + "\n")
      + (("scaling_mode=" + (if c.scaling.Legacy? then "1" else "0") + "\n") + ""))))))))))
  {
    FlagText(c.vsync); FlagText(c.stats); FlagText(c.verbose); FlagText(c.scaling.Legacy?);
    hide Signed, Line;
    LineText("host_ip", "host_ip=", c.host);
    LineText("fps", "fps=", Signed(c.fps));
    LineText("bitrate_idx", "bitrate_idx=", Signed(c.bitrateIdx));
    LineText("mouse_mode", "mouse_mode=", Signed(c.mouseMode));
    LineText("vsync", "vsync=", if c.vsync then "1" else "0");
    LineText("stats", "stats=", if c.stats then "1" else "0");
    LineText("verbose", "verbose=", if c.verbose then "1" else "0");
    LineText("res_16_9", "res_16_9=", Signed(c.res16x9));
    LineText("res_4_3", "res_4_3=", Signed(c.res4x3));
    LineText("scaling_mode", "scaling_mode=", if c.scaling.Legacy? then "1" else "0");
  }

  // A host with spaces does not survive

  lemma DottedNoSpace(o: Octets)
    ensures NoSpace(Dotted(o))
  {
    forall i | 0 <= i < 4 ensures NoSpace(Signed(o[i])) { SignedNoSpace(o[i]); }
    hide Signed;
  }

  lemma SignedNoSpace(n: int)
    ensures NoSpace(Signed(n))
  {
    var d := Signed(n);
    assert forall k | 0 <= k < |d| :: IsDigit(d[k]) || d[k] == '-';
    hide Signed;
  }

  lemma {:induction false} SpanOk(s: string, ok: char -> bool, limit: nat)
    ensures forall k | 0 <= k < Span(s, ok, limit) :: ok(s[k])
  {
    if s != [] && limit > 0 && ok(s[0]) { SpanOk(s[1..], ok, limit - 1); }
  }

  lemma PairNoSpace(q: string)
    ensures ScanPair(q).Some? ==> NoSpace(ScanPair(q).value.value)
  {
    var n := Span(q, NotEquals, MAX_TEXT);
    if n < |q| {
      SpanOk(SkipSpaces(q[n + 1..]), NotSpace, MAX_TEXT);
    }
    hide SkipSpaces, Span, KeyOf, TrimRight;
  }

  lemma {:induction false} EntriesNoSpace(s: string)
    ensures forall i | 0 <= i < |Entries(s)| :: NoSpace(Entries(s)[i].value)
    decreases |s|
  {
    hide LineLength, ScanPair, NoSpace;
    if s != [] {
      var line := s[..LineLength(s)];
      PairNoSpace(TrimRight(TrimLeft(line), IsTrailing));
      EntriesNoSpace(s[LineLength(s)..]);
    }
  }

  lemma AppliedHost(r: Reading, e: Entry)
    requires NoSpace(e.value)
    ensures Applied(r, e).config.host == r.config.host || NoSpace(Applied(r, e).config.host)
  {
    hide Quad, Dotted, Atoi;
    if e.key.HostIp? && e.value != [] && Quad(e.value).Some? {
      DottedNoSpace(Patched(r.config.octets, Quad(e.value).value));
    }
  }

  lemma {:induction false} AllAppliedHost(r: Reading, es: seq<Entry>)
    requires forall i | 0 <= i < |es| :: NoSpace(es[i].value)
    ensures AppliedAll(r, es).config.host == r.config.host || NoSpace(AppliedAll(r, es).config.host)
  {
    hide Applied, NoSpace;
    if es != [] {
      AllAppliedHost(r, es[..|es| - 1]);
      AppliedHost(AppliedAll(r, es[..|es| - 1]), es[|es| - 1]);
    }
  }

  /** From settings with another host, the saved host comes back exactly when it has no spaces. */
  lemma HostRestored(prior: Config, c: Config)
    requires WellFormed(c) && prior.host != c.host
    ensures Loaded(prior, Saved(c)).host == c.host <==> NoSpace(c.host)
  {
    hide Saved, Entries, AppliedAll, WellFormed, NoSpace, Quad;
    if NoSpace(c.host) {
      SavedRestored(prior, c);
    } else {
      var r := Reading(prior, false, -1, -1);
      EntriesNoSpace(Saved(c));
      AllAppliedHost(r, Entries(Saved(c)));
    }
  }

  /** There are such hosts: this one is stored as it is, and does not come back. */
  lemma HostLost(prior: Config)
    requires WellFormed(prior) && prior.host != "my ps3"
    ensures var c := prior.(host := "my ps3");
      WellFormed(c) && Loaded(prior, Saved(c)).host != c.host && c.host == WithHost(prior, "my ps3").host
  {
    var c := prior.(host := "my ps3");
    NotDotted(c.host);
    assert !NoSpace(c.host) by { assert IsSpace(c.host[2]); }
    HostRestored(prior, c);
    hide Saved, Loaded, Quad;
  }

  lemma NotDotted(s: string)
    requires s != [] && s[0] !in "-+" && !IsSpace(s[0]) && !IsDigit(s[0])
    ensures Quad(s).None?
  {
    assert Leading(s) == 0;
    assert ScanInt(s).None?;
    hide ScanInt, IsSpace, IsDigit;
  }

  // The settings in memory

  class Store {
    var host: string
    var octets: Octets
    var fps: int
    var bitrateIdx: int
    var mouseMode: int
    var vsync: bool
    var stats: bool
    var verbose: bool
    var res16x9: int
    var res4x3: int
    var scaling: Scaling

    function Current(): Config
      reads this
    {
      Config(host, octets, fps, bitrateIdx, mouseMode, vsync, stats, verbose, res16x9, res4x3, scaling)
    }

    /** The settings before anything is loaded. */
    constructor ()
      ensures WellFormed(Current())
    {
      host, octets, fps, bitrateIdx, mouseMode := "192.168.1.1", [192, 168, 1, 1], 60, 2, 0;
      vsync, stats, verbose, res16x9, res4x3, scaling := true, false, false, 0, 0, Shader;
      new;
      hide WellFormed;
      DefaultsFine(Current());
    }

    /** Takes over the numbers that are in range. */
    method Patch(x: Octets)
      modifies this`octets
      ensures octets == Patched(old(octets), x)
    {
      for i := 0 to 4
        invariant forall k | 0 <= k < i :: octets[k] == if IsOctet(x[k]) then x[k] else old(octets)[k]
        invariant forall k | i <= k < 4 :: octets[k] == old(octets)[k]
      {
        if IsOctet(x[i]) {
          octets := octets[i := x[i]];
        }
      }
    }

    method SetTargetIp(s: string)
      modifies this`host, this`octets
      ensures Current() == WithHost(old(Current()), s)
    {
      hide Quad, Dotted, Patched, Cut;
      if s == [] { return; }
      var o := Quad(s);
      if o.Some? {
        Patch(o.value);
        host := Dotted(octets);
      } else {
        host := Cut(s);
      }
    }

    /** One entry of the file. */
    method Apply(e: Entry, explicit: bool, oldScaling: int, oldUpscaler: int)
      returns (explicit': bool, oldScaling': int, oldUpscaler': int)
      modifies this
      ensures Reading(Current(), explicit', oldScaling', oldUpscaler')
           == Applied(Reading(old(Current()), explicit, oldScaling, oldUpscaler), e)
    {
      hide WithHost, Atoi;
      explicit', oldScaling', oldUpscaler' := explicit, oldScaling, oldUpscaler;
      var v := Atoi(e.value);
      match e.key
      case HostIp => SetTargetIp(e.value);
      case Fps => if v == 30 || v == 60 { fps := v; }
      case BitrateIdx => if 0 <= v < BITRATES { bitrateIdx := v; }
      case MouseMode => if v == 0 || v == 1 { mouseMode := v; }
      case Vsync => vsync := v != 0;
      case Stats => stats := v != 0;
      case Verbose => verbose := v != 0;
      case Res16x9 => res16x9 := if v == 1 then 1 else 0;
      case Res4x3 => res4x3 := if v == 1 then 1 else 0;
      case ScalingMode => scaling := if v != 0 then Legacy else Shader; explicit' := true;
      case OldScaling => oldScaling' := v;
      case OldUpscaler => oldUpscaler' := v;
      case Unknown =>
    }

    /** Reads a file line by line. */
    method Load(file: string)
      modifies this
      ensures Current() == Loaded(old(Current()), file)
    {
      hide Applied, AppliedAll, ScanLine, LineLength;
      var explicit, oldScaling, oldUpscaler := false, -1, -1;
      var rest := file;
      ghost var end := AppliedAll(Reading(Current(), false, -1, -1), Entries(file));
      while rest != []
        invariant AppliedAll(Reading(Current(), explicit, oldScaling, oldUpscaler), Entries(rest)) == end
      {
        ghost var r := Reading(Current(), explicit, oldScaling, oldUpscaler);
        var n := LineLength(rest);
        var e := ScanLine(rest[..n]);
        if e.Some? {
          AppliedFirst(r, e.value, Entries(rest[n..]));
          explicit, oldScaling, oldUpscaler := Apply(e.value, explicit, oldScaling, oldUpscaler);
        } else {
          assert [] + Entries(rest[n..]) == Entries(rest[n..]);
        }
        rest := rest[n..];
      }
      AllApplied(Reading(Current(), explicit, oldScaling, oldUpscaler));
      if !explicit {
        if oldScaling >= 0 {
          scaling := if oldScaling == 3 then Legacy else Shader;
        } else if oldUpscaler >= 0 {
          scaling := if oldUpscaler != 0 then Shader else Legacy;
        }
      }
    }
  }

  lemma AllApplied(r: Reading)
    ensures AppliedAll(r, Entries("")) == r
  {
  }

  lemma DefaultsFine(c: Config)
    requires c == Config("192.168.1.1", [192, 168, 1, 1], 60, 2, 0, true, false, false, 0, 0, Shader)
    ensures WellFormed(c)
  {
    FirstHost();
    hide Stable;
  }

  lemma FirstHost()
    ensures Stable("192.168.1.1")
  {
    var o: Octets := [192, 168, 1, 1];
    QuadOfDotted(o);
    DottedText();
    hide Quad, Dotted;
  }

  lemma DottedText()
    ensures Dotted([192, 168, 1, 1]) == "192.168.1.1"
  {
    Numerals();
    hide Signed;
  }

  lemma Numerals()
    ensures Signed(1) == "1" && Signed(168) == "168" && Signed(192) == "192"
  {
    var one, nineteen, sixteen := Decimal(1), Decimal(19), Decimal(16);
    assert one == "1" && nineteen == "19" && sixteen == "16";
    assert Decimal(192) == nineteen + "2" && Decimal(168) == sixteen + "8";
  }
}
