/** The list of apps that a host sends as XML, and the scan that reads it. */
module AppList {
  import opened Strings
  import opened Wrappers

  const MAX_APPS := 32
  const MAX_NAME := 63

  datatype App = App(id: int, name: string)

  /** The text between the first `opening` and the first `closing` after it. */
  function Between(xml: string, opening: string, closing: string): Option<string> {
    var start := Find(xml, opening);
    if start > |xml| then None
    else
      var rest := xml[start + |opening|..];
      var end := Find(rest, closing);
      if end > |rest| then None else Some(rest[..end])
  }

  function ExtractXml(xml: string, tag: string): Option<string> {
    Between(xml, "<" + tag + ">", "</" + tag + ">")
  }

  function OrElse<T>(a: Option<T>, b: Option<T>): Option<T> {
    if a.Some? then a else b
  }

  function CutName(title: string): string {
    if |title| <= MAX_NAME then title else title[..MAX_NAME]
  }

  /** The app in one block, if it has a title and an id. */
  function AppOf(block: string): Option<App> {
    var title := OrElse(ExtractXml(block, "AppTitle"), ExtractXml(block, "apptitle"));
    var id := OrElse(ExtractXml(block, "ID"), ExtractXml(block, "id"));
    if title.Some? && id.Some? then Some(App(Atoi(id.value), CutName(title.value))) else None
  }

  /** The first occurrence of one spelling or else of the other. */
  function FindEither(s: string, a: string, b: string): (i: nat)
    requires |a| == |b|
    ensures i <= |s| ==> i + |a| <= |s|
  {
    if Find(s, a) <= |s| then Find(s, a) else Find(s, b)
  }

  /** Where the next block starts and ends, if there is one. */
  function NextBlock(s: string): (b: Option<(nat, nat)>)
    ensures b.Some? ==> b.value.0 <= b.value.1 && b.value.1 + 6 <= |s|
  {
    var start := FindEither(s, "<App>", "<app>");
    if start > |s| then None
    else
      var end := FindEither(s[start..], "</App>", "</app>");
      if end > |s| - start then None else Some((start, start + end))
  }

  /** The apps of the blocks, at most `room` of them; every round moves on in the document. */
  function Scan(s: string, room: nat): (apps: seq<App>)
    ensures |apps| <= room
    decreases |s|
  {
    if room == 0 then []
    else
      match NextBlock(s)
      case None => []
      case Some((start, end)) =>
        match AppOf(s[start..end])
        case None => Scan(s[end + 6..], room)
        case Some(app) => [app] + Scan(s[end + 6..], room - 1)
  }

  /** The fallback: a document without blocks, but with an id. */
  function Fallback(s: string): seq<App> {
    match ExtractXml(s, "ID")
    case None => []
    case Some(id) =>
      var title := ExtractXml(s, "AppTitle");
      [App(Atoi(id), if title.Some? then CutName(title.value) else "Default Host Game")]
  }

  function Apps(s: string): seq<App> {
    var apps := Scan(s, MAX_APPS);
    if apps == [] then Fallback(s) else apps
  }

  lemma ScanStep(s: string, room: nat)
    requires room > 0
    ensures NextBlock(s).None? ==> Scan(s, room) == []
    ensures NextBlock(s).Some? ==>
      var (start, end) := NextBlock(s).value;
      var app := AppOf(s[start..end]);
      Scan(s, room) == if app.Some? then [app.value] + Scan(s[end + 6..], room - 1) else Scan(s[end + 6..], room)
  {
    hide NextBlock, AppOf;
  }

  lemma NoRoom(s: string)
    ensures Scan(s, 0) == []
  {
  }

  /** The scan as a loop over a position in the document. */
  method ParseApps(s: string) returns (apps: seq<App>)
    ensures apps == Apps(s)
  {
    hide AppOf, NextBlock, Fallback, Scan;
    apps := [];
    var curr := 0;
    assert s[0..] == s;
    while |apps| < MAX_APPS
      invariant 0 <= curr <= |s| && |apps| <= MAX_APPS
      invariant apps + Scan(s[curr..], MAX_APPS - |apps|) == Scan(s, MAX_APPS)
      decreases |s| - curr
    {
      ScanStep(s[curr..], MAX_APPS - |apps|);
      var block := NextBlock(s[curr..]);
      if block.None? {
        assert apps + [] == apps;
        break;
      }
      var (start, end) := block.value;
      var app := AppOf(s[curr..][start..end]);
      ghost var rest := s[curr..][end + 6..];
      assert rest == s[curr + end + 6..];
      if app.Some? {
        ghost var more := Scan(rest, MAX_APPS - |apps| - 1);
        assert apps + ([app.value] + more) == (apps + [app.value]) + more;
        apps := apps + [app.value];
      }
      curr := curr + end + 6;
    }
    NoRoom(s[curr..]);
    assert apps == Scan(s, MAX_APPS);
    if apps == [] {
      apps := Fallback(s);
    }
  }

  // A host's document

  /**
   One app as it is written: the pieces up to its closing tag, of which number `title` opens the
   title and number `id` the id, and the text between it and the next app.
   */
  datatype Block = Block(app: App, pieces: seq<string>, title: nat, id: nat, gap: string)

  /** The tags of a block in one of the two spellings. */
  function Opening(lower: bool): string {
    if lower then "<app>" else "<App>"
  }

  function Closing(lower: bool): string {
    if lower then "</app>" else "</App>"
  }

  function Rendered(blocks: seq<Block>, lower: bool): string {
    if blocks == [] then ""
    else Cat(blocks[0].pieces) + Closing(lower) + (blocks[0].gap + Rendered(blocks[1..], lower))
  }

  function AppsOf(blocks: seq<Block>): seq<App> {
    if blocks == [] then [] else [blocks[0].app] + AppsOf(blocks[1..])
  }

  predicate Plain(text: string) {
    '<' !in text
  }

  /** Piece `i` opens the first element of that tag, which holds `text`. */
  ghost predicate FirstElement(pieces: seq<string>, i: nat, opening: string, closing: string, text: string) {
    && i + 2 < |pieces| && pieces[i] == opening && pieces[i + 1] == text && pieces[i + 2] == closing && Plain(text)
    && forall k | 0 <= k < i :: Piece(pieces[k]) && Differs(pieces[k], opening)
  }

  ghost predicate Lacks(pieces: seq<string>, tag: string) {
    forall k | 0 <= k < |pieces| :: Piece(pieces[k]) && Differs(pieces[k], tag)
  }

  /** The title is in the first element of that tag, or in lower case if there is none. */
  ghost predicate HasTitle(b: Block) {
    || FirstElement(b.pieces, b.title, "<AppTitle>", "</AppTitle>", b.app.name)
    || (FirstElement(b.pieces, b.title, "<apptitle>", "</apptitle>", b.app.name) && Lacks(b.pieces, "<AppTitle>"))
  }

  ghost predicate HasId(b: Block) {
    || FirstElement(b.pieces, b.id, "<ID>", "</ID>", Signed(b.app.id))
    || (FirstElement(b.pieces, b.id, "<id>", "</id>", Signed(b.app.id)) && Lacks(b.pieces, "<ID>"))
  }

  /** A block with its title and its id, in any order and among any other elements. */
  ghost predicate Fine(b: Block, lower: bool) {
    && 0 < |b.pieces| && b.pieces[0] == Opening(lower) && HasTitle(b) && HasId(b)
    && Lacks(b.pieces, Closing(lower)) && !Occurs(b.gap, "<App>") && !Occurs(b.gap, "<app>")
  }

  /** The first apps, with the first 63 bytes of their names. */
  function Cut(apps: seq<App>, room: nat): seq<App> {
    if apps == [] || room == 0 then []
    else
      var name := apps[0].name;
      [App(apps[0].id, if |name| > 63 then name[..63] else name)] + Cut(apps[1..], room - 1)
  }

  lemma PlainPasses(text: string, pat: string)
    requires Plain(text) && pat != [] && pat[0] == '<'
    ensures Piece(text) && Differs(text, pat)
  {
    if text != [] { assert text[0] != pat[0]; }
  }

  lemma SignedPlain(n: int)
    ensures Plain(Signed(n))
  {
    assert forall k | 0 <= k < |Signed(n)| :: IsDigit(Signed(n)[k]) || Signed(n)[k] == '-';
    hide Signed;
  }

  lemma TagsDiffer()
    ensures Piece("<App>") && Piece("<AppTitle>") && Piece("</AppTitle>") && Piece("<ID>") && Piece("</ID>")
    ensures Piece("<IsHdrSupported>") && Piece("</IsHdrSupported>")
    ensures forall p | p in {"<App>", "<IsHdrSupported>", "</IsHdrSupported>"} ::
      Differs(p, "<AppTitle>") && Differs(p, "<ID>") && Differs(p, "</App>")
    ensures Differs("<AppTitle>", "<ID>") && Differs("<AppTitle>", "</App>")
    ensures Differs("</AppTitle>", "<ID>") && Differs("</AppTitle>", "</App>")
    ensures Differs("<ID>", "</App>") && Differs("</ID>", "</App>")
  {
    assert "<App>"[4] != "<AppTitle>"[4] && "<App>"[1] != "<ID>"[1] && "<App>"[1] != "</App>"[1];
    assert "<IsHdrSupported>"[1] != "<AppTitle>"[1] && "<IsHdrSupported>"[2] != "<ID>"[2];
    assert "<IsHdrSupported>"[1] != "</App>"[1] && "</IsHdrSupported>"[2] != "</App>"[2];
    assert "</IsHdrSupported>"[1] != "<AppTitle>"[1] && "</IsHdrSupported>"[1] != "<ID>"[1];
    assert "<AppTitle>"[1] != "<ID>"[1] && "<AppTitle>"[1] != "</App>"[1];
    assert "</AppTitle>"[1] != "<ID>"[1] && "</AppTitle>"[5] != "</App>"[5];
    assert "<ID>"[1] != "</App>"[1] && "</ID>"[2] != "</App>"[2];
  }

  /** The text between a tag and its closing tag, with no such tag before. */
  lemma BetweenPieces(pieces: seq<string>, i: nat, opening: string, closing: string, text: string)
    requires FirstElement(pieces, i, opening, closing, text) && Tag(opening) && Tag(closing)
    ensures Between(Cat(pieces), opening, closing) == Some(text)
  {
    hide Find, Piece, Differs, Plain, Cat, Between;
    FindsPiece(pieces, i, opening);
    var rest := pieces[i + 1..];
    PlainPasses(text, closing);
    FindsPiece(rest, 1, closing);
    CatFirst(rest);
    assert rest[..1] == [text];
    CatOne(text);
    assert Cat(rest)[..|text|] == text;
    BetweenIs(Cat(pieces), opening, closing, Cat(rest), |text|);
  }

  lemma BetweenIs(xml: string, opening: string, closing: string, rest: string, end: nat)
    requires Find(xml, opening) + |opening| <= |xml| && rest == xml[Find(xml, opening) + |opening|..]
    requires Find(rest, closing) == end <= |rest|
    ensures Between(xml, opening, closing) == Some(rest[..end])
  {
    hide Find;
  }

  predicate Tag(p: string) {
    p != [] && p[0] == '<'
  }

  lemma CatOne(text: string)
    ensures Cat([text]) == text
  {
  }

  lemma LacksNone(pieces: seq<string>, opening: string, closing: string)
    requires Lacks(pieces, opening) && Tag(opening)
    ensures !Occurs(Cat(pieces), opening) && Between(Cat(pieces), opening, closing).None?
  {
    PassesAll(pieces, "", opening);
    assert Cat(pieces) + "" == Cat(pieces);
    assert Find("", opening) == 1;
    hide Find, Piece, Differs, Cat;
  }

  lemma TitleRead(b: Block)
    requires HasTitle(b)
    ensures OrElse(ExtractXml(Cat(b.pieces), "AppTitle"), ExtractXml(Cat(b.pieces), "apptitle")) == Some(b.app.name)
  {
    hide Between, Cat, FirstElement, Lacks;
    assert "<" + "AppTitle" + ">" == "<AppTitle>" && "</" + "AppTitle" + ">" == "</AppTitle>";
    assert "<" + "apptitle" + ">" == "<apptitle>" && "</" + "apptitle" + ">" == "</apptitle>";
    if FirstElement(b.pieces, b.title, "<AppTitle>", "</AppTitle>", b.app.name) {
      BetweenPieces(b.pieces, b.title, "<AppTitle>", "</AppTitle>", b.app.name);
    } else {
      LacksNone(b.pieces, "<AppTitle>", "</AppTitle>");
      BetweenPieces(b.pieces, b.title, "<apptitle>", "</apptitle>", b.app.name);
    }
  }

  lemma IdRead(b: Block)
    requires HasId(b)
    ensures OrElse(ExtractXml(Cat(b.pieces), "ID"), ExtractXml(Cat(b.pieces), "id")) == Some(Signed(b.app.id))
  {
    hide Between, Cat, FirstElement, Lacks, Signed;
    assert "<" + "ID" + ">" == "<ID>" && "</" + "ID" + ">" == "</ID>";
    assert "<" + "id" + ">" == "<id>" && "</" + "id" + ">" == "</id>";
    if FirstElement(b.pieces, b.id, "<ID>", "</ID>", Signed(b.app.id)) {
      BetweenPieces(b.pieces, b.id, "<ID>", "</ID>", Signed(b.app.id));
    } else {
      LacksNone(b.pieces, "<ID>", "</ID>");
      BetweenPieces(b.pieces, b.id, "<id>", "</id>", Signed(b.app.id));
    }
  }

  /** A block reads back as the app it was made of, with its name cut. */
  lemma BlockRead(b: Block)
    requires HasTitle(b) && HasId(b)
    ensures AppOf(Cat(b.pieces)) == Some(App(b.app.id, CutName(b.app.name)))
  {
    TitleRead(b);
    IdRead(b);
    AtoiOfSigned(b.app.id);
    hide OrElse, ExtractXml, Signed, Atoi, CutName, Cat, HasTitle, HasId;
  }

  /** Without a tag in the whole there is none in a part. */
  lemma SuffixLacks(s: string, n: nat, tag: string)
    requires n <= |s| && !Occurs(s, tag)
    ensures !Occurs(s[n..], tag)
  {
    FindIsFirst(s, tag);
    FindIsFirst(s[n..], tag);
    hide Find;
    assert forall k | 0 <= k <= |s| - n :: s[n..][k..] == s[n + k..];
  }

  /** A document in lower case has no tag of a block in the other spelling. */
  predicate OnlyLower(s: string) {
    !Occurs(s, "<App>") && !Occurs(s, "</App>")
  }

  lemma FirstEither(s: string, a: string, b: string)
    requires |a| == |b|
    ensures Occurs(s, a) ==> FindEither(s, a, b) == Find(s, a)
    ensures !Occurs(s, a) ==> FindEither(s, a, b) == Find(s, b)
  {
    hide Find;
  }

  /** Pieces from the tag that opens a block up to the one that closes it. */
  ghost predicate Framed(pieces: seq<string>, lower: bool) {
    0 < |pieces| && pieces[0] == Opening(lower) && Lacks(pieces, Closing(lower))
  }

  /** The scan takes the first block behind a text without one, up to its closing tag. */
  lemma FirstBlock(head: string, pieces: seq<string>, rest: string, lower: bool)
    requires Framed(pieces, lower) && !Occurs(head, Opening(lower))
    requires lower ==> OnlyLower(head + (Cat(pieces) + (Closing(lower) + rest)))
    ensures NextBlock(head + (Cat(pieces) + (Closing(lower) + rest))) == Some((|head|, |head| + |Cat(pieces)|))
  {
    hide Find, Differs, Cat;
    var block := Cat(pieces) + (Closing(lower) + rest);
    CatFirst(pieces);
    var inner := Cat(pieces[1..]) + (Closing(lower) + rest);
    assert block == Opening(lower) + inner;
    PassesText(head, block, Opening(lower));
    StopsAt(Opening(lower), inner);
    assert (head + block)[|head|..] == block;
    PassesAll(pieces, Closing(lower) + rest, Closing(lower));
    StopsAt(Closing(lower), rest);
    FirstEither(head + block, "<App>", "<app>");
    FirstEither(block, "</App>", "</app>");
    if lower { SuffixLacks(head + block, |head|, "</App>"); }
    hide FindEither;
  }

  ghost predicate AllFine(blocks: seq<Block>, lower: bool) {
    forall i | 0 <= i < |blocks| :: Fine(blocks[i], lower)
  }

  lemma ScanFound(s: string, room: nat, start: nat, end: nat, app: App)
    requires room > 0 && NextBlock(s) == Some((start, end)) && AppOf(s[start..end]) == Some(app)
    ensures Scan(s, room) == [app] + Scan(s[end + 6..], room - 1)
  {
    hide NextBlock, AppOf;
  }

  /** The scan of a block and what is behind it. */
  lemma ScanBlock(s: string, head: string, b: Block, after: string, room: nat, lower: bool)
    requires room > 0 && Fine(b, lower) && !Occurs(head, Opening(lower))
    requires s == head + (Cat(b.pieces) + (Closing(lower) + after)) && (lower ==> OnlyLower(s))
    ensures Scan(s, room) == [App(b.app.id, CutName(b.app.name))] + Scan(after, room - 1)
  {
    hide *;
    Parts(b, lower);
    var start, end := FoundAt(s, head, b.pieces, after, lower);
    BlockRead(b);
    ScanFound(s, room, start, end, App(b.app.id, CutName(b.app.name)));
  }

  lemma FoundAt(s: string, head: string, pieces: seq<string>, after: string, lower: bool)
    returns (start: nat, end: nat)
    requires Framed(pieces, lower) && !Occurs(head, Opening(lower))
    requires s == head + (Cat(pieces) + (Closing(lower) + after)) && (lower ==> OnlyLower(s))
    ensures start <= end && end + 6 <= |s| && NextBlock(s) == Some((start, end))
    ensures s[start..end] == Cat(pieces) && s[end + 6..] == after
  {
    hide *;
    start, end := |head|, |head| + |Cat(pieces)|;
    FirstBlock(head, pieces, after, lower);
    ClosingSize(lower);
    Slices(head, Cat(pieces), Closing(lower), after);
  }

  /** A block without a title or without an id. */
  ghost predicate Incomplete(pieces: seq<string>) {
    || (Lacks(pieces, "<AppTitle>") && Lacks(pieces, "<apptitle>"))
    || (Lacks(pieces, "<ID>") && Lacks(pieces, "<id>"))
  }

  /** Such a block is passed over. */
  lemma PassedOver(s: string, head: string, pieces: seq<string>, after: string, room: nat)
    requires room > 0 && Framed(pieces, false) && Incomplete(pieces) && !Occurs(head, "<App>")
    requires s == head + (Cat(pieces) + ("</App>" + after))
    ensures Scan(s, room) == Scan(after, room)
  {
    hide *;
    UpperTags();
    Untitled(pieces);
    var start, end := FoundAt(s, head, pieces, after, false);
    ScanStep(s, room);
  }

  lemma UpperTags()
    ensures Opening(false) == "<App>" && Closing(false) == "</App>"
  {
  }

  lemma Untitled(pieces: seq<string>)
    requires Incomplete(pieces)
    ensures AppOf(Cat(pieces)).None?
  {
    assert "<" + "AppTitle" + ">" == "<AppTitle>" && "</" + "AppTitle" + ">" == "</AppTitle>";
    assert "<" + "apptitle" + ">" == "<apptitle>" && "</" + "apptitle" + ">" == "</apptitle>";
    assert "<" + "ID" + ">" == "<ID>" && "</" + "ID" + ">" == "</ID>";
    assert "<" + "id" + ">" == "<id>" && "</" + "id" + ">" == "</id>";
    hide Lacks, Between, Cat;
    if Lacks(pieces, "<AppTitle>") && Lacks(pieces, "<apptitle>") {
      LacksNone(pieces, "<AppTitle>", "</AppTitle>");
      LacksNone(pieces, "<apptitle>", "</apptitle>");
    } else {
      LacksNone(pieces, "<ID>", "</ID>");
      LacksNone(pieces, "<id>", "</id>");
    }
  }

  lemma Slices(head: string, block: string, closing: string, after: string)
    ensures var s := head + (block + (closing + after));
      && s[|head|..|head| + |block|] == block && s[|head| + |block| + |closing|..] == after
      && s[|s| - |after|..] == after
  {
  }

  lemma RenderedFirst(head: string, blocks: seq<Block>, lower: bool)
    requires blocks != []
    ensures var b, after := blocks[0], blocks[0].gap + Rendered(blocks[1..], lower);
      && head + Rendered(blocks, lower) == head + (Cat(b.pieces) + (Closing(lower) + after))
  {
    hide Cat, Closing;
  }

  lemma {:induction false} ScanRendered(head: string, blocks: seq<Block>, room: nat, lower: bool)
    requires AllFine(blocks, lower) && !Occurs(head, Opening(lower))
    requires blocks == [] ==> !Occurs(head, "<App>") && !Occurs(head, "<app>")
    requires lower ==> OnlyLower(head + Rendered(blocks, lower))
    ensures Scan(head + Rendered(blocks, lower), room) == Cut(AppsOf(blocks), room)
    decreases |blocks|
  {
    hide NextBlock, AppOf, Occurs, Scan, Fine, Opening, Closing, OnlyLower, Rendered, Cat;
    var s := head + Rendered(blocks, lower);
    if room == 0 {
      NoRoom(s);
    } else if blocks == [] {
      NothingRendered(lower);
      assert s == head;
      NoBlock(s);
      ScanStep(s, room);
    } else {
      var b, after := blocks[0], blocks[0].gap + Rendered(blocks[1..], lower);
      RenderedFirst(head, blocks, lower);
      ScanBlock(s, head, b, after, room, lower);
      Parts(b, lower);
      if lower { LowerAfter(s, head, b, after); }
      ScanRendered(b.gap, blocks[1..], room - 1, lower);
    }
  }

  lemma NothingRendered(lower: bool)
    ensures Rendered([], lower) == ""
  {
  }

  lemma LowerAfter(s: string, head: string, b: Block, after: string)
    requires s == head + (Cat(b.pieces) + (Closing(true) + after)) && OnlyLower(s)
    ensures OnlyLower(after)
  {
    hide *;
    Slices(head, Cat(b.pieces), Closing(true), after);
    StillLower(s, |s| - |after|);
  }

  lemma ClosingSize(lower: bool)
    ensures |Closing(lower)| == 6
  {
  }

  lemma StillLower(s: string, n: nat)
    requires n <= |s| && OnlyLower(s)
    ensures OnlyLower(s[n..])
  {
    SuffixLacks(s, n, "<App>");
    SuffixLacks(s, n, "</App>");
    hide Occurs;
  }

  lemma Parts(b: Block, lower: bool)
    requires Fine(b, lower)
    ensures HasTitle(b) && HasId(b) && Framed(b.pieces, lower) && !Occurs(b.gap, "<App>") && !Occurs(b.gap, "<app>")
    ensures !Occurs(b.gap, Opening(lower))
  {
    hide HasTitle, HasId, Occurs;
  }

  lemma NoBlock(s: string)
    requires !Occurs(s, "<App>") && !Occurs(s, "<app>")
    ensures NextBlock(s).None?
  {
  }

  /** A document gives back the first 32 of its apps, in order, with names cut to 63 bytes. */
  lemma AppsRoundTrip(head: string, blocks: seq<Block>)
    requires blocks != [] && AllFine(blocks, false) && !Occurs(head, "<App>")
    ensures Apps(head + Rendered(blocks, false)) == Cut(AppsOf(blocks), 32)
  {
    hide Rendered, Scan, Fallback, Occurs, AllFine;
    ScanRendered(head, blocks, MAX_APPS, false);
  }

  /** So does one whose blocks are all in lower case. */
  lemma LowerRoundTrip(head: string, blocks: seq<Block>)
    requires blocks != [] && AllFine(blocks, true) && !Occurs(head, "<app>")
    requires !Occurs(head + Rendered(blocks, true), "<App>") && !Occurs(head + Rendered(blocks, true), "</App>")
    ensures Apps(head + Rendered(blocks, true)) == Cut(AppsOf(blocks), 32)
  {
    hide Rendered, Scan, Fallback, Occurs, AllFine;
    ScanRendered(head, blocks, MAX_APPS, true);
  }

  /**
   A document without blocks but with an id is one app, whose name is the title if there is one
   and a default otherwise.
   */
  lemma FallbackApp(pieces: seq<string>, id: nat, n: int, title: nat, name: string)
    requires Lacks(pieces, "<App>") && Lacks(pieces, "<app>")
    requires FirstElement(pieces, id, "<ID>", "</ID>", Signed(n))
    ensures FirstElement(pieces, title, "<AppTitle>", "</AppTitle>", name) ==>
      Apps(Cat(pieces)) == [App(n, if |name| <= 63 then name else name[..63])]
    ensures Lacks(pieces, "<AppTitle>") ==> Apps(Cat(pieces)) == [App(n, "Default Host Game")]
  {
    hide Between, Cat, FirstElement, Lacks, Signed, Atoi;
    assert "<" + "AppTitle" + ">" == "<AppTitle>" && "</" + "AppTitle" + ">" == "</AppTitle>";
    assert "<" + "ID" + ">" == "<ID>" && "</" + "ID" + ">" == "</ID>";
    LacksNone(pieces, "<App>", "");
    LacksNone(pieces, "<app>", "");
    NoBlock(Cat(pieces));
    ScanStep(Cat(pieces), MAX_APPS);
    BetweenPieces(pieces, id, "<ID>", "</ID>", Signed(n));
    AtoiOfSigned(n);
    if FirstElement(pieces, title, "<AppTitle>", "</AppTitle>", name) {
      BetweenPieces(pieces, title, "<AppTitle>", "</AppTitle>", name);
    }
    if Lacks(pieces, "<AppTitle>") { LacksNone(pieces, "<AppTitle>", "</AppTitle>"); }
    hide Scan, NextBlock, Occurs;
  }

  /** Blocks with a leading element, a title without `<` and an id, on lines of their own. */
  function Usual(a: App): Block {
    Block(a, ["<App>", "<IsHdrSupported>", "0", "</IsHdrSupported>",
              "<AppTitle>", a.name, "</AppTitle>", "<ID>", Signed(a.id), "</ID>"], 4, 7, "\n")
  }

  lemma UsualIsFine(a: App)
    requires Plain(a.name)
    ensures Fine(Usual(a), false)
  {
    hide Signed, Piece, Differs, Plain, Occurs, FirstElement;
    TagsDiffer();
    ZeroPlain();
    PlainPasses("0", "<AppTitle>"); PlainPasses("0", "<ID>"); PlainPasses("0", "</App>");
    PlainPasses(a.name, "<ID>"); PlainPasses(a.name, "</App>");
    SignedPlain(a.id);
    PlainPasses(Signed(a.id), "</App>");
    NewlineHasNoTag();
    var p := Usual(a).pieces;
    assert FirstElement(p, 4, "<AppTitle>", "</AppTitle>", a.name) by { TitleIsFirst(p, a.name); }
    assert FirstElement(p, 7, "<ID>", "</ID>", Signed(a.id)) by { IdIsFirst(p, Signed(a.id)); }
  }

  lemma ZeroPlain()
    ensures Plain("0")
  {
  }

  lemma TitleIsFirst(p: seq<string>, name: string)
    requires |p| >= 7 && p[4] == "<AppTitle>" && p[5] == name && p[6] == "</AppTitle>" && Plain(name)
    requires forall k | 0 <= k < 4 :: Piece(p[k]) && Differs(p[k], "<AppTitle>")
    ensures FirstElement(p, 4, "<AppTitle>", "</AppTitle>", name)
  {
    hide Piece, Differs, Plain;
  }

  lemma IdIsFirst(p: seq<string>, id: string)
    requires |p| >= 10 && p[7] == "<ID>" && p[8] == id && p[9] == "</ID>" && Plain(id)
    requires forall k | 0 <= k < 7 :: Piece(p[k]) && Differs(p[k], "<ID>")
    ensures FirstElement(p, 7, "<ID>", "</ID>", id)
  {
    hide Piece, Differs, Plain;
  }

  lemma NewlineHasNoTag()
    ensures !Occurs("\n", "<App>") && !Occurs("\n", "<app>")
  {
  }

  /** A document without apps and without any id gives none. */
  lemma NoApps(s: string)
    requires !Occurs(s, "<App>") && !Occurs(s, "<app>") && !Occurs(s, "<ID>")
    ensures Apps(s) == []
  {
    NoBlock(s);
    ScanStep(s, MAX_APPS);
    assert "<" + "ID" + ">" == "<ID>";
    hide Scan, Find;
  }
}
