/** The markers of a fenced document: how many there are, and what the line scan makes of them. */
module NginxFenced {
  import opened Options
  import opened PythonText
  import opened NginxText
  import opened NginxLexer
  import opened NginxDocument
  import opened NginxRemoval
  import opened NginxMeaning
  import opened NginxPhrases
  import opened NginxInsertion
  import opened NginxServers
  import opened NginxAudit
  import opened NginxMarkers
  import opened NginxFence
  import opened NginxSite
  import opened NginxSteady
  import opened NginxRollback
  import opened NginxMaintenance

  // ----- The lines of one fence

  /** An indent: blanks and tabs only. */
  predicate IsIndent(s: string) { forall c <- s :: c == ' ' || c == '\t' }

  lemma {:induction false} MarginIsIndent(s: string)
    ensures IsIndent(Margin(s))
  {
    if s != "" && (s[0] == ' ' || s[0] == '\t') { MarginIsIndent(s[1..]); }
  }

  lemma PlaceIsIndent(b: string, s: Stmt)
    requires s.raw != ""
    ensures IsIndent(PlaceIn(b, s).indent)
  {
    MarginIsIndent(LastLine(b + s.gap + s.raw[..|s.raw| - 1]));
  }

  lemma {:induction false} StripIndent(indent: string, s: string)
    requires IsIndent(indent)
    ensures StripLeft(indent + s) == StripLeft(s)
  {
    if indent == "" {
      assert indent + s == s;
    } else {
      assert (indent + s)[1..] == indent[1..] + s;
      assert indent[0] in indent;
      assert forall c :: c in indent[1..] ==> c in indent;
      StripIndent(indent[1..], s);
    }
  }

  /** A marker behind an indent is a marker line. */
  lemma StripMarker(indent: string, m: string)
    requires IsIndent(indent) && m != "" && !IsSpace(m[0]) && !IsSpace(m[|m| - 1])
    ensures Strip(indent + m + "\n") == m
  {
    assert indent + m + "\n" == indent + (m + "\n");
    StripIndent(indent, m + "\n");
    assert StripLeft(m + "\n") == m + "\n";
    assert (m + "\n")[..|m|] == m;
    assert StripRight(m + "\n") == StripRight(m) == m;
  }

  /** A line without `#` is no marker line. */
  lemma NoHashLine(line: string)
    requires '#' !in line
    ensures !IsMarkerLine(line)
  {
    Markers();
    if Strip(line) != "" {
      StripOccurs(line);
      if IsMarkerLine(line) { NoHashNoMarker(Strip(line), line); }
    }
  }

  /** A text that is one line once a line break follows. */
  predicate Unbroken(s: string) { forall c <- s :: !IsBreak(c) }

  lemma PlainUnbroken(w: string)
    requires Plain(w)
    ensures Unbroken(w) && '#' !in w
  {}

  lemma UnbrokenConcat(a: string, b: string)
    requires Unbroken(a) && Unbroken(b)
    ensures Unbroken(a + b)
  {}

  /** A line of the fence that is no marker. */
  predicate Quiet(s: string) { Unbroken(s) && '#' !in s }

  lemma {:induction false} PhraseQuiet(words: seq<string>)
    requires forall i :: 0 <= i < |words| ==> Quiet(words[i])
    ensures Quiet(Phrase(words))
  {
    if words == [] {
    } else {
      PhraseQuiet(words[1..]);
      UnbrokenConcat(words[0], " ");
    }
  }

  lemma QuotedQuiet()
    ensures Quiet("\"60\"") && Quiet("\"no-store\"")
  {}

  lemma FenceWordsQuiet()
    ensures Quiet(Phrase(RETRY_AFTER_WORDS)) && Quiet(Phrase(NO_STORE_WORDS)) && Quiet(Phrase(RETURN_503_WORDS))
  {
    hide Plain, Phrase, Quiet, Simple;
    FenceWords();
    QuietIfPlain(ADD_HEADER);
    QuietIfPlain(RETURN);
    QuietIfPlain("503");
    QuietIfPlain("always");
    QuietIfPlain("Retry-After");
    QuietIfPlain("Cache-Control");
    QuotedQuiet();
    PhraseQuiet(RETRY_AFTER_WORDS);
    PhraseQuiet(NO_STORE_WORDS);
    PhraseQuiet(RETURN_503_WORDS);
  }

  lemma QuietIfPlain(w: string)
    requires Plain(w)
    ensures Quiet(w)
  {
    PlainUnbroken(w);
  }

  lemma IndentQuiet(indent: string)
    requires IsIndent(indent)
    ensures Quiet(indent)
  {}

  function FenceLine(indent: string, line: string): string { indent + line + "\n" }

  lemma ContentCons(indent: string, l: Line, rest: seq<Line>)
    ensures Content(indent, [l] + rest) == FenceLine(indent, LineText(l)) + Content(indent, rest)
  {
    hide LineText;
    assert ([l] + rest)[1..] == rest;
  }

  lemma ContentIs(indent: string)
    ensures Content(indent, FENCE_LINES)
         == FenceLine(indent, MAINTENANCE_BEGIN) + (FenceLine(indent, Phrase(RETRY_AFTER_WORDS))
            + (FenceLine(indent, Phrase(NO_STORE_WORDS)) + (FenceLine(indent, Phrase(RETURN_503_WORDS))
            + FenceLine(indent, MAINTENANCE_END))))
  {
    hide Phrase, FenceLine, Content;
    var a, e := Note(MAINTENANCE_BEGIN), Note(MAINTENANCE_END);
    var b, c, d := Code(RETRY_AFTER_WORDS), Code(NO_STORE_WORDS), Code(RETURN_503_WORDS);
    assert FENCE_LINES == Fence(a, b, c, d, e);
    ContentCons(indent, a, [b] + ([c] + ([d] + ([e] + []))));
    ContentCons(indent, b, [c] + ([d] + ([e] + [])));
    ContentCons(indent, c, [d] + ([e] + []));
    ContentCons(indent, d, [e] + []);
    ContentCons(indent, e, []);
    assert Content(indent, []) == "" by { NoContent(indent); }
    assert FenceLine(indent, MAINTENANCE_END) + "" == FenceLine(indent, MAINTENANCE_END);
  }

  lemma NoContent(indent: string)
    ensures Content(indent, []) == ""
  {}

  lemma OneFenceLine(indent: string, line: string, rest: string)
    requires IsIndent(indent) && Unbroken(line)
    ensures Lines(FenceLine(indent, line) + rest) == [FenceLine(indent, line)] + Lines(rest)
  {
    hide Lines, IsBreak;
    IndentQuiet(indent);
    UnbrokenConcat(indent, line);
    OneLine(indent + line);
    LinesConcat(FenceLine(indent, line), rest);
  }

  /** The lines of a fence. */
  function FenceOf(indent: string): seq<string> {
    [FenceLine(indent, MAINTENANCE_BEGIN),
     FenceLine(indent, Phrase(RETRY_AFTER_WORDS)), FenceLine(indent, Phrase(NO_STORE_WORDS)),
     FenceLine(indent, Phrase(RETURN_503_WORDS)), FenceLine(indent, MAINTENANCE_END)]
  }

  lemma FenceUnbroken()
    ensures Unbroken(MAINTENANCE_BEGIN) && Unbroken(MAINTENANCE_END)
    ensures Unbroken(Phrase(RETRY_AFTER_WORDS)) && Unbroken(Phrase(NO_STORE_WORDS))
    ensures Unbroken(Phrase(RETURN_503_WORDS))
  {
    hide Phrase, IsBreak;
    Markers();
    FenceWordsQuiet();
  }

  lemma LinesOfFence(indent: string)
    requires IsIndent(indent)
    ensures Lines(Content(indent, FENCE_LINES)) == FenceOf(indent)
  {
    hide Phrase, Lines, FenceLine, Unbroken, IsIndent, Content;
    FenceUnbroken();
    ContentIs(indent);
    var b, c, d := Phrase(RETRY_AFTER_WORDS), Phrase(NO_STORE_WORDS), Phrase(RETURN_503_WORDS);
    var e := FenceLine(indent, MAINTENANCE_END);
    OneFenceLine(indent, MAINTENANCE_END, "");
    assert Lines("") == [] by { NoLinesOfNothing(); }
    assert e + "" == e;
    OneFenceLine(indent, d, e);
    OneFenceLine(indent, c, FenceLine(indent, d) + e);
    OneFenceLine(indent, b, FenceLine(indent, c) + (FenceLine(indent, d) + e));
    OneFenceLine(indent, MAINTENANCE_BEGIN, FenceLine(indent, b) + (FenceLine(indent, c) + (FenceLine(indent, d) + e)));
  }

  lemma NoLinesOfNothing()
    ensures Lines("") == []
  {}

  lemma QuietLine(indent: string, line: string)
    requires IsIndent(indent) && Quiet(line)
    ensures !IsMarkerLine(FenceLine(indent, line))
  {
    hide IsBreak, Strip;
    NoHashLine(FenceLine(indent, line));
  }

  lemma MarkerEnds()
    ensures MAINTENANCE_BEGIN != "" && MAINTENANCE_BEGIN[0] == '#' && MAINTENANCE_BEGIN[|MAINTENANCE_BEGIN| - 1] == 'N'
    ensures MAINTENANCE_END != "" && MAINTENANCE_END[0] == '#' && MAINTENANCE_END[|MAINTENANCE_END| - 1] == 'D'
  {}

  lemma FenceIsFence(indent: string)
    requires IsIndent(indent)
    ensures IsFence(FenceOf(indent))
  {
    hide Phrase, FenceLine, Quiet, IsIndent, Strip, IsMarkerLine;
    FenceWordsQuiet();
    MarkerEnds();
    MarkerFenceLine(indent, MAINTENANCE_BEGIN);
    MarkerFenceLine(indent, MAINTENANCE_END);
    QuietLine(indent, Phrase(RETRY_AFTER_WORDS));
    QuietLine(indent, Phrase(NO_STORE_WORDS));
    QuietLine(indent, Phrase(RETURN_503_WORDS));
    var f := FenceOf(indent);
    assert f[1..|f| - 1] == [f[1], f[2], f[3]];
    ThreeQuiet(f[1], f[2], f[3]);
  }

  lemma ThreeQuiet(a: string, b: string, c: string)
    requires !IsMarkerLine(a) && !IsMarkerLine(b) && !IsMarkerLine(c)
    ensures NoMarkers([a, b, c])
  {
    hide IsMarkerLine;
    assert [a, b, c][1..] == [b, c] && [b, c][1..] == [c] && [c][1..] == [];
    assert NoMarkers([c]) && NoMarkers([b, c]);
  }

  lemma MarkerFenceLine(indent: string, m: string)
    requires IsIndent(indent) && m != "" && !IsSpace(m[0]) && !IsSpace(m[|m| - 1])
    ensures Strip(FenceLine(indent, m)) == m
  {
    StripMarker(indent, m);
  }

  // ----- The scan of a fenced document

  function Servers(ss: seq<Stmt>): nat {
    if ss == [] then 0 else (if OpensServer(ss[0]) then 1 else 0) + Servers(ss[1..])
  }

  lemma AddFenceFirst(b: string, place: Option<Place>, ss: seq<Stmt>, tail: string)
    requires ss != [] && (place.Some? ==> HasNewline(ss[0].gap))
    ensures var s := ss[0];
      var rest := Render(AddLines(b + s.gap + s.raw, Opening(b, s), ss[1..], FENCE_LINES)) + tail;
      Render(AddLines(b, place, ss, FENCE_LINES)) + tail ==
        match place
        case None => s.gap + s.raw + rest
        case Some(p) => Lead(s.gap) + Content(p.indent, FENCE_LINES) + Trail(s.gap) + s.raw + rest
  {
    hide Content, Lead, Trail, Fill, Opening;
    var s := ss[0];
    var more := AddLines(b + s.gap + s.raw, Opening(b, s), ss[1..], FENCE_LINES);
    match place
    case None =>
      assert ([s] + more)[1..] == more;
    case Some(p) =>
      AddedRender(p, s, more, tail, FENCE_LINES);
  }

  lemma PartsOfLines(x: string, y: string)
    requires EndsLine(x) && NoMarkers(Lines(x + y))
    ensures NoMarkers(Lines(x)) && NoMarkers(Lines(y)) && Join(Lines(x)) == x
  {
    hide Lines, IsMarkerLine;
    LinesConcat(x, y);
    NoMarkersSplit(Lines(x), Lines(y));
    JoinLines(x);
  }

  /** The scan of text without markers, a fence, and more text. */
  lemma ScanFenced(x: string, indent: string, y: string, found: nat)
    requires EndsLine(x) && NoMarkers(Lines(x)) && Join(Lines(x)) == x && IsIndent(indent)
    ensures var r := Scan(Lines(y), false, found + 1);
      Scan(Lines(x + Content(indent, FENCE_LINES) + y), false, found)
        == if r.Ok? then Ok((x + r.value.0, r.value.1)) else Err(r.error)
  {
    hide Scan, Lines, IsMarkerLine, Content, IsIndent, FenceOf, Join;
    var c := Content(indent, FENCE_LINES);
    assert x + c + y == x + (c + y);
    LinesConcat(x, c + y);
    ContentEndsLine(indent);
    LinesConcat(c, y);
    LinesOfFence(indent);
    FenceIsFence(indent);
    ScanOverFence(FenceOf(indent), Lines(y), found);
    ScanOverPlain(Lines(x), FenceOf(indent) + Lines(y), found);
  }

  lemma ContentEndsLine(indent: string)
    ensures EndsLine(Content(indent, FENCE_LINES)) && Content(indent, FENCE_LINES) != ""
  {
    hide Phrase, Content;
    ContentIs(indent);
  }

  lemma LeadEndsLine(gap: string, x: string)
    ensures EndsLine(x + Lead(gap))
  {}

  lemma ScanWhole(x: string, found: nat)
    requires NoMarkers(Lines(x))
    ensures Scan(Lines(x), false, found) == Ok((x, found))
  {
    hide Scan, Lines, IsMarkerLine;
    ScanPlain(Lines(x), found);
    JoinLines(x);
  }

  /** The text around a fence, cut where the fence goes. */
  lemma GapParts(x: string, p: Place, s: Stmt, after: string, fenced: string)
    requires HasNewline(s.gap) && NoMarkers(Lines(x + (s.gap + s.raw + after)))
    ensures var y, z := x + Lead(s.gap), Trail(s.gap) + s.raw;
      && EndsLine(y) && NoMarkers(Lines(y)) && NoMarkers(Lines(z + after)) && Join(Lines(y)) == y
      && y + (z + after) == x + (s.gap + s.raw + after)
      && x + (Lead(s.gap) + Content(p.indent, FENCE_LINES) + Trail(s.gap) + s.raw + fenced)
           == y + Content(p.indent, FENCE_LINES) + (z + fenced)
  {
    hide Lines, Content, NoMarkers, Lead, Trail, Join, EndsLine, HasNewline;
    var y, z := x + Lead(s.gap), Trail(s.gap) + s.raw;
    GapSplit(s.gap);
    LeadEndsLine(s.gap, x);
    assert y + (z + after) == x + (s.gap + s.raw + after);
    PartsOfLines(y, z + after);
  }

  /** One fence and the statement behind it, given the scan of what follows. */
  lemma ScanPlaced(x: string, p: Place, s: Stmt, after: string, fenced: string, found: nat, count: nat)
    requires HasNewline(s.gap) && IsIndent(p.indent) && NoMarkers(Lines(x + (s.gap + s.raw + after)))
    requires var z := Trail(s.gap) + s.raw; Scan(Lines(z + fenced), false, found + 1) == Ok((z + after, count))
    ensures Scan(Lines(x + (Lead(s.gap) + Content(p.indent, FENCE_LINES) + Trail(s.gap) + s.raw + fenced)), false, found)
         == Ok((x + (s.gap + s.raw + after), count))
  {
    hide Scan, Lines, HasNewline, Content, NoMarkers, IsIndent, EndsLine, Lead, Trail, Join;
    var y, z := x + Lead(s.gap), Trail(s.gap) + s.raw;
    GapParts(x, p, s, after, fenced);
    ScanFenced(y, p.indent, z + fenced, found);
  }

  /** A statement with no fence before it, given the scan of what follows. */
  lemma ScanSkipped(x: string, s: Stmt, after: string, fenced: string, found: nat, count: nat)
    requires var y := x + s.gap + s.raw; Scan(Lines(y + fenced), false, found) == Ok((y + after, count))
    ensures Scan(Lines(x + (s.gap + s.raw + fenced)), false, found) == Ok((x + (s.gap + s.raw + after), count))
  {
    hide Scan, Lines;
    assert x + (s.gap + s.raw + after) == (x + s.gap + s.raw) + after;
    assert x + (s.gap + s.raw + fenced) == (x + s.gap + s.raw) + fenced;
  }

  lemma RenderFirst(ss: seq<Stmt>, tail: string)
    requires ss != []
    ensures Render(ss) + tail == ss[0].gap + ss[0].raw + (Render(ss[1..]) + tail)
  {}

  /** What stands in front of the rest of the text when the scan gets there. */
  function Before(x: string, place: Option<Place>, s: Stmt): string {
    if place.Some? then Trail(s.gap) + s.raw else x + s.gap + s.raw
  }

  function Placed(place: Option<Place>): nat { if place.Some? then 1 else 0 }

  /** One statement of the scan, given the scan of what follows. */
  lemma ScanFencedStep(x: string, b: string, place: Option<Place>, ss: seq<Stmt>, tail: string, found: nat)
    requires ss != [] && (place.Some? ==> HasNewline(ss[0].gap) && IsIndent(place.value.indent)) && Reads(ss[0])
    requires NoMarkers(Lines(x + (Render(ss) + tail)))
    requires var s, rest := ss[0], ss[1..]; var y, opening := Before(x, place, s), Opening(b, s);
      Scan(Lines(y + (Render(AddLines(b + s.gap + s.raw, opening, rest, FENCE_LINES)) + tail)), false, found + Placed(place))
        == Ok((y + (Render(rest) + tail), found + Placed(place) + Servers(rest) + Placed(opening)))
    ensures Scan(Lines(x + (Render(AddLines(b, place, ss, FENCE_LINES)) + tail)), false, found)
         == Ok((x + (Render(ss) + tail), found + Servers(ss) + Placed(place)))
  {
    hide Scan, Lines, AddLines, Opening, OpensServer, HasNewline, Content, NoMarkers, IsIndent, Lead, Trail, Render,
      Reads;
    var s, rest := ss[0], ss[1..];
    var after := Render(rest) + tail;
    var fenced := Render(AddLines(b + s.gap + s.raw, Opening(b, s), rest, FENCE_LINES)) + tail;
    OpeningOf(b, s);
    AddFenceFirst(b, place, ss, tail);
    RenderFirst(ss, tail);
    var count := found + Placed(place) + Servers(rest) + Placed(Opening(b, s));
    match place
    case None => ScanSkipped(x, s, after, fenced, found, count);
    case Some(p) => ScanPlaced(x, p, s, after, fenced, found, count);
  }

  lemma BeforeHasNone(x: string, place: Option<Place>, ss: seq<Stmt>, tail: string)
    requires ss != [] && (place.Some? ==> HasNewline(ss[0].gap))
    requires NoMarkers(Lines(x + (Render(ss) + tail)))
    ensures NoMarkers(Lines(Before(x, place, ss[0]) + (Render(ss[1..]) + tail)))
  {
    hide Lines, HasNewline, NoMarkers, Lead, Trail, Render, Content;
    var s, after := ss[0], Render(ss[1..]) + tail;
    RenderFirst(ss, tail);
    match place
    case None => assert x + (s.gap + s.raw + after) == (x + s.gap + s.raw) + after;
    case Some(p) => GapParts(x, p, s, after, "");
  }

  /** The scan takes the fences out again and finds one block for each server. */
  lemma {:induction false} ScanFencedDoc(x: string, b: string, place: Option<Place>, ss: seq<Stmt>, tail: string,
                                         found: nat)
    requires Readable(ss) && Ready(place.Some?, ss) && (place.Some? ==> ss != [] && IsIndent(place.value.indent))
    requires Continuing(ss)
    requires NoMarkers(Lines(x + (Render(ss) + tail)))
    ensures Scan(Lines(x + (Render(AddLines(b, place, ss, FENCE_LINES)) + tail)), false, found)
         == Ok((x + (Render(ss) + tail), found + Servers(ss) + Placed(place)))
    decreases |ss|
  {
    hide Scan, Lines, Reads, AddLines, Opening, OpensServer, HasNewline, NoMarkers, IsIndent, Render, Before;
    if ss == [] {
      assert AddLines(b, place, ss, FENCE_LINES) == [] by { NoFenceLines(b, place); }
      ScanWhole(x + (Render(ss) + tail), found);
    } else {
      var s, rest := ss[0], ss[1..];
      RawNotEmpty(s);
      OpeningOf(b, s);
      PlaceIsIndent(b, s);
      BeforeHasNone(x, place, ss, tail);
      ScanFencedDoc(Before(x, place, s), b + s.gap + s.raw, Opening(b, s), rest, tail, found + Placed(place));
      ScanFencedStep(x, b, place, ss, tail, found);
    }
  }

  lemma NoFenceLines(b: string, place: Option<Place>)
    ensures AddLines(b, place, [], FENCE_LINES) == []
  {}

  /** A statement follows every server's brace. */
  predicate Continuing(ss: seq<Stmt>) {
    ss == [] || ((OpensServer(ss[0]) ==> |ss| > 1) && Continuing(ss[1..]))
  }

  lemma {:induction false} DocContinues(sc: Scope, ss: seq<Stmt>, tail: string)
    requires WellFormed(sc, ss, tail)
    ensures Continuing(ss)
    decreases |ss|
  {
    hide Reads, Fits, Enter, OpensServer;
    if ss != [] {
      DocContinues(Enter(sc, ss[0]), ss[1..], tail);
      if OpensServer(ss[0]) { MoreToCome(sc, ss, tail); }
    }
  }

  // ----- Counting markers

  lemma {:induction false} CountSkip(m: string, a: string, b: string)
    requires MarkerLike(m) && '#' !in a
    ensures Count(m, a + b) == Count(m, b)
    decreases |a|
  {
    if a == "" {
      assert a + b == b;
    } else {
      var s := a + b;
      assert s[1..] == a[1..] + b;
      CountSkip(m, a[1..], b);
      if |s| >= |m| { assert s[..|m|][0] == a[0] && a[0] in a; }
      else { CountShort(m, b); }
    }
  }

  lemma CountShort(m: string, b: string)
    requires m != "" && |b| < |m|
    ensures Count(m, b) == 0
  {}

  lemma CountNoHash(m: string, a: string)
    requires MarkerLike(m) && '#' !in a
    ensures Count(m, a) == 0
  {
    CountSkip(m, a, "");
    assert a + "" == a;
    CountShort(m, "");
  }

  lemma CountIndented(m: string, indent: string, line: string)
    requires MarkerLike(m) && IsIndent(indent)
    ensures Count(m, FenceLine(indent, line)) == Count(m, line + "\n")
  {
    hide Count, MarkerLike;
    IndentQuiet(indent);
    assert m != "" by { MarkerLikeNotEmpty(m); }
    CountSkip(m, indent, line + "\n");
    assert indent + (line + "\n") == FenceLine(indent, line);
  }

  lemma MarkerLikeNotEmpty(m: string)
    requires MarkerLike(m)
    ensures m != ""
  {}

  lemma CountOwnLine(m: string)
    requires MarkerLike(m)
    ensures Count(m, m + "\n") == 1
  {
    var s := m + "\n";
    assert s[..|m|] == m && s[|m|..] == "\n";
    CountNoHash(m, "\n");
  }

  lemma CountLongerLine(m: string, line: string)
    requires MarkerLike(m) && |m| < |line| && '#' !in line[1..] && line[..|m|] != m
    ensures Count(m, line + "\n") == 0
  {
    var s := line + "\n";
    assert s[..|m|] == line[..|m|];
    assert s[1..] == line[1..] + "\n";
    CountNoHash(m, s[1..]);
  }

  lemma CountShorterLine(m: string, line: string)
    requires MarkerLike(m) && line != "" && '#' !in line[1..] && |line| < |m| && '\n' !in m
    ensures Count(m, line + "\n") == 0
  {
    var s := line + "\n";
    var c := m[|m| - 1];
    assert c in m;
    if |s| == |m| {
      assert s[..|m|] == s && s[|m| - 1] == '\n';
      assert s[1..] == line[1..] + "\n";
      CountNoHash(m, s[1..]);
    }
  }

  lemma NoHashInBegin()
    ensures '#' !in MAINTENANCE_BEGIN[1..]
  {}

  lemma NoHashInEnd()
    ensures '#' !in MAINTENANCE_END[1..]
  {}

  lemma NoHashBehindFirst()
    ensures '#' !in MAINTENANCE_BEGIN[1..] && '#' !in MAINTENANCE_END[1..]
    ensures MAINTENANCE_BEGIN[..|MAINTENANCE_END|] != MAINTENANCE_END && |MAINTENANCE_END| < |MAINTENANCE_BEGIN|
  {
    NoHashInBegin();
    NoHashInEnd();
    assert MAINTENANCE_BEGIN[..|MAINTENANCE_END|][27] != MAINTENANCE_END[27];
  }

  /** A fence holds each marker once. */
  lemma CountOfFence(m: string, indent: string)
    requires IsIndent(indent) && (m == MAINTENANCE_BEGIN || m == MAINTENANCE_END)
    ensures Count(m, Content(indent, FENCE_LINES)) == 1
  {
    hide Count, MarkerLike, Quiet, Phrase, FenceLine, IsIndent, Content;
    Markers();
    FenceWordsQuiet();
    ContentIs(indent);
    NoHashBehindFirst();
    MarkerNoNewline(m);
    CountIndented(m, indent, MAINTENANCE_BEGIN);
    CountIndented(m, indent, MAINTENANCE_END);
    CountOwnLine(m);
    if m == MAINTENANCE_BEGIN {
      CountShorterLine(m, MAINTENANCE_END);
    } else {
      CountLongerLine(m, MAINTENANCE_BEGIN);
    }
    var a, e := FenceLine(indent, MAINTENANCE_BEGIN), FenceLine(indent, MAINTENANCE_END);
    var b, c, d := Phrase(RETRY_AFTER_WORDS), Phrase(NO_STORE_WORDS), Phrase(RETURN_503_WORDS);
    QuietCount(m, indent, d, e);
    QuietCount(m, indent, c, FenceLine(indent, d) + e);
    QuietCount(m, indent, b, FenceLine(indent, c) + (FenceLine(indent, d) + e));
    CountBehindLine(m, indent, MAINTENANCE_BEGIN, FenceLine(indent, b) + (FenceLine(indent, c) + (FenceLine(indent, d) + e)));
  }

  lemma MarkerNoNewline(m: string)
    requires MarkerText(m)
    ensures '\n' !in m && m != ""
  {
    assert forall c <- m :: !IsSeal(c);
  }

  lemma QuietCount(m: string, indent: string, line: string, rest: string)
    requires MarkerLike(m) && IsIndent(indent) && Quiet(line)
    ensures Count(m, FenceLine(indent, line) + rest) == Count(m, rest)
  {
    IndentQuiet(indent);
    CountSkip(m, FenceLine(indent, line), rest);
  }

  lemma CountBehindLine(m: string, indent: string, line: string, rest: string)
    requires MarkerText(m)
    ensures Count(m, FenceLine(indent, line) + rest) == Count(m, FenceLine(indent, line)) + Count(m, rest)
  {
    MarkerNoNewline(m);
    CountConcat(m, FenceLine(indent, line), rest);
  }

  lemma CountAfterLine(m: string, x: string, y: string)
    requires MarkerText(m) && EndsLine(x)
    ensures Count(m, x + y) == Count(m, x) + Count(m, y)
  {
    hide Count;
    MarkerNoNewline(m);
    CountConcat(m, x, y);
  }

  lemma CountAfterStmt(m: string, s: Stmt, y: string)
    requires MarkerText(m) && Reads(s)
    ensures Count(m, s.gap + s.raw + y) == Count(m, s.gap + s.raw) + Count(m, y)
  {
    hide Count, Run;
    MarkerNoNewline(m);
    assert forall c <- m :: !IsSeal(c);
    CountConcat(m, s.gap + s.raw, y);
  }

  lemma CountFencedStep(m: string, b: string, place: Option<Place>, ss: seq<Stmt>, tail: string)
    requires m == MAINTENANCE_BEGIN || m == MAINTENANCE_END
    requires ss != [] && (place.Some? ==> HasNewline(ss[0].gap) && IsIndent(place.value.indent)) && Reads(ss[0])
    requires var s, rest := ss[0], ss[1..]; var opening := Opening(b, s);
      Count(m, Render(AddLines(b + s.gap + s.raw, opening, rest, FENCE_LINES)) + tail)
        == Count(m, Render(rest) + tail) + Servers(rest) + Placed(opening)
    ensures Count(m, Render(AddLines(b, place, ss, FENCE_LINES)) + tail)
         == Count(m, Render(ss) + tail) + Servers(ss) + Placed(place)
  {
    hide Count, Reads, AddLines, Opening, OpensServer, HasNewline, Content, IsIndent, Lead, Trail, MarkerText, Render;
    Markers();
    var s, rest := ss[0], ss[1..];
    var fenced := Render(AddLines(b + s.gap + s.raw, Opening(b, s), rest, FENCE_LINES)) + tail;
    OpeningOf(b, s);
    AddFenceFirst(b, place, ss, tail);
    RenderFirst(ss, tail);
    CountAfterStmt(m, s, Render(rest) + tail);
    CountAfterStmt(m, s, fenced);
    match place
    case None =>
    case Some(p) =>
      GapSplit(s.gap);
      FencedGap(m, p, s, fenced);
  }

  /** A fenced document has one more of each marker for every server. */
  lemma {:induction false} CountFencedDoc(m: string, b: string, place: Option<Place>, ss: seq<Stmt>, tail: string)
    requires m == MAINTENANCE_BEGIN || m == MAINTENANCE_END
    requires Readable(ss) && Ready(place.Some?, ss) && Continuing(ss)
    requires (place.Some? ==> ss != [] && IsIndent(place.value.indent))
    ensures Count(m, Render(AddLines(b, place, ss, FENCE_LINES)) + tail)
         == Count(m, Render(ss) + tail) + Servers(ss) + Placed(place)
    decreases |ss|
  {
    hide Count, Reads, AddLines, Opening, OpensServer, HasNewline, IsIndent, Render;
    if ss == [] {
      assert AddLines(b, place, ss, FENCE_LINES) == [] by { NoFenceLines(b, place); }
    } else {
      var s, rest := ss[0], ss[1..];
      RawNotEmpty(s);
      OpeningOf(b, s);
      PlaceIsIndent(b, s);
      CountFencedDoc(m, b + s.gap + s.raw, Opening(b, s), rest, tail);
      CountFencedStep(m, b, place, ss, tail);
    }
  }

  lemma FencedGap(m: string, p: Place, s: Stmt, fenced: string)
    requires m == MAINTENANCE_BEGIN || m == MAINTENANCE_END
    requires IsIndent(p.indent) && s.gap == Lead(s.gap) + Trail(s.gap)
    ensures Count(m, Lead(s.gap) + Content(p.indent, FENCE_LINES) + Trail(s.gap) + s.raw + fenced)
         == Count(m, s.gap + s.raw + fenced) + 1
  {
    hide Count, Content, IsIndent, EndsLine, Lead, Trail, MarkerText;
    Markers();
    var x, c, z := Lead(s.gap), Content(p.indent, FENCE_LINES), Trail(s.gap) + s.raw + fenced;
    LeadEndsLine(s.gap, "");
    assert "" + x == x;
    ContentEndsLine(p.indent);
    CountAfterLine(m, x, c + z);
    CountAfterLine(m, c, z);
    CountAfterLine(m, x, z);
    CountOfFence(m, p.indent);
    assert x + (c + z) == x + c + Trail(s.gap) + s.raw + fenced;
    assert x + z == s.gap + s.raw + fenced;
  }

  lemma {:induction false} ServersAre(ss: seq<Stmt>)
    ensures Servers(ss) == |ServerIds(Items(ss))|
  {
    hide OpensServer, OpensServerItem, View;
    if ss != [] {
      ServersAre(ss[1..]);
      assert Items(ss)[0] == View(ss[0]) && Items(ss)[1..] == Items(ss[1..]);
      ServerView(ss[0]);
    }
  }

  // ----- The fenced document

  /** Fencing a site adds one begin and one end marker for each server, and removing the fences gives the site back. */
  lemma FencedText(d: Doc)
    requires DocOk(d) && Ready(false, d.stmts) && NoMarkers(Lines(RenderDoc(d)))
    requires !Occurs(MAINTENANCE_END, RenderDoc(d))
    ensures var text, n := RenderDoc(WithFence(d)), |ServerIds(Items(d.stmts))|;
      && Count(MAINTENANCE_END, text) == n
      && Count(MAINTENANCE_BEGIN, text) == Count(MAINTENANCE_BEGIN, RenderDoc(d)) + n
      && RemoveMaintenance(text) == Ok(RenderDoc(d))
  {
    hide WellFormed, Count, Scan, Lines, AddLines, Occurs, Readable, Ready, Continuing, Items, ServerIds, NoMarkers,
      Render;
    DocReads(d);
    DocContinues(OUTSIDE, d.stmts, d.tail);
    ServersAre(d.stmts);
    CountFencedDoc(MAINTENANCE_BEGIN, "", None, d.stmts, d.tail);
    CountFencedDoc(MAINTENANCE_END, "", None, d.stmts, d.tail);
    MarkersDiffer();
    OccursCount(MAINTENANCE_END, RenderDoc(d));
    assert "" + RenderDoc(d) == RenderDoc(d);
    ScanFencedDoc("", "", None, d.stmts, d.tail, 0);
    assert "" + RenderDoc(WithFence(d)) == RenderDoc(WithFence(d));
  }
}
