/** Putting lines at the start of every server block: insertion points computed on the original text, filled together,
    equal to adding statements to the document. */
module NginxInsertion {
  import opened Options
  import opened PythonText
  import opened NginxText
  import opened NginxLexer
  import opened NginxParser
  import opened NginxDocument
  import opened NginxGaps
  import opened NginxRemoval
  import opened NginxPhrases

  function ServerBlocks(blocks: seq<Block>): seq<Block> {
    if blocks == [] then []
    else (if blocks[0].name == "server" then [blocks[0]] else []) + ServerBlocks(blocks[1..])
  }

  datatype Insertion = Insertion(offset: int, content: string)

  const INDENT := "    "

  /** Where `_insertion_point` puts its line: at the start of the next line when the rest of the opener's line is blank
      or a comment, else right behind the brace. */
  function IndentOf(text: string, server: Block): string {
    Margin(Mid(text, LineStart(text, server.opener.start), server.opener.start)) + INDENT
  }

  predicate NextLine(text: string, server: Block) {
    var lineEnd := LineEnd(text, server.opener.end);
    var remainder := Mid(text, server.opener.end, lineEnd);
    lineEnd != |text| && (Blank(remainder) || (StripLeft(remainder) != "" && StripLeft(remainder)[0] == '#'))
  }

  function InsertionPoint(text: string, server: Block): Insertion {
    var indent := IndentOf(text, server);
    if NextLine(text, server) then Insertion(LineEnd(text, server.opener.end) + 1, indent + REDACTED_ACCESS_LOG + "\n")
    else Insertion(server.opener.end, "\n" + indent + REDACTED_ACCESS_LOG + "\n")
  }

  /** The text from `from` on with the insertions made, all at once. */
  function Weave(text: string, insertions: seq<Insertion>, from: int): string {
    if insertions == [] then From(text, from)
    else Mid(text, from, insertions[0].offset) + insertions[0].content
         + Weave(text, insertions[1..], insertions[0].offset)
  }

  // ----- Inserted lines

  /** An inserted line: a comment, or a statement with its words. */
  datatype Line = Note(text: string) | Code(words: seq<string>)

  function LineText(l: Line): string {
    match l
    case Note(text) => text
    case Code(words) => Phrase(words)
  }

  /** The lines, each behind the indent. */
  function Content(indent: string, lines: seq<Line>): string {
    if lines == [] then "" else indent + LineText(lines[0]) + "\n" + Content(indent, lines[1..])
  }

  predicate LineOk(l: Line) {
    match l
    case Note(text) => text != "" && text[0] == '#' && !HasNewline(text)
    case Code(words) =>
      && words != [] && LexesAs(Phrase(words), words, ';')
      && DirectiveName(words[0]) == Ok(words[0])
  }

  predicate LinesOk(lines: seq<Line>) { lines == [] || (LineOk(lines[0]) && LinesOk(lines[1..])) }

  /** Where lines go in a document: their indent, and the blocks around them. */
  datatype Place = Place(indent: string, chain: seq<nat>)

  function HeadWord(words: seq<string>): string { if words == [] then "" else words[0] }

  /** The statements of the lines, and the gap text they leave behind them. `carry` is the gap text before them. */
  function Fill(place: Place, lines: seq<Line>, carry: string): (seq<Stmt>, string) {
    if lines == [] then ([], carry)
    else match lines[0]
      case Note(text) => Fill(place, lines[1..], carry + place.indent + text + "\n")
      case Code(words) =>
        var r := Fill(place, lines[1..], "\n");
        ([Stmt(carry + place.indent, Phrase(words), words, ';', HeadWord(words), place.chain, 0)] + r.0, r.1)
  }

  predicate OpensServer(s: Stmt) { s.term == '{' && s.name == "server" }

  /** The place behind a server's opening brace. */
  function PlaceIn(before: string, s: Stmt): Place
    requires s.raw != ""
  {
    Place(Margin(LastLine(before + s.gap + s.raw[..|s.raw| - 1])) + INDENT, s.chain + [s.id])
  }

  function Lead(gap: string): string { if HasNewline(gap) then Head(gap) + "\n" else "\n" }

  function Trail(gap: string): string { if HasNewline(gap) then AfterNewline(gap) else gap }

  function Opening(before: string, s: Stmt): Option<Place> {
    if OpensServer(s) && s.raw != "" then Some(PlaceIn(before, s)) else None
  }

  /** The document with the lines at the start of every server block. `place` says that a server was opened just before.
      */
  function AddLines(before: string, place: Option<Place>, ss: seq<Stmt>, lines: seq<Line>): seq<Stmt>
    decreases |ss|
  {
    if ss == [] then []
    else
      var s := ss[0];
      var rest := AddLines(before + s.gap + s.raw, Opening(before, s), ss[1..], lines);
      match place
      case None => [s] + rest
      case Some(p) =>
        var f := Fill(p, lines, Lead(s.gap));
        f.0 + [s.(gap := f.1 + Trail(s.gap))] + rest
  }

  // ----- What the lines render to

  lemma {:induction false} RenderFill(place: Place, lines: seq<Line>, carry: string)
    ensures var f := Fill(place, lines, carry); Render(f.0) + f.1 == carry + Content(place.indent, lines)
    decreases |lines|
  {
    hide Phrase;
    if lines == [] {
      assert carry + "" == carry && Render([]) + carry == carry;
    } else {
      var rest := lines[1..];
      match lines[0]
      case Note(text) =>
        RenderFill(place, rest, carry + place.indent + text + "\n");
        assert carry + place.indent + text + "\n" + Content(place.indent, rest)
            == carry + (place.indent + text + "\n" + Content(place.indent, rest));
      case Code(words) =>
        RenderFill(place, rest, "\n");
        var s := Stmt(carry + place.indent, Phrase(words), words, ';', HeadWord(words), place.chain, 0);
        var r := Fill(place, rest, "\n");
        RenderConcat([s], r.0);
        RenderOneStmt(s);
        assert s.gap + s.raw + (Render(r.0) + r.1) == s.gap + s.raw + Render(r.0) + r.1;
        assert carry + place.indent + Phrase(words) + ("\n" + Content(place.indent, rest))
            == carry + (place.indent + Phrase(words) + "\n" + Content(place.indent, rest));
    }
  }

  lemma RenderOneStmt(s: Stmt)
    ensures Render([s]) == s.gap + s.raw
  {
    assert [s][1..] == [];
    assert s.gap + s.raw + "" == s.gap + s.raw;
  }

  // ----- One insertion point

  function BlockAt(s: Stmt, at: int): Block
    requires Reads(s)
  {
    Block(s.id, s.name, StmtTokens(s, at)[|s.words|], s.chain)
  }

  lemma OpenerOffsets(s: Stmt, at: int)
    requires Reads(s)
    ensures BlockAt(s, at).opener.start == at + |s.gap| + |s.raw| - 1
    ensures BlockAt(s, at).opener.end == at + |s.gap| + |s.raw|
    ensures BlockAt(s, at).name == s.name && s.raw != ""
  {}

  lemma IndentOfServer(b: string, s: Stmt, after: string)
    requires Reads(s)
    ensures IndentOf(b + s.gap + s.raw + after, BlockAt(s, |b|)) == PlaceIn(b, s).indent
  {
    hide Reads, BlockAt, Margin, Mid, LineStart, LastLine;
    OpenerOffsets(s, |b|);
    var n := |s.raw| - 1;
    var before := b + s.gap + s.raw[..n];
    var text := b + s.gap + s.raw + after;
    assert s.raw == s.raw[..n] + s.raw[n..];
    assert text == before + (s.raw[n..] + after);
    assert text[..|before|] == before;
    MidLast(text, before);
  }

  /** The rest of the opener's line is blank or a comment exactly when the gap behind the brace has a newline. */
  lemma NextLineOfServer(b: string, s: Stmt, rest: seq<Stmt>, tail: string)
    requires Reads(s) && rest != [] && Readable(rest)
    ensures var text := b + s.gap + s.raw + (Render(rest) + tail);
      && (NextLine(text, BlockAt(s, |b|)) <==> HasNewline(rest[0].gap))
      && (HasNewline(rest[0].gap) ==>
            LineEnd(text, BlockAt(s, |b|).opener.end) == |b + s.gap + s.raw| + |Head(rest[0].gap)|)
  {
    hide BlockAt, Run, Mid, From, StripLeft, Head, Blank, HasNewline, Render;
    OpenerOffsets(s, |b|);
    var before, after := b + s.gap + s.raw, Render(rest) + tail;
    MidHead(before, after);
    SliceOfConcat(before, after, "");
    assert before + after + "" == before + after && after + "" == after;
    OpenerLine(rest, tail);
  }

  lemma OpenerLine(rest: seq<Stmt>, tail: string)
    requires rest != [] && Readable(rest)
    ensures var after := Render(rest) + tail; var h := Head(after);
      && (HasNewline(rest[0].gap) ==>
            |h| < |after| && h == Head(rest[0].gap) && (Blank(h) || (StripLeft(h) != "" && StripLeft(h)[0] == '#')))
      && (!HasNewline(rest[0].gap) ==> !Blank(h) && StripLeft(h) != "" && StripLeft(h)[0] != '#')
  {
    hide Run, IsSpace;
    var s := rest[0];
    var more := s.raw + (Render(rest[1..]) + tail);
    assert Render(rest) + tail == s.gap + more;
    HeadConcat(s.gap, more);
    if HasNewline(s.gap) {
      GapHead(s.gap);
      HeadSplit(s.gap);
    } else {
      GapLines(s.gap);
      assert more[0] == s.raw[0];
      NewlineIsSpace();
      assert Head(more)[0] == s.raw[0];
      StripBlank(s.gap, Head(more));
    }
  }

  lemma NewlineIsSpace()
    ensures IsSpace('\n')
  {}

  lemma {:induction false} StripBlank(blank: string, t: string)
    requires Blank(blank) && t != "" && !IsSpace(t[0])
    ensures StripLeft(blank + t) == t && !Blank(blank + t)
  {
    if blank == "" {
      assert blank + t == t;
      assert t[0] in t;
    } else {
      assert (blank + t)[1..] == blank[1..] + t;
      assert blank[0] in blank;
      assert Blank(blank[1..]) by { assert forall c :: c in blank[1..] ==> c in blank; }
      StripBlank(blank[1..], t);
      assert t[0] in blank + t;
    }
  }

  // ----- All insertion points

  function AddedAt(b: string, gap: string): int { |b| + if HasNewline(gap) then |Head(gap)| + 1 else 0 }

  function Added(b: string, p: Place, gap: string, lines: seq<Line>): Insertion {
    Insertion(AddedAt(b, gap), (if HasNewline(gap) then "" else "\n") + Content(p.indent, lines))
  }

  /** The insertions of a document, in text order. */
  function LineInsertions(b: string, place: Option<Place>, ss: seq<Stmt>, lines: seq<Line>): seq<Insertion>
    decreases |ss|
  {
    if ss == [] then []
    else
      (match place case None => [] case Some(p) => [Added(b, p, ss[0].gap, lines)])
      + LineInsertions(b + ss[0].gap + ss[0].raw, Opening(b, ss[0]), ss[1..], lines)
  }

  predicate InOrder(insertions: seq<Insertion>, from: int, limit: int) {
    if insertions == [] then from <= limit
    else from <= insertions[0].offset && InOrder(insertions[1..], insertions[0].offset, limit)
  }

  lemma InOrderFrom(insertions: seq<Insertion>, from: int, to: int, limit: int)
    requires InOrder(insertions, to, limit) && from <= to
    ensures InOrder(insertions, from, limit)
  {}

  lemma {:induction false} InOrderLimit(insertions: seq<Insertion>, from: int, limit: int)
    requires InOrder(insertions, from, limit)
    ensures from <= limit
    ensures insertions != [] ==> insertions[0].offset <= limit
  {
    if insertions != [] { InOrderLimit(insertions[1..], insertions[0].offset, limit); }
  }

  lemma {:induction false} InsertionsInOrder(b: string, place: Option<Place>, ss: seq<Stmt>, tail: string,
                                             lines: seq<Line>)
    ensures InOrder(LineInsertions(b, place, ss, lines), |b|, |b + (Render(ss) + tail)|)
    decreases |ss|
  {
    hide Content, Opening, Head, HasNewline;
    if ss != [] {
      var s, next := ss[0], b + ss[0].gap + ss[0].raw;
      assert b + (Render(ss) + tail) == next + (Render(ss[1..]) + tail);
      InsertionsInOrder(next, Opening(b, s), ss[1..], tail, lines);
      HeadSplit(s.gap);
      var rest := LineInsertions(next, Opening(b, s), ss[1..], lines);
      InOrderFrom(rest, |b|, |next|, |b + (Render(ss) + tail)|);
      match place
      case None => assert [] + rest == rest;
      case Some(p) =>
        InOrderFrom(rest, AddedAt(b, s.gap), |next|, |b + (Render(ss) + tail)|);
        assert ([Added(b, p, s.gap, lines)] + rest)[1..] == rest;
    }
  }

  lemma WeaveSkip(text: string, insertions: seq<Insertion>, from: int, to: int)
    requires 0 <= from <= to <= |text| && InOrder(insertions, to, |text|)
    ensures Weave(text, insertions, from) == Mid(text, from, to) + Weave(text, insertions, to)
  {
    hide Mid, From;
    if insertions == [] {
      MidSlice(text, from, to);
      FromSlice(text, from);
      FromSlice(text, to);
      assert text[from..] == text[from..to] + text[to..];
    } else {
      InOrderLimit(insertions, to, |text|);
      MidJoin(text, from, to, insertions[0].offset);
    }
  }

  lemma GapSplit(gap: string)
    ensures HasNewline(gap) ==> gap == Lead(gap) + Trail(gap)
    ensures !HasNewline(gap) ==> Lead(gap) == "\n" && Trail(gap) == gap
    ensures var n := AddedAt("", gap);
      && n <= |gap|
      && gap[n..] == Trail(gap)
      && gap[..n] + (if HasNewline(gap) then "" else "\n") == Lead(gap)
  {
    HeadSplit(gap);
  }

  /** A statement with no insertion before it is copied. */
  lemma WeavePast(b: string, s: Stmt, after: string, ins: seq<Insertion>)
    requires var next := b + s.gap + s.raw; InOrder(ins, |next|, |next + after|)
    ensures var next := b + s.gap + s.raw; Weave(next + after, ins, |b|) == s.gap + s.raw + Weave(next + after, ins, |next|)
  {
    hide Mid, From, Weave, InOrder;
    var next := b + s.gap + s.raw;
    assert next + after == b + ((s.gap + s.raw) + after);
    WeaveSkip(next + after, ins, |b|, |next|);
    PiecesOfGap(b, s.gap + s.raw, after, 0);
    assert (s.gap + s.raw)[0..] == s.gap + s.raw;
  }

  /** Making the insertions in the text is adding the lines to the document. */
  lemma {:induction false} WeaveIsAddLines(b: string, place: Option<Place>, ss: seq<Stmt>, tail: string,
                                           lines: seq<Line>)
    ensures Weave(b + (Render(ss) + tail), LineInsertions(b, place, ss, lines), |b|)
         == Render(AddLines(b, place, ss, lines)) + tail
    decreases |ss|
  {
    hide Content, Opening, Lead, Trail, Fill, Mid, From, Weave, Added, InOrder;
    var text := b + (Render(ss) + tail);
    if ss == [] {
      WeaveNothing(b, tail);
    } else {
      var s, rest := ss[0], ss[1..];
      var next := b + s.gap + s.raw;
      var after := Render(rest) + tail;
      var more := AddLines(next, Opening(b, s), rest, lines);
      assert ss == [s] + rest;
      TextAround(b, s, rest, tail);
      WeaveIsAddLines(next, Opening(b, s), rest, tail, lines);
      InsertionsInOrder(next, Opening(b, s), rest, tail, lines);
      var ins := LineInsertions(next, Opening(b, s), rest, lines);
      match place
      case None =>
        assert [] + ins == ins;
        WeavePast(b, s, after, ins);
        assert text == next + after;
        RenderConcat([s], more);
        RenderOneStmt(s);
        assert s.gap + s.raw + (Render(more) + tail) == s.gap + s.raw + Render(more) + tail;
      case Some(p) =>
        WeaveAdded(b, p, s, after, lines, ins);
        AddedRender(p, s, more, tail, lines);
        assert AddLines(b, place, ss, lines) == Fill(p, lines, Lead(s.gap)).0
          + [s.(gap := Fill(p, lines, Lead(s.gap)).1 + Trail(s.gap))] + more;
    }
  }

  lemma WeaveNothing(b: string, tail: string)
    ensures Weave(b + (Render([]) + tail), [], |b|) == tail
  {
    assert Render([]) + tail == tail;
    FromSlice(b + tail, |b|);
    assert (b + tail)[|b|..] == tail;
  }

  lemma WeaveAdded(b: string, p: Place, s: Stmt, after: string, lines: seq<Line>, ins: seq<Insertion>)
    requires var text := b + s.gap + s.raw + after; InOrder(ins, |b + s.gap + s.raw|, |text|)
    ensures var text, next := b + s.gap + s.raw + after, b + s.gap + s.raw;
      Weave(text, [Added(b, p, s.gap, lines)] + ins, |b|)
        == Lead(s.gap) + Content(p.indent, lines) + Trail(s.gap) + s.raw + Weave(text, ins, |next|)
  {
    hide Content, Lead, Trail, Mid, From, HasNewline, Head;
    var text, next := b + s.gap + s.raw + after, b + s.gap + s.raw;
    var added := Added(b, p, s.gap, lines);
    var n := AddedAt("", s.gap);
    GapSplit(s.gap);
    assert ([added] + ins)[1..] == ins;
    assert text == b + (s.gap + (s.raw + after)) && text == b + ((s.gap + s.raw) + after);
    PiecesOfGap(b, s.gap, s.raw + after, 0);
    assert s.gap[0..n] == s.gap[..n];
    WeaveSkip(text, ins, |b| + n, |next|);
    PiecesOfGap(b, s.gap + s.raw, after, n);
    assert (s.gap + s.raw)[n..] == Trail(s.gap) + s.raw;
    var lead := if HasNewline(s.gap) then "" else "\n";
    assert s.gap[..n] + (lead + Content(p.indent, lines)) == s.gap[..n] + lead + Content(p.indent, lines);
    var w := Weave(text, ins, |next|);
    assert Lead(s.gap) + Content(p.indent, lines) + (Trail(s.gap) + s.raw + w)
        == Lead(s.gap) + Content(p.indent, lines) + Trail(s.gap) + s.raw + w;
  }

  lemma AddedRender(p: Place, s: Stmt, more: seq<Stmt>, tail: string, lines: seq<Line>)
    ensures var f := Fill(p, lines, Lead(s.gap));
      Render(f.0 + [s.(gap := f.1 + Trail(s.gap))] + more) + tail
        == Lead(s.gap) + Content(p.indent, lines) + Trail(s.gap) + s.raw + (Render(more) + tail)
  {
    hide Content, Lead, Trail, Fill;
    var f := Fill(p, lines, Lead(s.gap));
    var t := s.(gap := f.1 + Trail(s.gap));
    RenderFill(p, lines, Lead(s.gap));
    RenderConcat(f.0 + [t], more);
    RenderConcat(f.0, [t]);
    RenderOneStmt(t);
    assert Render(f.0) + (f.1 + Trail(s.gap) + s.raw) + Render(more) + tail
        == (Render(f.0) + f.1) + Trail(s.gap) + s.raw + (Render(more) + tail);
  }
}
