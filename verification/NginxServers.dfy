module NginxServers {

  // The insertion points of all servers of a document, and what adding lines to every server does to its meaning.

  import opened Options
  import opened NginxText
  import opened NginxLexer
  import opened NginxParser
  import opened NginxDocument
  import opened NginxGaps
  import opened NginxRemoval
  import opened NginxMeaning
  import opened NginxPhrases
  import opened NginxInsertion

  const LOG_LINES := [Code(ACCESS_LOG_WORDS)]

  function LogInsertions(text: string, servers: seq<Block>): seq<Insertion> {
    if servers == [] then [] else [InsertionPoint(text, servers[0])] + LogInsertions(text, servers[1..])
  }

  // ----- The blocks of a document

  function DocServers(ss: seq<Stmt>, at: int): seq<Block>
    requires Readable(ss)
  {
    if ss == [] then []
    else
      (if OpensServer(ss[0]) then [BlockAt(ss[0], at)] else [])
      + DocServers(ss[1..], at + |ss[0].gap| + |ss[0].raw|)
  }

  function ServerList(b: Block): seq<Block> { if b.name == "server" then [b] else [] }

  lemma ServerFirst(blocks: seq<Block>)
    requires blocks != []
    ensures ServerBlocks(blocks) == ServerList(blocks[0]) + ServerBlocks(blocks[1..])
  {}

  lemma NoServerBlocks()
    ensures ServerBlocks([]) == []
  {}

  lemma {:induction false} ServersConcat(a: seq<Block>, b: seq<Block>)
    ensures ServerBlocks(a + b) == ServerBlocks(a) + ServerBlocks(b)
  {
    hide ServerBlocks, ServerList;
    if a == [] {
      NoServerBlocks();
      assert a + b == b;
    } else {
      assert (a + b)[1..] == a[1..] + b;
      ServersConcat(a[1..], b);
      ServerFirst(a);
      ServerFirst(a + b);
      Assoc(ServerList(a[0]), ServerBlocks(a[1..]), ServerBlocks(b));
    }
  }

  lemma BlocksOfOne(n: Node)
    ensures BlocksOf([n]) == if n.term.value == "{" then [Block(n.id, n.name, n.term, n.chain)] else []
  {
    assert [n][..0] == [];
    assert BlocksOf([n][..0]) == [];
  }

  lemma ServersOfOne(k: Block)
    ensures ServerBlocks([k]) == (if k.name == "server" then [k] else []) && ServerBlocks([]) == []
  {
    assert [k][1..] == [];
  }

  lemma ServerOfNode(s: Stmt, at: int)
    requires Reads(s)
    ensures ServerBlocks(BlocksOf([NodeOf(s, at)])) == if OpensServer(s) then [BlockAt(s, at)] else []
  {
    hide Run, BlocksOf, ServerBlocks, LexesAs, GapText, StmtTokens;
    SplitStmt(s, at);
    MarkOf(s.term);
    BlocksOfOne(NodeOf(s, at));
    ServersOfOne(BlockAt(s, at));
  }

  lemma {:induction false} ServersOfDocument(ss: seq<Stmt>, at: int)
    requires Readable(ss)
    ensures ServerBlocks(BlocksOf(NodesOf(ss, at))) == DocServers(ss, at)
    decreases |ss|
  {
    hide Reads, BlockAt, NodeOf, OpensServer;
    if ss != [] {
      var here := at + |ss[0].gap| + |ss[0].raw|;
      ServerOfNode(ss[0], at);
      ServersOfDocument(ss[1..], here);
      DirectivesConcat([NodeOf(ss[0], at)], NodesOf(ss[1..], here));
      ServersConcat(BlocksOf([NodeOf(ss[0], at)]), BlocksOf(NodesOf(ss[1..], here)));
    }
  }

  // ----- Insertion points of a document

  lemma LogContent(indent: string)
    ensures Content(indent, LOG_LINES) == indent + REDACTED_ACCESS_LOG + "\n"
  {
    assert LOG_LINES[1..] == [];
    assert indent + REDACTED_ACCESS_LOG + "\n" + "" == indent + REDACTED_ACCESS_LOG + "\n";
  }

  /** The insertion point behind a server's brace is where the document adds its line. */
  lemma PointIsAdded(b: string, s: Stmt, rest: seq<Stmt>, tail: string)
    requires Reads(s) && rest != [] && Readable(rest) && OpensServer(s)
    ensures var text, next := b + s.gap + s.raw + (Render(rest) + tail), b + s.gap + s.raw;
      InsertionPoint(text, BlockAt(s, |b|)) == Added(next, PlaceIn(b, s), rest[0].gap, LOG_LINES)
  {
    hide Reads, BlockAt, IndentOf, NextLine, LineEnd, Content, PlaceIn, Head, HasNewline;
    OpenerOffsets(s, |b|);
    IndentOfServer(b, s, Render(rest) + tail);
    NextLineOfServer(b, s, rest, tail);
    LogContent(PlaceIn(b, s).indent);
    var line := PlaceIn(b, s).indent + REDACTED_ACCESS_LOG + "\n";
    assert "" + line == line;
    assert "\n" + PlaceIn(b, s).indent + REDACTED_ACCESS_LOG + "\n" == "\n" + line;
  }

  /** The first insertion, for a server opened just before the document. */
  function Pending(b: string, place: Option<Place>, ss: seq<Stmt>, lines: seq<Line>): seq<Insertion>
    requires ss != []
  {
    match place
    case None => []
    case Some(p) => [Added(b, p, ss[0].gap, lines)]
  }

  /** A scope in which another statement must come: some block is open. */
  lemma MoreToCome(sc: Scope, ss: seq<Stmt>, tail: string)
    requires WellFormed(sc, ss, tail) && ss != [] && OpensServer(ss[0])
    ensures ss[1..] != []
  {
    hide Reads;
  }

  lemma ServersFirst(text: string, ss: seq<Stmt>, at: int)
    requires ss != [] && Readable(ss)
    ensures var points := LogInsertions(text, DocServers(ss[1..], at + |ss[0].gap| + |ss[0].raw|));
      LogInsertions(text, DocServers(ss, at)) ==
        if OpensServer(ss[0]) then [InsertionPoint(text, BlockAt(ss[0], at))] + points else points
  {
    hide Reads, InsertionPoint, BlockAt, OpensServer;
    var more := DocServers(ss[1..], at + |ss[0].gap| + |ss[0].raw|);
    if OpensServer(ss[0]) {
      var k := BlockAt(ss[0], at);
      assert ([k] + more)[1..] == more;
    } else {
      assert [] + more == more;
    }
  }

  /** The log insertions of the servers are the document's insertions of the log line. */
  lemma {:induction false} LogPoints(sc: Scope, b: string, place: Option<Place>, ss: seq<Stmt>, tail: string)
    requires WellFormed(sc, ss, tail) && Readable(ss) && (place.Some? ==> ss != [])
    ensures var text := b + (Render(ss) + tail);
      LineInsertions(b, place, ss, LOG_LINES) ==
        (if ss == [] then [] else Pending(b, place, ss, LOG_LINES)) + LogInsertions(text, DocServers(ss, |b|))
    decreases |ss|
  {
    hide Reads, Fits, Enter, BlockAt, InsertionPoint, Added, Opening, PlaceIn, Render, LogInsertions, DocServers;
    if ss == [] {
      NoPoints(b + (Render(ss) + tail), b, place);
    } else {
      var s, rest := ss[0], ss[1..];
      var next := b + s.gap + s.raw;
      var text := b + (Render(ss) + tail);
      assert ss == [s] + rest;
      TextAround(b, s, rest, tail);
      assert text == next + (Render(rest) + tail);
      OpeningOf(b, s);
      ServersFirst(text, ss, |b|);
      if OpensServer(s) {
        MoreToCome(sc, ss, tail);
        PointIsAdded(b, s, rest, tail);
      }
      LogPoints(Enter(sc, s), next, Opening(b, s), rest, tail);
      NoneInserted(LogInsertions(text, DocServers(rest, |next|)));
    }
  }

  lemma NoPoints(text: string, b: string, place: Option<Place>)
    ensures LineInsertions(b, place, [], LOG_LINES) == [] && LogInsertions(text, DocServers([], |b|)) == []
  {}

  lemma OpeningOf(b: string, s: Stmt)
    requires Reads(s)
    ensures Opening(b, s) == if OpensServer(s) then Some(PlaceIn(b, s)) else None
  {
    hide Run, PlaceIn;
  }

  /** The log insertions of a text. */
  function InsertLogs(text: string, parsed: ParsedConfig): string {
    Weave(text, LogInsertions(text, ServerBlocks(parsed.blocks)), 0)
  }

  lemma InsertLogsIsAddLines(ss: seq<Stmt>, tail: string)
    requires WellFormed(OUTSIDE, ss, tail)
    ensures var text := Render(ss) + tail;
      && ParseNginx(text).Ok?
      && InsertLogs(text, ParseNginx(text).value) == Render(AddLines("", None, ss, LOG_LINES)) + tail
      && InOrder(LogInsertions(text, ServerBlocks(ParseNginx(text).value.blocks)), 0, |text|)
  {
    hide WellFormed, Weave, LogInsertions, LineInsertions, AddLines;
    var text := Render(ss) + tail;
    ParseDocument(ss, tail);
    ServersOfDocument(ss, 0);
    assert "" + text == text;
    LogPoints(OUTSIDE, "", None, ss, tail);
    WeaveIsAddLines("", None, ss, tail, LOG_LINES);
    InsertionsInOrder("", None, ss, tail, LOG_LINES);
    NoneInserted(LogInsertions(text, DocServers(ss, 0)));
    if ss == [] { NoInsertions(tail); }
  }

  lemma NoneInserted(ins: seq<Insertion>)
    ensures [] + ins == ins
  {}

  lemma NoInsertions(tail: string)
    ensures LineInsertions("", None, [], LOG_LINES) == []
  {}

  // ----- Meaning

  function CodeItems(lines: seq<Line>, chain: seq<nat>): seq<Item> {
    if lines == [] then []
    else
      (match lines[0]
       case Note(_) => []
       case Code(words) => [Item(words, ';', HeadWord(words), chain, 0)])
      + CodeItems(lines[1..], chain)
  }

  predicate OpensServerItem(i: Item) { i.term == '{' && i.name == "server" }

  /** Adding the lines' statements as the first ones of every server block. */
  function AddItems(chain: Option<seq<nat>>, items: seq<Item>, lines: seq<Line>): seq<Item>
    decreases |items|
  {
    if items == [] then []
    else
      (match chain case None => [] case Some(c) => CodeItems(lines, c))
      + [items[0]]
      + AddItems(if OpensServerItem(items[0]) then Some(items[0].chain + [items[0].id]) else None, items[1..], lines)
  }

  /** The scope at the start of a server block. */
  predicate AtServer(sc: Scope, chain: seq<nat>) {
    sc.stack != [] && sc.stack[|sc.stack| - 1].name == "server" && Ids(sc.stack) == chain
  }

  /** Blank text after a gap's line break stays a gap. */
  lemma LeadTrail(gap: string)
    requires GapText(gap)
    ensures GapText(Lead(gap)) && GapText(Trail(gap))
  {
    hide Run, Loose;
    HeadSplit(gap);
    BlankIsGap("\n");
    if HasNewline(gap) {
      var h := Head(gap);
      assert gap[..|h| + 1] == h + ['\n'];
      assert h + "\n" == h + ['\n'];
      LoosePrefixOfGap(gap, |h| + 1);
      LooseNewline(h);
      GapConcat(h + "\n", AfterNewline(gap));
    }
  }

  lemma LoosePrefixOfGap(gap: string, n: nat)
    requires GapText(gap) && n <= |gap|
    ensures Loose(Run(START, gap[..n]))
  {
    hide Run;
    LoosePrefix(gap, n);
  }

  lemma NoteIsGap(carry: string, indent: string, note: string)
    requires GapText(carry) && Blank(indent) && LineOk(Note(note))
    ensures GapText(carry + indent + note + "\n")
  {
    hide Step;
    BlankIsGap(indent);
    GapConcat(carry, indent);
    CommentIsGap(note);
    GapConcat(carry + indent, note + "\n");
    assert carry + indent + (note + "\n") == carry + indent + note + "\n";
  }

  lemma CommentIsGap(note: string)
    requires LineOk(Note(note))
    ensures GapText(note + "\n")
  {
    var body := note[1..];
    assert note == [note[0]] + body;
    assert !HasNewline(body) by { assert forall c :: c in body ==> c in note; }
    RunConcat(START, [note[0]], body);
    RunOne(START, '#');
    RunComment(Run(START, ['#']), body);
    assert note + "\n" == note + ['\n'];
    RunSnoc(START, note, '\n');
  }

  /** The filled lines fit where a server block starts. */
  lemma {:induction false} FillFits(sc: Scope, p: Place, lines: seq<Line>, carry: string, rest: seq<Stmt>, tail: string)
    requires AtServer(sc, p.chain) && Blank(p.indent) && GapText(carry) && LinesOk(lines)
    requires GapText(Fill(p, lines, carry).1) ==> WellFormed(sc, rest, tail)
    ensures var f := Fill(p, lines, carry);
      && GapText(f.1)
      && WellFormed(sc, f.0 + rest, tail)
      && Items(f.0 + rest) == CodeItems(lines, p.chain) + Items(rest)
    decreases |lines|
  {
    hide GapText, LexesAs, TailOk, Phrase, WellFormed, AtServer, LineOk, Blank, HeadWord, Fill, CodeItems, Items,
      LinesOk;
    FillFirst(p, lines, carry);
    if lines == [] {
      assert [] + rest == rest;
      assert [] + Items(rest) == Items(rest);
    } else {
      LinesOkFirst(lines);
      match lines[0]
      case Note(text) =>
        NoteIsGap(carry, p.indent, text);
        FillFits(sc, p, lines[1..], carry + p.indent + text + "\n", rest, tail);
      case Code(words) =>
        NewlineIsGap();
        FillFits(sc, p, lines[1..], "\n", rest, tail);
        var r := Fill(p, lines[1..], "\n").0;
        var s := Stmt(carry + p.indent, Phrase(words), words, ';', HeadWord(words), p.chain, 0);
        CodeFits(sc, p, words, carry, r + rest, tail);
        assert [s] + r + rest == [s] + (r + rest);
        var i := Item(words, ';', HeadWord(words), p.chain, 0);
        assert [i] + CodeItems(lines[1..], p.chain) + Items(rest) == [i] + (CodeItems(lines[1..], p.chain) + Items(rest));
    }
  }

  lemma LinesOkFirst(lines: seq<Line>)
    requires LinesOk(lines) && lines != []
    ensures LineOk(lines[0]) && LinesOk(lines[1..])
  {
    hide LineOk;
  }

  /** One line of a fill. */
  lemma FillFirst(p: Place, lines: seq<Line>, carry: string)
    ensures lines == [] ==> Fill(p, lines, carry) == ([], carry) && CodeItems(lines, p.chain) == []
    ensures lines != [] && lines[0].Note? ==>
      && Fill(p, lines, carry) == Fill(p, lines[1..], carry + p.indent + lines[0].text + "\n")
      && CodeItems(lines, p.chain) == CodeItems(lines[1..], p.chain)
    ensures lines != [] && lines[0].Code? ==>
      var words, f := lines[0].words, Fill(p, lines[1..], "\n");
      var s := Stmt(carry + p.indent, Phrase(words), words, ';', HeadWord(words), p.chain, 0);
      && Fill(p, lines, carry) == ([s] + f.0, f.1)
      && CodeItems(lines, p.chain) == [Item(words, ';', HeadWord(words), p.chain, 0)] + CodeItems(lines[1..], p.chain)
  {
    hide Phrase, HeadWord;
    if lines != [] {
      assert [] + CodeItems(lines[1..], p.chain) == CodeItems(lines[1..], p.chain);
    }
  }

  lemma NewlineIsGap()
    ensures GapText("\n")
  {
    BlankIsGap("\n");
  }

  lemma CodeFits(sc: Scope, p: Place, words: seq<string>, carry: string, rest: seq<Stmt>, tail: string)
    requires AtServer(sc, p.chain) && Blank(p.indent) && GapText(carry) && LineOk(Code(words))
    requires WellFormed(sc, rest, tail)
    ensures var s := Stmt(carry + p.indent, Phrase(words), words, ';', HeadWord(words), p.chain, 0);
      && WellFormed(sc, [s] + rest, tail)
      && Items([s] + rest) == [Item(words, ';', HeadWord(words), p.chain, 0)] + Items(rest)
  {
    hide GapText, LexesAs, Phrase, Blank;
    BlankIsGap(p.indent);
    GapConcat(carry, p.indent);
    var s := Stmt(carry + p.indent, Phrase(words), words, ';', HeadWord(words), p.chain, 0);
    assert ([s] + rest)[1..] == rest;
  }

  lemma IndentBlank(b: string, s: Stmt)
    requires s.raw != ""
    ensures Blank(PlaceIn(b, s).indent) && '\n' !in PlaceIn(b, s).indent && '#' !in PlaceIn(b, s).indent
  {
    var line := LastLine(b + s.gap + s.raw[..|s.raw| - 1]);
    MarginFacts(line);
    BlankConcat(Margin(line), INDENT);
  }

  /** The lines in front of one statement. */
  lemma LinesBefore(sc: Scope, p: Place, s: Stmt, more: seq<Stmt>, tail: string, lines: seq<Line>)
    requires AtServer(sc, p.chain) && Blank(p.indent) && LinesOk(lines)
    requires Reads(s) && Fits(sc, s) && WellFormed(Enter(sc, s), more, tail)
    ensures var f := Fill(p, lines, Lead(s.gap)); var d := f.0 + [s.(gap := f.1 + Trail(s.gap))] + more;
      WellFormed(sc, d, tail) && Items(d) == CodeItems(lines, p.chain) + [View(s)] + Items(more)
  {
    hide GapText, LexesAs, TailOk, Fits, Enter, AtServer, Blank, Fill, LinesOk, View, CodeItems;
    LeadTrail(s.gap);
    var f := Fill(p, lines, Lead(s.gap));
    var t := s.(gap := f.1 + Trail(s.gap));
    assert ([t] + more)[1..] == more;
    if GapText(f.1) {
      GapConcat(f.1, Trail(s.gap));
      KeptStmtFits(sc, s, t.gap);
    }
    FillFits(sc, p, lines, Lead(s.gap), [t] + more, tail);
    GapConcat(f.1, Trail(s.gap));
    KeptStmtFits(sc, s, t.gap);
    assert f.0 + [t] + more == f.0 + ([t] + more);
    assert CodeItems(lines, p.chain) + [View(s)] + Items(more) == CodeItems(lines, p.chain) + ([View(s)] + Items(more));
  }

  /** Adding lines keeps a document well formed and adds exactly their items. */
  lemma {:induction false} AddLinesMeaning(sc: Scope, b: string, place: Option<Place>, ss: seq<Stmt>, tail: string,
                                           lines: seq<Line>)
    requires WellFormed(sc, ss, tail) && LinesOk(lines)
    requires place.Some? ==> AtServer(sc, place.value.chain) && Blank(place.value.indent)
    ensures var d := AddLines(b, place, ss, lines);
      && WellFormed(sc, d, tail)
      && Items(d) == AddItems(if place.Some? then Some(place.value.chain) else None, Items(ss), lines)
    decreases |ss|
  {
    hide Reads, TailOk, Fits, Enter, AtServer, Blank, Opening, Fill, LinesOk, OpensServer, OpensServerItem, Lead, Trail,
      CodeItems, View;
    if ss != [] {
      var s, rest := ss[0], ss[1..];
      OpeningScope(sc, b, s);
      AddLinesMeaning(Enter(sc, s), b + s.gap + s.raw, Opening(b, s), rest, tail, lines);
      var more := AddLines(b + s.gap + s.raw, Opening(b, s), rest, lines);
      assert Items(ss)[0] == View(s) && Items(ss)[1..] == Items(rest);
      ViewChain(s);
      match place
      case None =>
        assert ([s] + more)[1..] == more;
        assert [] + [View(s)] + Items(more) == [View(s)] + Items(more);
      case Some(p) => LinesBefore(sc, p, s, more, tail, lines);
    }
  }

  lemma ViewChain(s: Stmt)
    ensures View(s).chain == s.chain && View(s).id == s.id
  {}

  lemma OpeningScope(sc: Scope, b: string, s: Stmt)
    requires Reads(s) && Fits(sc, s)
    ensures Opening(b, s).Some? <==> OpensServerItem(View(s))
    ensures Opening(b, s).Some? ==>
      && AtServer(Enter(sc, s), Opening(b, s).value.chain)
      && Blank(Opening(b, s).value.indent)
      && Opening(b, s).value.chain == s.chain + [s.id]
  {
    hide Run, Blank;
    OpeningOf(b, s);
    if OpensServer(s) {
      IndentBlank(b, s);
      assert Ids(sc.stack + [Frame(s.id, s.name)]) == Ids(sc.stack) + [s.id];
    }
  }
}
