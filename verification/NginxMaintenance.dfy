/** The maintenance fence: an explicit 503 at the start of every server block of a rewritten site. */
module NginxMaintenance {
  import opened Options
  import opened NginxText
  import opened NginxParser
  import opened NginxDocument
  import opened NginxRemoval
  import opened NginxMeaning
  import opened NginxPhrases
  import opened NginxInsertion
  import opened NginxServers
  import opened NginxUpstream
  import opened NginxAudit
  import opened NginxMarkers
  import opened NginxSite
  import opened NginxRewrite
  import opened NginxStability
  import opened NginxSteady
  import opened NginxRollback

  const FENCE_LINES := [Note(MAINTENANCE_BEGIN), Code(RETRY_AFTER_WORDS), Code(NO_STORE_WORDS), Code(RETURN_503_WORDS),
                        Note(MAINTENANCE_END)]

  /** `str.removesuffix`. */
  function RemoveSuffix(s: string, suffix: string): string {
    if |suffix| <= |s| && s[|s| - |suffix|..] == suffix then s[..|s| - |suffix|] else s
  }

  /** `_maintenance_insertion`. */
  function FenceInsertion(text: string, server: Block): Insertion {
    var i := InsertionPoint(text, server);
    Insertion(i.offset, Content(RemoveSuffix(i.content, REDACTED_ACCESS_LOG + "\n"), FENCE_LINES))
  }

  function FenceInsertions(text: string, servers: seq<Block>): seq<Insertion> {
    if servers == [] then [] else [FenceInsertion(text, servers[0])] + FenceInsertions(text, servers[1..])
  }

  /** A direct `return 503` of a server block. */
  predicate Returns503(d: Shape, server: nat) {
    d.name == RETURN && DirectlyIn(d, server) && d.arguments == RETURN_503_WORDS[1..]
  }

  function Count503(shapes: seq<Shape>, server: nat): nat {
    if shapes == [] then 0 else (if Returns503(shapes[0], server) then 1 else 0) + Count503(shapes[1..], server)
  }

  /** Every server block returns 503 exactly once. */
  predicate AllFenced(servers: seq<nat>, shapes: seq<Shape>) {
    servers == [] || (Count503(shapes, servers[0]) == 1 && AllFenced(servers[1..], shapes))
  }

  /** `maintenance_enabled`. */
  function MaintenanceEnabled(text: string): Result<bool> {
    var parsed :- ParseNginx(text);
    var servers := ServerBlocks(parsed.blocks);
    Ok(&& servers != []
       && Count(MAINTENANCE_BEGIN, text) == |servers|
       && Count(MAINTENANCE_END, text) == |servers|
       && AllFenced(Identifiers(servers), ShapesOf(parsed.directives)))
  }

  /** The fences put into a text. */
  function FenceServers(text: string, parsed: ParsedConfig): string {
    Weave(text, FenceInsertions(text, ServerBlocks(parsed.blocks)), 0)
  }

  /** `configure_maintenance`. */
  function ConfigureMaintenance(text: string): Result<(string, nat)> {
    var kept :- RemoveMaintenance(text);
    var active :- ActivePort(kept);
    var site :- ConfigureSite(kept, Digits(Other(active)), Digits(active));
    var parsed :- ParseNginx(site.0);
    var fenced := FenceServers(site.0, parsed);
    var covered :- MaintenanceEnabled(fenced);
    if !covered then Err(MaintenanceNotCovering) else Ok((fenced, |ServerBlocks(parsed.blocks)|))
  }

  function WithFence(d: Doc): Doc { Doc(AddLines("", None, d.stmts, FENCE_LINES), d.tail) }

  // ----- After a rewrite, every fence goes to the line behind the brace

  /** The statement behind every server's brace starts on a later line. */
  predicate Ready(inside: bool, ss: seq<Stmt>)
    decreases |ss|
  {
    ss == [] || ((inside ==> HasNewline(ss[0].gap)) && Ready(OpensServer(ss[0]), ss[1..]))
  }

  lemma ReadyCons(inside: bool, s: Stmt, rest: seq<Stmt>)
    ensures Ready(inside, [s] + rest) <==> (inside ==> HasNewline(s.gap)) && Ready(OpensServer(s), rest)
  {
    hide HasNewline, OpensServer;
    assert ([s] + rest)[1..] == rest;
  }

  lemma {:induction false} LogsReady(b: string, place: Option<Place>, ss: seq<Stmt>)
    requires Readable(ss) && PlaceOk(place)
    ensures Ready(place.Some?, AddLines(b, place, ss, LOG_LINES))
    decreases |ss|
  {
    hide Reads, AddLines, LogStmt, Trail, Opening, OpensServer, HasNewline, Blank, Ready;
    if ss == [] {
      NoLines(b, place);
      NothingReady(place.Some?);
    } else {
      var s, rest := ss[0], ss[1..];
      var more := AddLines(b + s.gap + s.raw, Opening(b, s), rest, LOG_LINES);
      AddLogsFirstStmt(b, place, ss);
      OpeningIs(b, s);
      IndentsAre(b, s);
      LogsReady(b + s.gap + s.raw, Opening(b, s), rest);
      match place
      case None => ReadyCons(false, s, more);
      case Some(p) =>
        var t := s.(gap := "\n" + Trail(s.gap));
        LogStmtFacts(p, s.gap, []);
        LogGap(p, s.gap);
        ServerIgnoresGap(s, t.gap);
        ReadyCons(true, LogStmt(p, s.gap), [t] + more);
        ReadyCons(false, t, more);
    }
  }

  lemma NothingReady(inside: bool)
    ensures Ready(inside, [])
  {}

  lemma FinishedReady(d: Doc)
    requires DocOk(d)
    ensures Ready(false, Finished(d).stmts)
  {
    hide DocOk, Items, AddLines, ClearHeaders, WithHeaders, ClearLogs, Readable, Ready, NonePicked;
    UnloggedHasNone(d);
    LogsReady("", None, Unlogged(d).stmts);
  }

  lemma SuffixRemoved(indent: string)
    ensures RemoveSuffix(indent + REDACTED_ACCESS_LOG + "\n", REDACTED_ACCESS_LOG + "\n") == indent
  {
    hide Phrase;
    var x := REDACTED_ACCESS_LOG + "\n";
    assert indent + REDACTED_ACCESS_LOG + "\n" == indent + x;
    assert (indent + x)[|indent|..] == x && (indent + x)[..|indent|] == indent;
  }

  /** The fence behind a brace that ends its line is where the document adds its lines. */
  lemma FenceIsAdded(b: string, s: Stmt, rest: seq<Stmt>, tail: string)
    requires Reads(s) && rest != [] && Readable(rest) && OpensServer(s) && HasNewline(rest[0].gap)
    ensures var text, next := b + s.gap + s.raw + (Render(rest) + tail), b + s.gap + s.raw;
      FenceInsertion(text, BlockAt(s, |b|)) == Added(next, PlaceIn(b, s), rest[0].gap, FENCE_LINES)
  {
    hide Reads, BlockAt, InsertionPoint, Content, PlaceIn, Head, HasNewline, RemoveSuffix, Readable, Render;
    PointIsAdded(b, s, rest, tail);
    RawNotEmpty(s);
    var indent := PlaceIn(b, s).indent;
    LogContent(indent);
    assert "" + Content(indent, LOG_LINES) == Content(indent, LOG_LINES);
    assert "" + Content(indent, FENCE_LINES) == Content(indent, FENCE_LINES);
    SuffixRemoved(indent);
  }

  lemma FencesFirst(text: string, ss: seq<Stmt>, at: int)
    requires ss != [] && Readable(ss)
    ensures var points := FenceInsertions(text, DocServers(ss[1..], at + |ss[0].gap| + |ss[0].raw|));
      FenceInsertions(text, DocServers(ss, at)) ==
        if OpensServer(ss[0]) then [FenceInsertion(text, BlockAt(ss[0], at))] + points else points
  {
    hide Reads, FenceInsertion, BlockAt, OpensServer;
    var more := DocServers(ss[1..], at + |ss[0].gap| + |ss[0].raw|);
    if OpensServer(ss[0]) {
      var k := BlockAt(ss[0], at);
      assert ([k] + more)[1..] == more;
    } else {
      assert [] + more == more;
    }
  }

  /** The fences of the servers are the document's insertions of the fence lines. */
  lemma {:induction false} FencePoints(sc: Scope, b: string, place: Option<Place>, ss: seq<Stmt>, tail: string)
    requires WellFormed(sc, ss, tail) && Readable(ss) && Ready(place.Some?, ss) && (place.Some? ==> ss != [])
    ensures var text := b + (Render(ss) + tail);
      LineInsertions(b, place, ss, FENCE_LINES) ==
        (if ss == [] then [] else Pending(b, place, ss, FENCE_LINES)) + FenceInsertions(text, DocServers(ss, |b|))
    decreases |ss|
  {
    hide Reads, Fits, Enter, BlockAt, FenceInsertion, Added, Opening, PlaceIn, Render, FenceInsertions, DocServers,
      HasNewline, OpensServer;
    if ss == [] {
      NoFences(b + (Render(ss) + tail), b, place);
    } else {
      var s, rest := ss[0], ss[1..];
      var next := b + s.gap + s.raw;
      var text := b + (Render(ss) + tail);
      assert ss == [s] + rest;
      TextAround(b, s, rest, tail);
      assert text == next + (Render(rest) + tail);
      OpeningOf(b, s);
      FencesFirst(text, ss, |b|);
      if OpensServer(s) {
        MoreToCome(sc, ss, tail);
        FenceIsAdded(b, s, rest, tail);
      }
      FencePoints(Enter(sc, s), next, Opening(b, s), rest, tail);
      var ins := FenceInsertions(text, DocServers(rest, |next|));
      assert [] + ins == ins;
    }
  }

  lemma NoFences(text: string, b: string, place: Option<Place>)
    ensures LineInsertions(b, place, [], FENCE_LINES) == [] && FenceInsertions(text, DocServers([], |b|)) == []
  {}

  lemma LinesOkCons(l: Line, rest: seq<Line>)
    ensures LinesOk([l] + rest) <==> LineOk(l) && LinesOk(rest)
  {
    hide LineOk;
    assert ([l] + rest)[1..] == rest;
  }

  function Fence(a: Line, b: Line, c: Line, d: Line, e: Line): seq<Line> { [a] + ([b] + ([c] + ([d] + ([e] + [])))) }

  lemma FenceOk(a: Line, b: Line, c: Line, d: Line, e: Line)
    requires LineOk(a) && LineOk(b) && LineOk(c) && LineOk(d) && LineOk(e)
    ensures LinesOk(Fence(a, b, c, d, e))
  {
    hide LineOk, LinesOk;
    LinesOkCons(e, []);
    LinesOkCons(d, [e] + []);
    LinesOkCons(c, [d] + ([e] + []));
    LinesOkCons(b, [c] + ([d] + ([e] + [])));
    LinesOkCons(a, [b] + ([c] + ([d] + ([e] + []))));
    assert LinesOk([]) by { NoLinesOk(); }
  }

  lemma NoLinesOk()
    ensures LinesOk([])
  {}

  lemma FenceLinesOk()
    ensures LinesOk(FENCE_LINES)
  {
    hide LexesAs, Phrase, LinesOk;
    FenceLexes();
    NoQuotes();
    var a, e := Note(MAINTENANCE_BEGIN), Note(MAINTENANCE_END);
    var b, c, d := Code(RETRY_AFTER_WORDS), Code(NO_STORE_WORDS), Code(RETURN_503_WORDS);
    FenceWordsOk();
    FenceOk(a, b, c, d, e);
    assert FENCE_LINES == Fence(a, b, c, d, e);
  }

  lemma FenceWordsOk()
    ensures LineOk(Code(RETRY_AFTER_WORDS)) && LineOk(Code(NO_STORE_WORDS)) && LineOk(Code(RETURN_503_WORDS))
  {
    hide LexesAs, Phrase;
    FenceLexes();
    NoQuotes();
  }

  lemma NoQuotes()
    ensures DirectiveName(ADD_HEADER) == Ok(ADD_HEADER) && DirectiveName(RETURN) == Ok(RETURN)
    ensures LineOk(Note(MAINTENANCE_BEGIN)) && LineOk(Note(MAINTENANCE_END))
  {
    Markers();
    MarkerIsNote(MAINTENANCE_BEGIN);
    MarkerIsNote(MAINTENANCE_END);
  }

  lemma MarkerIsNote(m: string)
    requires MarkerText(m)
    ensures LineOk(Note(m))
  {
    assert forall c <- m :: !IsSeal(c);
  }

  /** Fencing the text of a document that is ready is fencing the document. */
  lemma FenceIsDoc(d: Doc)
    requires DocOk(d) && Ready(false, d.stmts)
    ensures ParseNginx(RenderDoc(d)).Ok?
    ensures FenceServers(RenderDoc(d), ParseNginx(RenderDoc(d)).value) == RenderDoc(WithFence(d))
    ensures |ServerBlocks(ParseNginx(RenderDoc(d)).value.blocks)| == |ServerIds(Items(d.stmts))|
    ensures DocOk(WithFence(d)) && Items(WithFence(d).stmts) == AddItems(None, Items(d.stmts), FENCE_LINES)
  {
    hide WellFormed, Weave, FenceInsertions, LineInsertions, AddLines, ParseNginx, Ready, Readable, DocServers,
      ServerIds, Items, Render, LinesOk;
    var ss, tail := d.stmts, d.tail;
    ParseOf(d);
    assert "" + (Render(ss) + tail) == RenderDoc(d);
    FencePoints(OUTSIDE, "", None, ss, tail);
    WeaveIsAddLines("", None, ss, tail, FENCE_LINES);
    var ins := FenceInsertions(RenderDoc(d), DocServers(ss, 0));
    assert [] + ins == ins;
    if ss != [] { assert Pending("", None, ss, FENCE_LINES) == []; }
    ServerIdsOfDocument(ss, 0);
    SameLength(DocServers(ss, 0));
    FenceLinesOk();
    AddLinesMeaning(OUTSIDE, "", None, ss, tail, FENCE_LINES);
  }
}
