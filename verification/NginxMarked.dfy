/** A site in which removing an access log turns the comment behind it into a begin-marker line. */
module NginxMarked {
  import opened Options
  import opened PythonText
  import opened NginxText
  import opened NginxLexer
  import opened NginxParser
  import opened NginxDocument
  import opened NginxGaps
  import opened NginxRemoval
  import opened NginxMeaning
  import opened NginxPhrases
  import opened NginxInsertion
  import opened NginxServers
  import opened NginxUpstream
  import opened NginxHeaders
  import opened NginxAudit
  import opened NginxGuarantees
  import opened NginxMarkers
  import opened NginxFence
  import opened NginxSite
  import opened NginxRewrite
  import opened NginxStability
  import opened NginxRollback
  import opened NginxClean
  import opened NginxMaintenance
  import opened NginxFenced
  import opened NginxCovering
  import opened NginxCutover
  import opened NginxFencing
  import opened NginxUnsteady

  const OFF_WORDS := ["access_log", "off"]
  const NOTE := " " + MAINTENANCE_BEGIN + "\n"

  /** `access_log off; # ASTRA_DEPLOY_MAINTENANCE_BEGIN` on one line, and a server with the proxy on the next. */
  const MARKED := Phrase(OFF_WORDS) + NOTE + (SERVER + "{" + Phrase(PROXY_WORDS) + "}")

  const OFF := Stmt("", Phrase(OFF_WORDS), OFF_WORDS, ';', "access_log", [], 0)
  const OPENED := Stmt(NOTE, SERVER + "{", [SERVER], '{', SERVER, [], 1)
  const ONLY := Stmt("", Phrase(PROXY_WORDS), PROXY_WORDS, ';', "proxy_pass", [1], 0)
  const END := Stmt("", "}", [], '}', "}", [1], 0)
  const NOTED := Doc([OFF] + ([OPENED] + ([ONLY] + ([END] + []))), "")

  // ----- The site is a well-formed document

  lemma OffReads()
    ensures LexesAs(Phrase(OFF_WORDS), OFF_WORDS, ';')
  {
    hide LexesAs, Plain, Phrase;
    GraphicIsPlain("access_log");
    GraphicIsPlain("off");
    PhraseLexes(OFF_WORDS);
  }

  lemma NoteIsGap()
    ensures GapText(NOTE)
  {
    hide GapText;
    LetterIsNoSpace();
    BlankIsGap(" ");
    NoNewlineInMarker();
    CommentIsGap(MAINTENANCE_BEGIN);
    GapConcat(" ", MAINTENANCE_BEGIN + "\n");
    assert NOTE == " " + (MAINTENANCE_BEGIN + "\n");
  }

  lemma NoNewlineInMarker()
    ensures LineOk(Note(MAINTENANCE_BEGIN))
  {
    Markers();
    assert forall c <- MAINTENANCE_BEGIN :: IsMarkerCharacter(c);
  }

  lemma NotedReads()
    ensures Reads(OFF) && Reads(OPENED) && Reads(ONLY) && Reads(END) && TailOk("")
  {
    hide Phrase, LexesAs, GapText;
    OffReads();
    OpenerReads();
    CloserReads();
    ProxyReads();
    NoteIsGap();
    EmptyIsGap();
  }

  lemma EmptyIsGap()
    ensures GapText("") && TailOk("")
  {
    BlankIsGap("");
  }

  lemma NotedFits()
    ensures DocOk(NOTED)
  {
    hide Reads, TailOk, Phrase, Upstream;
    NotedReads();
    NamesPlain();
    AccessLogPlain();
    var s0 := OUTSIDE;
    var s1, s2 := Scope([Frame(1, SERVER)], 1), Scope([], 1);
    assert Ids([]) == [] && Ids(s1.stack) == [1];
    assert Enter(s0, OFF) == s0 && Enter(s0, OPENED) == s1 && Enter(s1, ONLY) == s1 && Enter(s1, END) == s2;
    assert Fits(s0, OFF) && Fits(s0, OPENED) && Fits(s1, ONLY) && Fits(s1, END);
    WellFormedCons(s1, END, [], "");
    WellFormedCons(s1, ONLY, [END] + [], "");
    WellFormedCons(s0, OPENED, [ONLY] + ([END] + []), "");
    WellFormedCons(s0, OFF, [OPENED] + ([ONLY] + ([END] + [])), "");
  }

  lemma AccessLogPlain()
    ensures DirectiveName("access_log") == Ok("access_log") && "access_log" != MAP_ENTRY_NAME
  {
    assert "access_log"[0] != MAP_ENTRY_NAME[0];
  }

  lemma NotedText()
    ensures RenderDoc(NOTED) == MARKED
  {
    hide Phrase, Render;
    RenderCons(END, []);
    RenderCons(ONLY, [END] + []);
    RenderCons(OPENED, [ONLY] + ([END] + []));
    RenderCons(OFF, [OPENED] + ([ONLY] + ([END] + [])));
    NothingRenders();
    FourParts(Phrase(OFF_WORDS), NOTE, SERVER + "{", Phrase(PROXY_WORDS), "}");
  }

  lemma NothingRenders()
    ensures Render([]) == ""
  {}

  lemma FourParts(a: string, n: string, b: string, c: string, e: string)
    ensures "" + a + (n + b + ("" + c + ("" + e + ""))) + "" == a + n + (b + c + e)
  {}

  lemma NotedFacts()
    ensures !IsProxy(OFF) && !IsProxy(OPENED) && IsProxy(ONLY) && !IsProxy(END)
    ensures !OpensServer(OFF) && OpensServer(OPENED) && !OpensServer(ONLY) && !OpensServer(END)
    ensures FormatList(OFF) == FormatList(OPENED) == FormatList(ONLY) == FormatList(END) == []
    ensures forall s <- {OFF, OPENED, ONLY, END} :: !HasInclude(Shapes([View(s)]))
    ensures Picked(OFF, AccessLog) && !Picked(OPENED, AccessLog) && !Picked(OFF, ClientIpIn([1]))
    ensures !Picked(OPENED, ClientIpIn([1]))
  {
    hide Phrase, Upstream;
    ProxyWords(ONLY);
    ProxyWords(OFF);
    assert "proxy_pass"[0] != "log_format"[0] && "proxy_pass"[0] != "include"[0];
    assert "access_log"[0] != "log_format"[0] && "access_log"[0] != "include"[0] && "access_log"[0] != PROXY_SET_HEADER[0];
    forall s | s in {OFF, OPENED, ONLY, END} ensures !HasInclude(Shapes([View(s)])) {
      ShapesOne(View(s));
    }
  }

  lemma NotedAccepted()
    ensures Accepted(NOTED)
  {
    hide Phrase, Upstream, IsProxy, OpensServer, HasInclude, Shapes, Items, FormatList, Picked;
    NotedFacts();
    var a := [END] + [];
    var b := [ONLY] + a;
    ItemsCons(END, []);
    ItemsCons(ONLY, a);
    ItemsCons(OPENED, b);
    ItemsCons(OFF, [OPENED] + b);
    NothingHere();
    CountsAgree(NOTED.stmts, AstraProxy);
  }

  lemma NotedRouted()
    ensures Routed(NOTED, P3008) == NOTED
  {
    hide Upstream, Phrase, Reads, IsProxy, WellFormed, Picked;
    NotedReads();
    NotedFacts();
    PointToReads(ONLY, P3008);
    assert ONLY.words[1] == Upstream(P3008);
    NotProxyKept(OFF, P3008);
    NotProxyKept(OPENED, P3008);
    NotProxyKept(END, P3008);
    RerouteCons(END, [], P3008);
    RerouteCons(ONLY, [END] + [], P3008);
    RerouteCons(OPENED, [ONLY] + ([END] + []), P3008);
    RerouteCons(OFF, [OPENED] + ([ONLY] + ([END] + [])), P3008);
    assert Reroute([], P3008) == [];
  }

  // ----- Its text has no marker lines

  lemma BeginIsNoEnd()
    ensures !Occurs(MAINTENANCE_END, NOTE)
  {
    Markers();
    forall i | 0 <= i <= |NOTE| - |MAINTENANCE_END| ensures !OccursAt(MAINTENANCE_END, NOTE, i) {
      assert NOTE[i..i + |MAINTENANCE_END|][0] == NOTE[i];
      if i == 1 {
        assert NOTE[i..i + |MAINTENANCE_END|][27] == NOTE[28] == 'B';
        assert MAINTENANCE_END[27] == 'E';
      } else if i == 0 {
        assert NOTE[0] == ' ';
      }
    }
  }

  lemma MarkedHasNoEnd()
    ensures !Occurs(MAINTENANCE_END, MARKED)
  {
    hide Occurs, Phrase, Upstream, Plain, Sealed, MarkerText, MarkerLike;
    Markers();
    MarkerNotEmpty(MAINTENANCE_END);
    UpstreamFacts();
    GraphicIsPlain("proxy_pass");
    GraphicIsPlain("access_log");
    GraphicIsPlain("off");
    PhraseHasNoHash(OFF_WORDS);
    PhraseHasNoHash(PROXY_WORDS);
    var a, z := Phrase(OFF_WORDS), SERVER + "{" + Phrase(PROXY_WORDS) + "}";
    NoHashNoMarker(MAINTENANCE_END, a);
    NoHashNoMarker(MAINTENANCE_END, z);
    BeginIsNoEnd();
    NoHashSealed(a);
    SealedByEnd(NOTE);
    FreeConcat(MAINTENANCE_END, a, NOTE);
    SealedConcat(a, NOTE);
    FreeConcat(MAINTENANCE_END, a + NOTE, z);
  }

  lemma MarkedKept()
    ensures RemoveMaintenance(MARKED) == Ok(MARKED)
  {
    hide RemoveMaintenance, Occurs, Phrase, Strip;
    MarkedHasNoEnd();
    NoMarkedLine();
    RemoveIdle(MARKED);
  }

  /** The marker text ends the first line, but the line begins with the directive. */
  lemma NoMarkedLine()
    ensures NoBegin(Lines(MARKED))
  {
    hide Phrase, Upstream, Plain, Lines, Strip, Occurs;
    var a, z := Phrase(OFF_WORDS) + NOTE, SERVER + "{" + Phrase(PROXY_WORDS) + "}";
    LinesConcat(a, z);
    SecondLineQuiet();
    FirstLineQuiet();
    BeginOverLines(Lines(a), Lines(z));
  }

  lemma {:induction false} BeginOverLines(a: seq<string>, b: seq<string>)
    ensures NoBegin(a + b) <==> NoBegin(a) && NoBegin(b)
  {
    hide Strip;
    if a == [] {
      assert a + b == b;
    } else {
      assert (a + b)[1..] == a[1..] + b;
      BeginOverLines(a[1..], b);
    }
  }

  lemma SecondLineQuiet()
    ensures NoBegin(Lines(SERVER + "{" + Phrase(PROXY_WORDS) + "}"))
  {
    hide Occurs, Lines, NoBegin, Plain, Upstream, Phrase;
    Markers();
    UpstreamFacts();
    GraphicIsPlain("proxy_pass");
    PhraseHasNoHash(PROXY_WORDS);
    var z := SERVER + "{" + Phrase(PROXY_WORDS) + "}";
    NoHashNoMarker(MAINTENANCE_BEGIN, z);
    NoMarkerText(z);
  }

  lemma FirstLineQuiet()
    ensures NoBegin(Lines(Phrase(OFF_WORDS) + NOTE))
  {
    hide Lines, Phrase, Strip;
    var body := Phrase(OFF_WORDS) + (" " + MAINTENANCE_BEGIN);
    assert Phrase(OFF_WORDS) + NOTE == body + "\n";
    FirstLineBody();
    OneLine(body);
    FirstLineStrips();
    assert [body + "\n"][1..] == [];
  }

  lemma FirstLineBody()
    ensures forall c <- Phrase(OFF_WORDS) + (" " + MAINTENANCE_BEGIN) :: !IsBreak(c)
    ensures Phrase(OFF_WORDS) != "" && Phrase(OFF_WORDS)[0] == 'a'
  {
    assert OFF_WORDS[1..] == ["off"] && ["off"][1..] == [];
    assert Phrase(OFF_WORDS) == "access_log" + " " + ("off" + "" + ";");
    assert forall c <- "access_log" + " " + ("off" + "" + ";") :: !IsBreak(c);
    Markers();
    assert forall c <- MAINTENANCE_BEGIN :: !IsBreak(c);
  }

  lemma FirstLineStrips()
    ensures Strip(Phrase(OFF_WORDS) + (" " + MAINTENANCE_BEGIN) + "\n") != MAINTENANCE_BEGIN
  {
    hide Phrase, StripRight;
    FirstLineBody();
    var s := Phrase(OFF_WORDS) + (" " + MAINTENANCE_BEGIN) + "\n";
    assert s[0] == 'a' && !IsSpace('a') && MAINTENANCE_BEGIN[0] == '#';
    StripLeftEnds(s);
    StripRightEnds(s);
  }

  // ----- The cutover puts the comment on a line of its own

  lemma MarkedCutover()
    ensures RemoveMaintenance(MARKED) == Ok(MARKED) && DocOf(MARKED) == NOTED && Meaning(MARKED).Ok?
    ensures forall p :: Cutover(MARKED, p).Ok?
  {
    hide RemoveMaintenance, DocOk, RenderDoc, Finished, Routed, Accepted, Phrase, Upstream, DocOf, Meaning, Cutover,
      Verdict, Items;
    NotedFits();
    NotedText();
    NotedAccepted();
    MarkedKept();
    TwoDocs(MARKED, NOTED);
    DocMeaning(NOTED);
    VerdictOfDoc(MARKED, P3008);
    forall p ensures Cutover(MARKED, p).Ok? { CutoverOk(MARKED, p); }
  }

  /** Marker text stands outside the directives that the cutover drops. */
  lemma NotedIsMarked()
    ensures !Unmarked(MAINTENANCE_BEGIN, NOTED)
  {
    hide Picked, Items, Phrase, Dropped;
    assert NOTE[1..1 + |MAINTENANCE_BEGIN|] == MAINTENANCE_BEGIN;
    assert OccursAt(MAINTENANCE_BEGIN, NOTE, 1);
    var rule := Dropped(ProxyScope(Items(NOTED.stmts)));
    FreeCons(MAINTENANCE_BEGIN, OPENED, [ONLY] + ([END] + []), rule);
    FreeCons(MAINTENANCE_BEGIN, OFF, [OPENED] + ([ONLY] + ([END] + [])), rule);
  }

  lemma NotedScope()
    ensures ProxyScope(Items(NOTED.stmts)) == [1]
  {
    hide Phrase, Upstream, Picked, IsProxy, ProxyItem, View, Items;
    NotedFacts();
    var a := [END] + [];
    var b := [ONLY] + a;
    ViewsOf(ONLY, a);
    ViewsOf(OPENED, b);
    ViewsOf(OFF, [OPENED] + b);
    ViewProxy(OFF);
    ViewProxy(OPENED);
    ViewProxy(ONLY);
    assert ([View(OFF)] + Items([OPENED] + b))[1..] == Items([OPENED] + b);
    assert ([View(OPENED)] + Items(b))[1..] == Items(b);
    assert Items(b)[0] == View(ONLY);
    assert ProxyScope(Items(b)) == [1] == ProxyScope([View(OPENED)] + Items(b));
    assert ProxyScope([View(OFF)] + Items([OPENED] + b)) == [1];
  }

  lemma ViewProxy(s: Stmt)
    ensures ProxyItem(View(s)) <==> IsProxy(s)
    ensures View(s).chain == s.chain
  {}

  /** The rewritten site begins with the comment that stood behind the access log. */
  lemma NoteComesFirst()
    ensures var f := Finished(NOTED).stmts; f != [] && f[0] == OPENED
  {
    hide Picked, Phrase, Upstream, IsProxy, Items, OpensServer, Cut, AddHeaders, AddLines, ClientIpIn;
    NotedFacts();
    NotedScope();
    var rest := [OPENED] + ([ONLY] + ([END] + []));
    assert NOTED.stmts[1..] == rest && rest[0] == OPENED;
    CutKeepsFirst(NOTED.stmts, "", ClientIpIn([1]), true);
    CutKeepsFirst(rest, "", ClientIpIn([1]), false);
    var cleared := ClearHeaders(NOTED);
    assert cleared.stmts[0] == OFF && cleared.stmts[1] == OPENED;
    AddHeadersSkip("", cleared.stmts);
    AddHeadersSkip("" + OFF.gap + OFF.raw, cleared.stmts[1..]);
    var headed := WithHeaders(cleared);
    assert headed.stmts[0] == OFF && headed.stmts[1] == OPENED;
    CutFirst(headed.stmts, headed.tail, AccessLog, true, "", false);
    CutFirst(headed.stmts[1..], headed.tail, AccessLog, false, "", false);
    NotAlone(headed.stmts, headed.tail);
    assert "" + OFF.gap == "" && "" + NOTE == NOTE;
    var unlogged := ClearLogs(headed);
    assert unlogged.stmts[0] == OPENED;
    AddLogsFirstStmt("", None, unlogged.stmts);
  }

  lemma NotAlone(ss: seq<Stmt>, tail: string)
    requires |ss| > 1 && ss[1] == OPENED
    ensures !Alone(ss, tail, true)
  {
    assert ss[1..][0] == OPENED && ss[1..] != [];
    var h := " " + MAINTENANCE_BEGIN;
    assert !HasNewline(h) by { NoNewlineInMarker(); }
    HeadConcat(h, "\n");
    assert NOTE == h + "\n";
    assert h[1] == '#' && h[1] in h + Head("\n") && !IsSpace('#');
  }

  /** A cutover of `MARKED` succeeds, but its result has a begin-marker line: every later cutover raises. */
  lemma CutoverLeavesMarker()
    ensures Cutover(MARKED, P3008).Ok?
    ensures !NoBegin(Lines(Cutover(MARKED, P3008).value.0))
    ensures forall p :: Cutover(Cutover(MARKED, P3008).value.0, p).Err?
  {
    hide RemoveMaintenance, DocOk, Finished, Routed, Accepted, Phrase, Upstream, DocOf, Meaning, Cutover, Verdict,
      Items, ServerIds, OneProxy, RewriteItems, Occurs, Lines, Strip, NoBegin;
    MarkedCutover();
    CutoverOk(MARKED, P3008);
    CutoverDoc(MARKED, P3008);
    NotedRouted();
    NoteComesFirst();
    var f := Finished(NOTED);
    assert RenderDoc(f) == NOTE + (OPENED.raw + Render(f.stmts[1..]) + f.tail);
    LinesConcat(NOTE, OPENED.raw + Render(f.stmts[1..]) + f.tail);
    NoteIsBegin();
    BeginOverLines(Lines(NOTE), Lines(OPENED.raw + Render(f.stmts[1..]) + f.tail));
    forall p ensures Cutover(Cutover(MARKED, P3008).value.0, p).Err? { CutoverAgain(MARKED, P3008, p); }
  }

  lemma NoteIsBegin()
    ensures !NoBegin(Lines(NOTE))
  {
    hide Lines, Strip;
    var body := " " + MAINTENANCE_BEGIN;
    FirstLineBody();
    assert forall c <- body :: c in Phrase(OFF_WORDS) + body;
    OneLine(body);
    LetterIsNoSpace();
    assert !IsSpace('#') && !IsSpace('N');
    StripMarker(" ", MAINTENANCE_BEGIN);
    assert body + "\n" == NOTE;
  }

  /** Maintenance cannot be turned on for `MARKED`. */
  lemma MarkedIsNotCovered()
    ensures ConfigureMaintenance(MARKED) == Err(MaintenanceNotCovering)
  {
    hide RemoveMaintenance, DocOk, RenderDoc, Finished, Accepted, Phrase, Upstream, DocOf, Meaning, Cutover, Verdict,
      Items, ServerIds, Shapes, OneProxy, RewriteItems, Occurs, ActivePort, ConfigureMaintenance, NoneReturns503,
      Unmarked, Routed;
    MarkedCutover();
    CutoverOk(MARKED, P3008);
    CutoverDoc(MARKED, P3008);
    NotedRouted();
    ActiveOfRouted(NOTED, P3008);
    NotedText();
    NotedIsMarked();
    MaintenanceOn(MARKED);
  }
}
