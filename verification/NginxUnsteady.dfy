/** A site on which repeating or reverting a cutover or turning maintenance on twice changes the text: two servers
    opened on one line. */
module NginxUnsteady {
  import opened Options
  import opened PythonText
  import opened NginxText
  import opened NginxLexer
  import opened NginxParser
  import opened NginxDocument
  import opened NginxGaps
  import opened NginxRemoval
  import opened NginxMeaning
  import opened NginxPhrases
  import opened NginxInsertion
  import opened NginxServers
  import opened NginxUpstream
  import opened NginxHeaders
  import opened NginxAudit
  import opened NginxGuarantees
  import opened NginxMarkers
  import opened NginxFence
  import opened NginxSite
  import opened NginxRewrite
  import opened NginxStability
  import opened NginxSteady
  import opened NginxRollback
  import opened NginxClean
  import opened NginxUnique
  import opened NginxLayout
  import opened NginxMaintenance
  import opened NginxCovering
  import opened NginxCutover
  import opened NginxFencing

  const SERVER := "server"
  const PROXY_WORDS := ["proxy_pass", Upstream(P3008)]

  /** `server{ }server{proxy_pass http://127.0.0.1:3008;}` */
  const ONE_LINE := SERVER + "{" + " }" + SERVER + "{" + Phrase(PROXY_WORDS) + "}"

  const FIRST := Stmt("", SERVER + "{", [SERVER], '{', SERVER, [], 1)
  const CLOSED := Stmt(" ", "}", [], '}', "}", [1], 0)
  const SECOND := Stmt("", SERVER + "{", [SERVER], '{', SERVER, [], 2)
  const PROXY := Stmt("", Phrase(PROXY_WORDS), PROXY_WORDS, ';', "proxy_pass", [2], 0)
  const LAST := Stmt("", "}", [], '}', "}", [2], 0)
  const SITE := Doc([FIRST] + ([CLOSED] + ([SECOND] + ([PROXY] + ([LAST] + [])))), "")

  // ----- The site is a well-formed document

  lemma OpenerReads()
    ensures LexesAs(SERVER + "{", [SERVER], '{')
  {
    hide Step, Plain, IsSpace;
    GraphicIsPlain(SERVER);
    RunPlain([], 0, SERVER);
    RunSnoc(START, SERVER, '{');
    assert SERVER + "{" == SERVER + ['{'];
    BraceEndsWord(SERVER, |SERVER|);
    var k := Token(SERVER, 0, |SERVER|);
    var ts := Run(START, SERVER + "{").tokens;
    assert ts == [k, Token("{", |SERVER|, |SERVER| + 1)];
    assert ts[..1] == [k] && [k][1..] == [];
    assert Values([]) == [] && Values([k]) == [SERVER];
    assert !IsSpace('s') by { LetterIsNoSpace(); }
    assert "{" == ['{'];
  }

  lemma LetterIsNoSpace()
    ensures !IsSpace('s') && !IsSpace('p') && !IsSpace('}') && IsSpace(' ')
  {}

  lemma BraceEndsWord(w: string, at: int)
    ensures Step(Lex([], Word(false), w, at), '{') == Lex([Token(w, at - |w|, at)] + [Token("{", at, at + 1)], Gap, "", at + 1)
  {
    assert [] + [Token(w, at - |w|, at)] == [Token(w, at - |w|, at)];
    assert ['{'] == "{";
  }

  lemma CloserReads()
    ensures LexesAs("}", [], '}')
  {
    hide IsSpace;
    RunOne(START, '}');
    LetterIsNoSpace();
    assert ['}'] == "}";
    var ts := Run(START, "}").tokens;
    assert [] + [Token("}", 0, 1)] == [Token("}", 0, 1)];
    assert ts[..0] == [];
  }

  lemma ProxyReads()
    ensures LexesAs(Phrase(PROXY_WORDS), PROXY_WORDS, ';')
  {
    hide LexesAs, Plain, Phrase, Upstream;
    UpstreamFacts();
    GraphicIsPlain("proxy_pass");
    PhraseLexes(PROXY_WORDS);
  }

  lemma StatementsRead()
    ensures Reads(FIRST) && Reads(CLOSED) && Reads(SECOND) && Reads(PROXY) && Reads(LAST) && TailOk("")
  {
    hide Phrase, LexesAs;
    OpenerReads();
    CloserReads();
    ProxyReads();
    BlankIsGap("");
    LetterIsNoSpace();
    BlankIsGap(" ");
  }

  lemma NamesPlain()
    ensures DirectiveName(SERVER) == Ok(SERVER) && DirectiveName("proxy_pass") == Ok("proxy_pass")
    ensures SERVER != "map" && "proxy_pass" != MAP_ENTRY_NAME
  {
    assert SERVER[0] != "map"[0] && "proxy_pass"[0] != MAP_ENTRY_NAME[0];
  }

  lemma SiteFits()
    ensures DocOk(SITE)
  {
    hide Reads, TailOk, Phrase, Upstream;
    StatementsRead();
    NamesPlain();
    var s0 := OUTSIDE;
    var s1, s2 := Scope([Frame(1, SERVER)], 1), Scope([], 1);
    var s3, s4 := Scope([Frame(2, SERVER)], 2), Scope([], 2);
    assert Ids([]) == [] && Ids(s1.stack) == [1] && Ids(s3.stack) == [2];
    assert Enter(s0, FIRST) == s1 && Enter(s1, CLOSED) == s2 && Enter(s2, SECOND) == s3;
    assert Enter(s3, PROXY) == s3 && Enter(s3, LAST) == s4;
    assert Fits(s0, FIRST) && Fits(s1, CLOSED) && Fits(s2, SECOND) && Fits(s3, PROXY) && Fits(s3, LAST);
    WellFormedCons(s3, LAST, [], "");
    WellFormedCons(s3, PROXY, [LAST] + [], "");
    WellFormedCons(s2, SECOND, [PROXY] + ([LAST] + []), "");
    WellFormedCons(s1, CLOSED, [SECOND] + ([PROXY] + ([LAST] + [])), "");
    WellFormedCons(s0, FIRST, [CLOSED] + ([SECOND] + ([PROXY] + ([LAST] + []))), "");
  }

  lemma SiteText()
    ensures RenderDoc(SITE) == ONE_LINE
  {
    hide Phrase;
    RenderCons(LAST, []);
    RenderCons(PROXY, [LAST] + []);
    RenderCons(SECOND, [PROXY] + ([LAST] + []));
    RenderCons(CLOSED, [SECOND] + ([PROXY] + ([LAST] + [])));
    RenderCons(FIRST, [CLOSED] + ([SECOND] + ([PROXY] + ([LAST] + []))));
    assert " " + "}" == " }";
  }

  lemma RenderCons(s: Stmt, rest: seq<Stmt>)
    ensures Render([s] + rest) == s.gap + s.raw + Render(rest)
  {
    assert ([s] + rest)[1..] == rest;
  }

  lemma ItemsCons(s: Stmt, rest: seq<Stmt>)
    ensures Items([s] + rest) == [View(s)] + Items(rest)
    ensures FormatRaws([s] + rest) == FormatList(s) + FormatRaws(rest)
    ensures CountPicked([s] + rest, AstraProxy) == (if IsProxy(s) then 1 else 0) + CountPicked(rest, AstraProxy)
    ensures ServerIds(Items([s] + rest)) == (if OpensServer(s) then [s.id] else []) + ServerIds(Items(rest))
    ensures HasInclude(Shapes(Items([s] + rest))) <==> HasInclude(Shapes([View(s)])) || HasInclude(Shapes(Items(rest)))
  {
    hide Picked, HasInclude, Shapes;
    assert ([s] + rest)[1..] == rest;
    assert ([View(s)] + Items(rest))[1..] == Items(rest);
    ShapesConcat([View(s)], Items(rest));
    IncludeConcat(Shapes([View(s)]), Shapes(Items(rest)));
  }

  lemma StmtFacts()
    ensures !IsProxy(FIRST) && !IsProxy(CLOSED) && !IsProxy(SECOND) && IsProxy(PROXY) && !IsProxy(LAST)
    ensures OpensServer(FIRST) && !OpensServer(CLOSED) && OpensServer(SECOND) && !OpensServer(PROXY)
    ensures !OpensServer(LAST)
    ensures FormatList(FIRST) == FormatList(CLOSED) == FormatList(SECOND) == FormatList(PROXY) == FormatList(LAST) == []
    ensures forall s <- {FIRST, CLOSED, SECOND, PROXY, LAST} :: !HasInclude(Shapes([View(s)]))
  {
    hide Phrase, Upstream;
    ProxyWords(PROXY);
    assert "proxy_pass"[0] != "log_format"[0] && "proxy_pass"[0] != "include"[0];
    forall s | s in {FIRST, CLOSED, SECOND, PROXY, LAST} ensures !HasInclude(Shapes([View(s)])) {
      ShapesOne(View(s));
    }
  }

  lemma SiteAccepted()
    ensures Accepted(SITE)
  {
    hide Phrase, Upstream, IsProxy, OpensServer, HasInclude, Shapes, Items, FormatList;
    StmtFacts();
    var a := [LAST] + [];
    var b := [PROXY] + a;
    var c := [SECOND] + b;
    ItemsCons(LAST, []);
    ItemsCons(PROXY, a);
    ItemsCons(SECOND, b);
    ItemsCons(CLOSED, c);
    ItemsCons(FIRST, [CLOSED] + c);
    NothingHere();
    CountsAgree(SITE.stmts, AstraProxy);
  }

  lemma NothingHere()
    ensures FormatRaws([]) == [] && CountPicked([], AstraProxy) == 0 && !HasInclude(Shapes(Items([])))
    ensures ServerIds(Items([])) == []
  {}

  // ----- The indent of the second server's log line

  /** A document that begins with the site's first three statements and goes on. */
  predicate Begins(ss: seq<Stmt>) { |ss| > 3 && ss[0] == FIRST && ss[1] == CLOSED && ss[2] == SECOND }

  lemma NotPickedHere(p: Shape -> bool)
    ensures !Picked(FIRST, p) && !Picked(CLOSED, p) && !Picked(SECOND, p)
  {}

  lemma CutKeepsFour(ss: seq<Stmt>, tail: string, p: Shape -> bool)
    requires Begins(ss) && !Picked(ss[3], p)
    ensures Begins(Cut(ss, tail, p, true, "", false).stmts)
    ensures Cut(ss, tail, p, true, "", false).stmts[3] == ss[3]
  {
    hide Picked, Phrase;
    NotPickedHere(p);
    CutKeepsFirst(ss, tail, p, true);
    CutKeepsFirst(ss[1..], tail, p, false);
    CutKeepsFirst(ss[2..], tail, p, false);
    CutKeepsFirst(ss[3..], tail, p, false);
    assert ss[1..][1..] == ss[2..] && ss[2..][1..] == ss[3..];
  }

  lemma CutKeepsFirst(ss: seq<Stmt>, tail: string, p: Shape -> bool, first: bool)
    requires ss != [] && !Picked(ss[0], p)
    ensures Cut(ss, tail, p, first, "", false).stmts == [ss[0]] + Cut(ss[1..], tail, p, false, "", false).stmts
  {
    hide Picked;
    CutFirst(ss, tail, p, first, "", false);
    assert "" + ss[0].gap == ss[0].gap;
  }

  lemma UnloggedBegins()
    ensures DocOk(SITE) && OneProxy(SITE) && Begins(Unlogged(SITE).stmts)
  {
    hide Picked, Phrase, Upstream, IsProxy, WellFormed, Items, ClientIpIn, Cut, OpensServer, Accepted;
    SiteFits();
    SiteAccepted();
    AcceptedOne(SITE);
    StmtFacts();
    var c := ProxyScope(Items(SITE.stmts));
    ProxyIsNotPicked(PROXY, c);
    CutKeepsFour(SITE.stmts, SITE.tail, ClientIpIn(c));
    var cleared := ClearHeaders(SITE);
    assert cleared.stmts[3] == PROXY;
    HeadersBegin(cleared.stmts);
    var headed := WithHeaders(cleared);
    CutKeepsFour(headed.stmts, headed.tail, AccessLog);
  }

  lemma HeadersBegin(ss: seq<Stmt>)
    requires Begins(ss) && IsProxy(ss[3])
    ensures Begins(AddHeaders("", ss)) && !Picked(AddHeaders("", ss)[3], AccessLog)
  {
    hide Picked, Phrase, IsProxy, OpensServer, HeaderGap, HeaderIndent, HeaderStmt;
    StmtFacts();
    AddHeadersSkip("", ss);
    AddHeadersSkip("" + FIRST.gap + FIRST.raw, ss[1..]);
    AddHeadersSkip("" + FIRST.gap + FIRST.raw + CLOSED.gap + CLOSED.raw, ss[2..]);
    assert ss[1..][1..] == ss[2..] && ss[2..][1..] == ss[3..];
    var b := "" + FIRST.gap + FIRST.raw + CLOSED.gap + CLOSED.raw + SECOND.gap + SECOND.raw;
    assert ss[3..][0] == ss[3];
    assert AddHeaders(b, ss[3..]) == HeadedProxy(b, ss[3]) + ss[3..][1..];
    HeaderIsPicked(HeaderGap(b, ss[3]), REAL_IP_WORDS, ss[3]);
  }

  lemma AddHeadersSkip(b: string, ss: seq<Stmt>)
    requires ss != [] && !IsProxy(ss[0])
    ensures AddHeaders(b, ss) == [ss[0]] + AddHeaders(b + ss[0].gap + ss[0].raw, ss[1..])
  {}

  lemma LineHere(line: string)
    requires line == "" || line == "\n"
    ensures |Margin(LastLine(SERVER + "{" + line + " }" + SERVER))| == if line == "" then 0 else 1
  {
    var x, y := SERVER + "{", " }" + SERVER;
    assert x + line + " }" + SERVER == (x + line) + y;
    LastConcat(x + line, y);
    NoNewlineHere();
    LastConcat(x, line);
    if line == "" {
      assert x + "" == x;
      LastSplit(x);
      MarginOf(x + y);
    } else {
      assert "\n"[0] == '\n' && LastLine("\n") == "";
      assert "" + y == y;
      MarginOf(y);
    }
  }

  lemma PlacesHere(c: Stmt, line: string)
    requires c == CLOSED.(gap := line + " ") && (line == "" || line == "\n")
    ensures var p := Opening("" + FIRST.gap + FIRST.raw + c.gap + c.raw, SECOND);
      p.Some? && |p.value.indent| == |INDENT| + if line == "" then 0 else 1
  {
    hide Margin, LastLine;
    LineHere(line);
    var b := "" + FIRST.gap + FIRST.raw + c.gap + c.raw;
    assert SECOND.raw[..|SECOND.raw| - 1] == SERVER;
    assert b + SECOND.gap + SERVER == SERVER + "{" + line + " }" + SERVER;
  }

  lemma MarginOf(s: string)
    requires |s| > 1
    ensures s[0] != ' ' && s[0] != '\t' ==> Margin(s) == ""
    ensures s[0] == ' ' && s[1] != ' ' && s[1] != '\t' ==> Margin(s) == " "
  {
    assert s[1..][0] == s[1];
    assert [' '] + "" == " ";
  }

  lemma NoNewlineHere()
    ensures !HasNewline(" }" + SERVER) && !HasNewline(SERVER + "{")
  {}

  /** The gap of the second server's log line. */
  lemma SecondLog(ss: seq<Stmt>, c: Stmt, line: string)
    requires |ss| > 3 && ss[0] == FIRST && ss[1] == c && ss[2] == SECOND
    requires c == CLOSED.(gap := line + " ") && (line == "" || line == "\n")
    ensures var lines := AddLines("", None, ss, LOG_LINES);
      && |lines| > 4
      && |lines[4].gap| == |Lead(ss[3].gap)| + |INDENT| + if line == "" then 0 else 1
  {
    hide Phrase, AddLines, LogStmt, Trail, Opening, OpensServer, Lead;
    StmtFacts();
    PlacesHere(c, line);
    ServerIgnoresGap(CLOSED, c.gap);
    AddLogsFirstStmt("", None, ss);
    var b1 := "" + FIRST.gap + FIRST.raw;
    var b2 := b1 + c.gap + c.raw;
    var b3 := b2 + SECOND.gap + SECOND.raw;
    assert Opening("", FIRST).Some? by { OpensHere(""); }
    var p := Opening("", FIRST).value;
    AddLogsFirstStmt(b1, Some(p), ss[1..]);
    NotServer(b1, c);
    AddLogsFirstStmt(b2, None, ss[2..]);
    assert ss[1..][1..] == ss[2..] && ss[2..][1..] == ss[3..] && ss[2..][0] == SECOND && ss[3..][0] == ss[3];
    var q := Opening(b2, SECOND).value;
    AddLogsFirstStmt(b3, Some(q), ss[3..]);
    LogStmtFacts(q, ss[3].gap, []);
    var a3 := AddLines(b3, Some(q), ss[3..], LOG_LINES);
    var a2 := AddLines(b2, None, ss[2..], LOG_LINES);
    var a1 := AddLines(b1, Some(p), ss[1..], LOG_LINES);
    assert a3[0] == LogStmt(q, ss[3].gap);
    assert a2 == [SECOND] + a3;
    assert a1 == [LogStmt(p, c.gap)] + ([c.(gap := "\n" + Trail(c.gap))] + a2);
    assert AddLines("", None, ss, LOG_LINES) == [FIRST] + a1;
    assert AddLines("", None, ss, LOG_LINES)[4] == a3[0];
  }

  lemma OpensHere(b: string)
    ensures Opening(b, FIRST).Some?
  {}

  lemma StraightenedBegins(ss: seq<Stmt>)
    requires Begins(ss)
    ensures var n := Normal(false, ss);
      && |n| > 3 && n[0] == FIRST && n[1] == CLOSED.(gap := "\n" + " ") && n[2] == SECOND && Lead(n[3].gap) == Lead(ss[3].gap)
  {
    hide Phrase, OpensServer, Lead, Trail, Normal;
    StmtFacts();
    NormalFirst(false, ss);
    NormalFirst(true, ss[1..]);
    NormalFirst(false, ss[2..]);
    NormalFirst(true, ss[3..]);
    assert ss[1..][1..] == ss[2..] && ss[2..][1..] == ss[3..];
    StraightFacts(ss[3]);
    assert !HasNewline(CLOSED.gap);
  }

  lemma TwoIndents()
    ensures RenderDoc(Finished(Finished(SITE))) != RenderDoc(Finished(SITE))
  {
    hide WellFormed, AddLines, Unlogged, Normal, OneProxy, Phrase, Upstream, Items, Finished, Lead;
    UnloggedBegins();
    FinishedMeaning(SITE);
    FinishedMeaning(Finished(SITE));
    SecondRewrite(SITE);
    FinishedIs(SITE);
    var u := Unlogged(SITE).stmts;
    assert "" + " " == " ";
    SecondLog(u, CLOSED, "");
    StraightenedBegins(u);
    SecondLog(Normal(false, u), CLOSED.(gap := "\n" + " "), "\n");
    assert Finished(SITE).stmts == AddLines("", None, u, LOG_LINES);
    assert Finished(Finished(SITE)).stmts == AddLines("", None, Normal(false, u), LOG_LINES);
    DocumentsDiffer(Finished(Finished(SITE)), Finished(SITE));
  }

  lemma OneLineKept()
    ensures RemoveMaintenance(ONE_LINE) == Ok(ONE_LINE)
    ensures !Occurs(MAINTENANCE_BEGIN, ONE_LINE)
  {
    hide Occurs, Lines, NoBegin, RemoveMaintenance, Plain, Upstream, Phrase;
    Markers();
    UpstreamFacts();
    GraphicIsPlain("proxy_pass");
    PhraseHasNoHash(PROXY_WORDS);
    assert '#' !in ONE_LINE;
    NoHashNoMarker(MAINTENANCE_BEGIN, ONE_LINE);
    NoHashNoMarker(MAINTENANCE_END, ONE_LINE);
    NoMarkerText(ONE_LINE);
    RemoveIdle(ONE_LINE);
  }

  lemma RoutedHere()
    ensures Routed(SITE, P3008) == SITE
  {
    hide Upstream, Phrase, Reads, IsProxy, WellFormed;
    StatementsRead();
    StmtFacts();
    PointToReads(PROXY, P3008);
    assert PROXY.words[1] == Upstream(P3008);
    NotProxyKept(FIRST, P3008);
    NotProxyKept(CLOSED, P3008);
    NotProxyKept(SECOND, P3008);
    NotProxyKept(LAST, P3008);
    RerouteCons(LAST, [], P3008);
    RerouteCons(PROXY, [LAST] + [], P3008);
    RerouteCons(SECOND, [PROXY] + ([LAST] + []), P3008);
    RerouteCons(CLOSED, [SECOND] + ([PROXY] + ([LAST] + [])), P3008);
    RerouteCons(FIRST, [CLOSED] + ([SECOND] + ([PROXY] + ([LAST] + []))), P3008);
    assert Reroute([], P3008) == [];
  }

  lemma CutoverHere()
    ensures RemoveMaintenance(ONE_LINE) == Ok(ONE_LINE) && DocOf(ONE_LINE) == SITE && Verdict(ONE_LINE).Ok?
    ensures Cutover(ONE_LINE, P3008).Ok?
  {
    hide RemoveMaintenance, DocOk, RenderDoc, Finished, Routed, Accepted, Phrase, Upstream, DocOf, Meaning, Cutover,
      Verdict, Items;
    SiteFits();
    SiteText();
    SiteAccepted();
    OneLineKept();
    TwoDocs(ONE_LINE, SITE);
    DocMeaning(SITE);
    VerdictOfDoc(ONE_LINE, P3008);
    CutoverOk(ONE_LINE, P3008);
  }

  /** No line of a result is a begin marker. */
  lemma QuietHere(p: Port)
    ensures Cutover(ONE_LINE, p).Ok? && NoBegin(Lines(Cutover(ONE_LINE, p).value.0))
  {
    hide RemoveMaintenance, DocOk, RenderDoc, Finished, Routed, Accepted, Phrase, Upstream, DocOf, Meaning, Cutover,
      Verdict, Items, ServerIds, OneProxy, RewriteItems, Occurs, NoBegin, Lines, Unmarked;
    CutoverHere();
    CutoverOk(ONE_LINE, p);
    CutoverDoc(ONE_LINE, p);
    OneLineKept();
    Markers();
    RewriteFree(MAINTENANCE_BEGIN, SITE, p);
    NoMarkerText(RenderDoc(Finished(Routed(SITE, p))));
  }

  /** Repeating a cutover of `ONE_LINE` changes the text: the second server's log line is indented by one more blank. */
  lemma RepeatChangesText()
    ensures Cutover(ONE_LINE, P3008).Ok? && Cutover(Cutover(ONE_LINE, P3008).value.0, P3008).Ok?
    ensures Cutover(Cutover(ONE_LINE, P3008).value.0, P3008) != Cutover(ONE_LINE, P3008)
    ensures !Steady(Cutover(ONE_LINE, P3008).value.0)
  {
    RollbackHere(P3008);
    QuietHere(P3008);
    hide Cutover, Steady, NoBegin, Lines;
    CutoverTwice(ONE_LINE, P3008);
  }

  /** A cutover of `ONE_LINE` and one to port 3008 after it differ from the cutover to port 3008 alone. */
  lemma RollbackHere(p: Port)
    ensures Cutover(ONE_LINE, p).Ok? && Cutover(Cutover(ONE_LINE, p).value.0, P3008).Ok?
    ensures Cutover(Cutover(ONE_LINE, p).value.0, P3008) != Cutover(ONE_LINE, P3008)
  {
    hide RemoveMaintenance, DocOk, RenderDoc, Finished, Routed, Accepted, Phrase, Upstream, DocOf, Meaning, Cutover,
      Verdict, Items, ServerIds, OneProxy, RewriteItems, Occurs, NoBegin, Lines;
    CutoverHere();
    QuietHere(p);
    CutoverDoc(ONE_LINE, P3008);
    RoutedHere();
    TwoIndents();
    CutoverAgain(ONE_LINE, p, P3008);
  }

  /** Cutting `ONE_LINE` over to port 3009 and back gives another text than cutting it over to port 3008. */
  lemma RollbackChangesText()
    ensures Cutover(ONE_LINE, P3009).Ok? && Cutover(Cutover(ONE_LINE, P3009).value.0, P3008).Ok?
    ensures Cutover(Cutover(ONE_LINE, P3009).value.0, P3008) != Cutover(ONE_LINE, P3008)
  {
    hide Cutover;
    RollbackHere(P3009);
  }

  // ----- Maintenance on the same site

  lemma {:induction false} NobodyReturns(items: seq<Item>, server: nat)
    requires forall i <- items :: i.name != RETURN
    ensures Count503(Shapes(items), server) == 0
  {
    hide Count503, Shapes;
    if items == [] {
      NoneCounted(server);
    } else {
      assert items[0] in items && forall i <- items[1..] :: i in items;
      assert items == [items[0]] + items[1..];
      NobodyReturns(items[1..], server);
      OtherCount(items[0], server);
      ShapesConcat([items[0]], items[1..]);
      Count503Concat(Shapes([items[0]]), Shapes(items[1..]), server);
    }
  }

  lemma {:induction false} NoServerReturns(servers: seq<nat>, items: seq<Item>)
    requires forall i <- items :: i.name != RETURN
    ensures NoneReturns503(servers, Shapes(items))
  {
    hide Count503, Shapes;
    if servers != [] {
      NobodyReturns(items, servers[0]);
      NoServerReturns(servers[1..], items);
    }
  }

  lemma NamesHere()
    ensures forall i <- Items(SITE.stmts) :: i.name != RETURN
  {
    hide Phrase, Upstream;
    assert SERVER[0] != RETURN[0] && "}"[0] != RETURN[0] && "proxy_pass"[0] != RETURN[0];
    var a := [LAST] + [];
    var b := [PROXY] + a;
    var c := [SECOND] + b;
    ViewsOf(LAST, []);
    ViewsOf(PROXY, a);
    ViewsOf(SECOND, b);
    ViewsOf(CLOSED, c);
    ViewsOf(FIRST, [CLOSED] + c);
    assert Items([]) == [];
  }

  lemma ViewsOf(s: Stmt, rest: seq<Stmt>)
    ensures Items([s] + rest) == [View(s)] + Items(rest) && View(s).name == s.name
  {
    assert ([s] + rest)[1..] == rest;
  }

  /** Turning maintenance on for `ONE_LINE` twice succeeds and differs from turning it on once. */
  lemma MaintenanceChangesText()
    ensures ConfigureMaintenance(ONE_LINE).Ok? && ConfigureMaintenance(ConfigureMaintenance(ONE_LINE).value.0).Ok?
    ensures ConfigureMaintenance(ConfigureMaintenance(ONE_LINE).value.0) != ConfigureMaintenance(ONE_LINE)
  {
    hide RemoveMaintenance, DocOk, RenderDoc, Finished, Accepted, Phrase, Upstream, DocOf, Meaning, Cutover, Verdict,
      Items, ServerIds, Shapes, OneProxy, RewriteItems, Occurs, ActivePort, ConfigureMaintenance, NoneReturns503,
      Steady, Coverable, Routed;
    CutoverHere();
    OneLineKept();
    CutoverDoc(ONE_LINE, P3008);
    RoutedHere();
    ActiveOfRouted(SITE, P3008);
    NamesHere();
    NoServerReturns(ServerIds(Items(SITE.stmts)), Items(SITE.stmts));
    MaintenanceSucceeds(ONE_LINE);
    MaintenanceAgain(ONE_LINE);
    RepeatChangesText();
    MaintenanceTwice(ONE_LINE);
  }
}
