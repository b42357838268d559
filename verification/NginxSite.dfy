/** The cutover of a site: its steps on texts, and the same steps on documents. */
module NginxSite {
  import opened Options
  import opened NginxText
  import opened NginxParser
  import opened NginxDocument
  import opened NginxRemoval
  import opened NginxMeaning
  import opened NginxPhrases
  import opened NginxInsertion
  import opened NginxServers
  import opened NginxUpstream
  import opened NginxHeaders
  import opened NginxAudit
  import opened NginxGuarantees
  import opened NginxMarkers

  /** From the replaced upstream on: headers, access logs, audit. */
  function FinishSite(text: string): Result<(string, nat)> {
    var headed :- InstallHeaders(text);
    var parsed :- ParseNginx(headed);
    var cleared := RemoveDirectives(headed, Select(parsed.directives, AccessLog));
    var reparsed :- ParseNginx(cleared);
    if ServerBlocks(reparsed.blocks) == [] then Err(NoServers)
    else
      var final := InsertLogs(cleared, reparsed);
      var last :- ParseNginx(final);
      var counts :- Audit(final, last);
      if counts.1 != counts.0 then Err(AccessLogCount) else Ok((final, counts.0))
  }

  /** The rewrite of a text without maintenance blocks, to upstream port `p`. */
  function RewriteSite(text: string, p: Port): Result<(string, nat)> {
    var parsed :- ParseNginx(text);
    if HasInclude(ShapesOf(parsed.directives)) then Err(IncludeInSite)
    else
      var olds := Select(parsed.directives, ToPort(Other(p)));
      var candidates := Select(parsed.directives, ToPort(p));
      if |olds| == 1 && candidates == [] then FinishSite(SwapArgument(text, olds[0], Upstream(p)))
      else if olds == [] && |candidates| == 1 then FinishSite(text)
      else Err(UpstreamCount)
  }

  function Cutover(text: string, p: Port): Result<(string, nat)> {
    var kept :- RemoveMaintenance(text);
    RewriteSite(kept, p)
  }

  /** `configure_site`: the rewritten text and the number of servers. */
  function ConfigureSite(text: string, oldPort: string, candidatePort: string): Result<(string, nat)> {
    if oldPort == candidatePort then Err(SamePorts)
    else if {oldPort, candidatePort} != {"3008", "3009"} then Err(UnknownPorts)
    else Cutover(text, if candidatePort == "3008" then P3008 else P3009)
  }

  /** `active_upstream_port`. */
  function ActivePort(text: string): Result<Port> {
    var parsed :- ParseNginx(text);
    var active := Select(parsed.directives, AstraProxy);
    if |active| != 1 then Err(UpstreamCount)
    else Ok(if ProxyTo(P3008, ShapeOf(active[0])) then P3008 else P3009)
  }

  // ----- The steps on documents

  function ClearHeaders(d: Doc): Doc {
    Cut(d.stmts, d.tail, ClientIpIn(ProxyScope(Items(d.stmts))), true, "", false)
  }

  function WithHeaders(d: Doc): Doc { Doc(AddHeaders("", d.stmts), d.tail) }

  function ClearLogs(d: Doc): Doc { Cut(d.stmts, d.tail, AccessLog, true, "", false) }

  function WithLogs(d: Doc): Doc { Doc(AddLines("", None, d.stmts, LOG_LINES), d.tail) }

  function Routed(d: Doc, p: Port): Doc { Doc(Reroute(d.stmts, p), d.tail) }

  /** All steps after the upstream is replaced. */
  function Finished(d: Doc): Doc { WithLogs(ClearLogs(WithHeaders(ClearHeaders(d)))) }

  predicate DocOk(d: Doc) { WellFormed(OUTSIDE, d.stmts, d.tail) }

  /** Exactly one Astra upstream. */
  predicate OneProxy(d: Doc) { CountChosen(Items(d.stmts), AstraProxy) == 1 }

  /** The sites the rewrite accepts. */
  predicate Accepted(d: Doc) {
    && !HasInclude(Shapes(Items(d.stmts))) && OneProxy(d)
    && ServerIds(Items(d.stmts)) != [] && AuditFormats(FormatRaws(d.stmts)).Ok?
  }

  // ----- Each step keeps documents well formed and edits their meaning

  lemma ClearHeadersMeaning(d: Doc)
    requires DocOk(d)
    ensures DocOk(ClearHeaders(d))
    ensures Items(ClearHeaders(d).stmts) == Drop(Items(d.stmts), ClientIpIn(ProxyScope(Items(d.stmts))))
  {
    EmptyIsGap();
    CutMeaning(OUTSIDE, d.stmts, d.tail, ClientIpIn(ProxyScope(Items(d.stmts))), true, "", false);
  }

  lemma WithHeadersMeaning(d: Doc)
    requires DocOk(d)
    ensures DocOk(WithHeaders(d)) && Items(WithHeaders(d).stmts) == AddHeaderItems(Items(d.stmts))
  {
    AddHeadersMeaning(OUTSIDE, "", d.stmts, d.tail);
  }

  lemma ClearLogsMeaning(d: Doc)
    requires DocOk(d)
    ensures DocOk(ClearLogs(d)) && Items(ClearLogs(d).stmts) == Drop(Items(d.stmts), AccessLog)
  {
    EmptyIsGap();
    CutMeaning(OUTSIDE, d.stmts, d.tail, AccessLog, true, "", false);
  }

  lemma LogLinesOk()
    ensures LinesOk(LOG_LINES)
  {
    hide LexesAs;
    AccessLogLexes();
    assert LOG_LINES[1..] == [];
  }

  lemma WithLogsMeaning(d: Doc)
    requires DocOk(d)
    ensures DocOk(WithLogs(d)) && Items(WithLogs(d).stmts) == AddItems(None, Items(d.stmts), LOG_LINES)
  {
    LogLinesOk();
    AddLinesMeaning(OUTSIDE, "", None, d.stmts, d.tail, LOG_LINES);
  }

  lemma {:induction false} RerouteItemsOf(ss: seq<Stmt>, p: Port)
    ensures Items(Reroute(ss, p)) == RerouteItems(Items(ss), p)
  {
    hide View, PointTo, RerouteItem;
    if ss != [] {
      RerouteItemsOf(ss[1..], p);
      assert Reroute(ss, p)[1..] == Reroute(ss[1..], p);
      assert Items(ss)[0] == View(ss[0]) && Items(ss)[1..] == Items(ss[1..]);
      RerouteView(ss[0], p);
    }
  }

  lemma RerouteView(s: Stmt, p: Port)
    ensures View(PointTo(s, p)) == RerouteItem(View(s), p)
  {
    hide Upstream, ReplaceArgument;
    ProxyItemIs(s);
  }

  lemma RoutedMeaning(d: Doc, p: Port)
    requires DocOk(d)
    ensures DocOk(Routed(d, p)) && Items(Routed(d, p).stmts) == RerouteItems(Items(d.stmts), p)
  {
    RerouteWellFormed(OUTSIDE, d.stmts, d.tail, p);
    RerouteItemsOf(d.stmts, p);
  }

  lemma FinishedMeaning(d: Doc)
    requires DocOk(d)
    ensures DocOk(ClearHeaders(d)) && DocOk(WithHeaders(ClearHeaders(d)))
    ensures DocOk(ClearLogs(WithHeaders(ClearHeaders(d)))) && DocOk(Finished(d))
    ensures var headed := AddHeaderItems(Drop(Items(d.stmts), ClientIpIn(ProxyScope(Items(d.stmts)))));
      && Items(WithHeaders(ClearHeaders(d)).stmts) == headed
      && Items(ClearLogs(WithHeaders(ClearHeaders(d))).stmts) == Drop(headed, AccessLog)
      && Items(Finished(d).stmts) == AddItems(None, Drop(headed, AccessLog), LOG_LINES)
  {
    hide DocOk, ClearHeaders, WithHeaders, ClearLogs, WithLogs, Drop, AddHeaderItems, AddItems, Items;
    ClearHeadersMeaning(d);
    WithHeadersMeaning(ClearHeaders(d));
    ClearLogsMeaning(WithHeaders(ClearHeaders(d)));
    WithLogsMeaning(ClearLogs(WithHeaders(ClearHeaders(d))));
  }

  // ----- Raw formats survive every step

  lemma {:induction false} FormatsConcat(a: seq<Stmt>, b: seq<Stmt>)
    ensures FormatRaws(a + b) == FormatRaws(a) + FormatRaws(b)
  {
    hide Picked;
    if a == [] {
      assert a + b == b;
    } else {
      assert (a + b)[1..] == a[1..] + b;
      FormatsConcat(a[1..], b);
    }
  }

  function FormatList(s: Stmt): seq<string> { if Picked(s, AstraFormat) then [s.raw] else [] }

  lemma FormatsFirst(s: Stmt, rest: seq<Stmt>)
    ensures FormatRaws([s] + rest) == FormatList(s) + FormatRaws(rest)
  {
    assert ([s] + rest)[1..] == rest;
  }

  lemma {:induction false} CutFormats(ss: seq<Stmt>, tail: string, p: Shape -> bool, first: bool, carry: string,
                                      eaten: bool)
    requires forall d :: p(d) ==> !AstraFormat(d)
    ensures FormatRaws(Cut(ss, tail, p, first, carry, eaten).stmts) == FormatRaws(ss)
    decreases |ss|
  {
    hide Picked, Alone, AstraFormat;
    if ss != [] {
      var s, rest := ss[0], ss[1..];
      var g := Left(s.gap, eaten);
      CutFirst(ss, tail, p, first, carry, eaten);
      assert ss == [s] + rest;
      FormatsFirst(s, rest);
      if !Picked(s, p) {
        CutFormats(rest, tail, p, false, "", false);
        FormatsFirst(s.(gap := carry + g), Cut(rest, tail, p, false, "", false).stmts);
        SameFormat(s, carry + g);
      } else {
        var alone := Alone(ss, tail, first);
        CutFormats(rest, tail, p, false, carry + (if alone then ThroughNewline(g) else g), alone);
        NotFormat(s, p);
      }
    }
  }

  lemma SameFormat(s: Stmt, gap: string)
    ensures FormatList(s.(gap := gap)) == FormatList(s)
  {}

  lemma NotFormat(s: Stmt, p: Shape -> bool)
    requires Picked(s, p) && forall d :: p(d) ==> !AstraFormat(d)
    ensures FormatList(s) == []
  {
    assert p(StmtShape(s));
  }

  lemma RulesSpareFormats(blocks: seq<nat>)
    ensures forall d :: ClientIpIn(blocks)(d) ==> !AstraFormat(d)
    ensures forall d :: AccessLog(d) ==> !AstraFormat(d)
  {
    assert PROXY_SET_HEADER[0] != "log_format"[0] && ACCESS_LOG[0] != "log_format"[0];
  }

  lemma {:induction false} AddHeadersFormats(b: string, ss: seq<Stmt>)
    ensures FormatRaws(AddHeaders(b, ss)) == FormatRaws(ss)
    decreases |ss|
  {
    hide IsProxy, HeadedProxy;
    if ss != [] {
      var s, rest := ss[0], ss[1..];
      assert ss == [s] + rest;
      FormatsFirst(s, rest);
      if IsProxy(s) {
        HeadedProxyFormats(b, s);
        FormatsConcat(HeadedProxy(b, s), rest);
      } else {
        AddHeadersFormats(b + s.gap + s.raw, rest);
        FormatsFirst(s, AddHeaders(b + s.gap + s.raw, rest));
      }
    }
  }

  lemma HeadedProxyFormats(b: string, s: Stmt)
    ensures FormatRaws(HeadedProxy(b, s)) == FormatList(s)
  {
    hide Phrase, HeaderGap, HeaderIndent;
    var i := HeaderIndent(b, s);
    var x, y := HeaderStmt(HeaderGap(b, s), REAL_IP_WORDS, s), HeaderStmt("\n" + i, FORWARDED_FOR_WORDS, s);
    var z := s.(gap := "\n" + i);
    assert HeadedProxy(b, s) == [x] + ([y] + [z]);
    FormatsFirst(x, [y] + [z]);
    FormatsFirst(y, [z]);
    assert [z] == [z] + [];
    FormatsFirst(z, []);
    assert PROXY_SET_HEADER[0] != "log_format"[0];
    SameFormat(s, "\n" + i);
  }

  lemma {:induction false} FillFormats(place: Place, lines: seq<Line>, carry: string)
    requires forall i :: 0 <= i < |lines| ==> lines[i].Code? ==> HeadWord(lines[i].words) != "log_format"
    ensures FormatRaws(Fill(place, lines, carry).0) == []
    decreases |lines|
  {
    hide Phrase, HeadWord;
    if lines != [] {
      match lines[0]
      case Note(text) => FillFormats(place, lines[1..], carry + place.indent + text + "\n");
      case Code(words) =>
        FillFormats(place, lines[1..], "\n");
        FormatsFirst(Stmt(carry + place.indent, Phrase(words), words, ';', HeadWord(words), place.chain, 0),
                     Fill(place, lines[1..], "\n").0);
    }
  }

  lemma {:induction false} AddLinesFormats(b: string, place: Option<Place>, ss: seq<Stmt>, lines: seq<Line>)
    requires forall i :: 0 <= i < |lines| ==> lines[i].Code? ==> HeadWord(lines[i].words) != "log_format"
    ensures FormatRaws(AddLines(b, place, ss, lines)) == FormatRaws(ss)
    decreases |ss|
  {
    hide Fill, Opening, FormatRaws;
    if ss != [] {
      var s, rest := ss[0], ss[1..];
      var more := AddLines(b + s.gap + s.raw, Opening(b, s), rest, lines);
      assert ss == [s] + rest;
      FormatsFirst(s, rest);
      AddLinesFormats(b + s.gap + s.raw, Opening(b, s), rest, lines);
      match place
      case None => FormatsFirst(s, more);
      case Some(p) =>
        var f := Fill(p, lines, Lead(s.gap));
        var t := s.(gap := f.1 + Trail(s.gap));
        FillFormats(p, lines, Lead(s.gap));
        assert f.0 + [t] + more == f.0 + ([t] + more);
        FormatsConcat(f.0, [t] + more);
        FormatsFirst(t, more);
        SameFormat(s, t.gap);
    }
  }

  lemma {:induction false} RerouteFormats(ss: seq<Stmt>, p: Port)
    ensures FormatRaws(Reroute(ss, p)) == FormatRaws(ss)
  {
    hide PointTo, FormatRaws;
    if ss != [] {
      var s, rest := ss[0], ss[1..];
      assert ss == [s] + rest;
      RerouteFormats(rest, p);
      FormatsFirst(s, rest);
      FormatsFirst(PointTo(s, p), Reroute(rest, p));
      PointToFormat(s, p);
    }
  }

  lemma PointToFormat(s: Stmt, p: Port)
    ensures FormatList(PointTo(s, p)) == FormatList(s)
  {
    hide Upstream, ReplaceArgument;
    ProxyWords(s);
    assert "proxy_pass"[0] != "log_format"[0];
  }

  lemma FinishedFormats(d: Doc)
    ensures FormatRaws(Finished(d).stmts) == FormatRaws(d.stmts)
  {
    hide FormatRaws, Cut, AddHeaders, AddLines, Items, ProxyScope;
    RulesSpareFormats(ProxyScope(Items(d.stmts)));
    CutFormats(d.stmts, d.tail, ClientIpIn(ProxyScope(Items(d.stmts))), true, "", false);
    AddHeadersFormats("", ClearHeaders(d).stmts);
    var headed := WithHeaders(ClearHeaders(d));
    CutFormats(headed.stmts, headed.tail, AccessLog, true, "", false);
    assert HeadWord(ACCESS_LOG_WORDS) != "log_format" by { assert ACCESS_LOG[0] != "log_format"[0]; }
    AddLinesFormats("", None, ClearLogs(headed).stmts, LOG_LINES);
  }
}
