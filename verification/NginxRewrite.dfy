/** The rewrite of a text is the rewrite of its document, and which texts it accepts. */
module NginxRewrite {
  import opened Options
  import opened NginxText
  import opened NginxParser
  import opened NginxDocument
  import opened NginxRemoval
  import opened NginxMeaning
  import opened NginxInsertion
  import opened NginxServers
  import opened NginxUpstream
  import opened NginxHeaders
  import opened NginxAudit
  import opened NginxGuarantees
  import opened NginxSite

  lemma {:induction false} CountsAgree(ss: seq<Stmt>, p: Shape -> bool)
    ensures CountPicked(ss, p) == CountChosen(Items(ss), p)
  {
    hide Picked, Chosen, View;
    if ss != [] {
      CountsAgree(ss[1..], p);
      ChosenIsPicked(ss[0], p);
      assert Items(ss)[0] == View(ss[0]) && Items(ss)[1..] == Items(ss[1..]);
    }
  }

  lemma {:induction false} ScopeOfFirst(ss: seq<Stmt>, at: int)
    requires CountPicked(ss, AstraProxy) > 0
    ensures FirstPicked(ss, at, AstraProxy).1.chain == ProxyScope(Items(ss))
  {
    hide Picked, ProxyItem;
    assert Items(ss)[0] == View(ss[0]) && Items(ss)[1..] == Items(ss[1..]);
    ProxyItemIs(ss[0]);
    if !Picked(ss[0], AstraProxy) {
      ScopeOfFirst(ss[1..], at + |ss[0].gap| + |ss[0].raw|);
    }
  }

  /** The parse of a document's text. */
  lemma ParseOf(d: Doc)
    requires DocOk(d)
    ensures Readable(d.stmts)
    ensures var r := ParseNginx(RenderDoc(d));
      && r.Ok?
      && r.value.directives == DocDirectives(d.stmts, 0)
      && ServerBlocks(r.value.blocks) == DocServers(d.stmts, 0)
  {
    hide WellFormed, Nodes;
    ParseDocument(d.stmts, d.tail);
    DirectivesOfDocument(d.stmts, 0);
    ServersOfDocument(d.stmts, 0);
  }

  lemma OnlyProxy(d: Doc)
    requires DocOk(d) && OneProxy(d)
    ensures CountPicked(d.stmts, AstraProxy) == 1
    ensures ParseNginx(RenderDoc(d)).Ok?
    ensures var (here, s) := FirstPicked(d.stmts, 0, AstraProxy);
      && Reads(s) && Picked(s, AstraProxy)
      && AstraProxyOf(ParseNginx(RenderDoc(d)).value) == Ok(DirectiveAt(s, here))
      && DirectiveAt(s, here).blocks == ProxyScope(Items(d.stmts))
  {
    hide DocOk, Reads, Picked, Select, RenderDoc, ParseNginx;
    ParseOf(d);
    CountsAgree(d.stmts, AstraProxy);
    SelectedOfDocument(d.stmts, 0, AstraProxy);
    ScopeOfFirst(d.stmts, 0);
  }

  lemma ClearedKeepsProxy(d: Doc)
    requires DocOk(d) && OneProxy(d)
    ensures OneProxy(ClearHeaders(d))
  {
    hide Drop, Shapes, AstraScopes, Without, ClientIpIn, Items, ClearHeaders, DocOk;
    var items, c := Items(d.stmts), ProxyScope(Items(d.stmts));
    ClearHeadersMeaning(d);
    FirstScope(items);
    FirstScope(Drop(items, ClientIpIn(c)));
    DropShapes(items, ClientIpIn(c));
    ClientIpIsNoProxy(c);
    ScopesWithout(Shapes(items), ClientIpIn(c));
  }

  /** Installing the headers in a text is installing them in its document. */
  lemma InstallIsDoc(d: Doc)
    requires DocOk(d) && OneProxy(d)
    ensures InstallHeaders(RenderDoc(d)) == Ok(RenderDoc(WithHeaders(ClearHeaders(d))))
  {
    hide DocOk, Reads, Picked, Select, Cut, AstraProxyOf, RemoveDirectives, HeaderInsertion, InsertAt, DirectiveAt,
      AddHeaders, OneProxy, ParseNginx, Spans;
    OnlyProxy(d);
    assert WellFormed(OUTSIDE, d.stmts, d.tail) by { DocIsWellFormed(d); }
    RemovalIsCut(d.stmts, d.tail, ClientIpIn(ProxyScope(Items(d.stmts))));
    var e := ClearHeaders(d);
    ClearHeadersMeaning(d);
    ClearedKeepsProxy(d);
    OnlyProxy(e);
    ParseOf(e);
    InsertIsAddHeaders("", e.stmts, e.tail);
    assert "" + RenderDoc(e) == RenderDoc(e);
    assert "" + (Render(AddHeaders("", e.stmts)) + e.tail) == Render(AddHeaders("", e.stmts)) + e.tail;
  }

  lemma DocIsWellFormed(d: Doc)
    ensures DocOk(d) <==> WellFormed(OUTSIDE, d.stmts, d.tail)
  {}

  lemma LogsIsDoc(d: Doc)
    requires DocOk(d)
    ensures ParseNginx(RenderDoc(d)).Ok?
    ensures InsertLogs(RenderDoc(d), ParseNginx(RenderDoc(d)).value) == RenderDoc(WithLogs(d))
    ensures Identifiers(ServerBlocks(ParseNginx(RenderDoc(d)).value.blocks)) == ServerIds(Items(d.stmts))
    ensures ServerBlocks(ParseNginx(RenderDoc(d)).value.blocks) == [] <==> ServerIds(Items(d.stmts)) == []
  {
    hide WellFormed, InsertLogs, AddLines, ParseNginx;
    InsertLogsIsAddLines(d.stmts, d.tail);
    ParseOf(d);
    ServerIdsOfDocument(d.stmts, 0);
    SameLength(DocServers(d.stmts, 0));
  }

  lemma {:induction false} SameLength(blocks: seq<Block>)
    ensures |Identifiers(blocks)| == |blocks|
  {
    if blocks != [] { SameLength(blocks[1..]); }
  }

  lemma ClearLogsIsDoc(d: Doc)
    requires DocOk(d)
    ensures var r := ParseNginx(RenderDoc(d));
      r.Ok? && RemoveDirectives(RenderDoc(d), Select(r.value.directives, AccessLog)) == RenderDoc(ClearLogs(d))
  {
    hide WellFormed, RemoveDirectives, Cut, ParseNginx, Select, Spans;
    RemovalIsCut(d.stmts, d.tail, AccessLog);
  }

  /** The answer for a document with exactly one Astra upstream and no include. */
  function Answer(d: Doc, p: Port): Result<(string, nat)> {
    var servers, formats := ServerIds(Items(d.stmts)), AuditFormats(FormatRaws(d.stmts));
    if servers == [] then Err(NoServers)
    else if formats.Err? then Err(formats.error)
    else Ok((RenderDoc(Finished(Routed(d, p))), |servers|))
  }

  /** The steps after the replaced upstream. */
  lemma FinishIsDoc(d0: Doc, p: Port)
    requires DocOk(d0) && OneProxy(d0) && !HasInclude(Shapes(Items(d0.stmts)))
    ensures FinishSite(RenderDoc(Routed(d0, p))) == Answer(d0, p)
  {
    hide DocOk, RenderDoc, ParseNginx, RemoveDirectives, InsertLogs, Audit, InstallHeaders, Items, ServerIds, Shapes,
      FormatRaws, AuditFormats, HasInclude, Drop, AddHeaderItems, RerouteItems, AddItems, ClearHeaders, WithHeaders,
      ClearLogs, WithLogs, Routed, ClientIpIn, Numbered, Continued, Select, OneProxy;
    var d := Routed(d0, p);
    var items0 := Items(d0.stmts);
    RoutedMeaning(d0, p);
    RoutedFormats(d0, p);
    RerouteShapes(items0, p);
    RoutedKeepsProxy(d0, p);
    FinishedMeaning(d);
    InstallIsDoc(d);
    var headed := WithHeaders(ClearHeaders(d));
    ClearLogsIsDoc(headed);
    var cleared := ClearLogs(headed);
    LogsIsDoc(cleared);
    AuditIsDoc(Finished(d));
    FinishedFormats(d);
    DocumentNumbers(cleared);
    FinishedServers(d0, p);
    CountIsOne(d0);
    if ServerIds(items0) != [] { RewritePasses(items0, p, FormatRaws(d0.stmts)); }
  }

  lemma CountIsOne(d: Doc)
    requires OneProxy(d)
    ensures CountChosen(Items(d.stmts), AstraProxy) == 1
  {}

  lemma RoutedFormats(d: Doc, p: Port)
    ensures FormatRaws(Routed(d, p).stmts) == FormatRaws(d.stmts)
  {
    RerouteFormats(d.stmts, p);
  }

  lemma RoutedKeepsProxy(d: Doc, p: Port)
    requires DocOk(d) && OneProxy(d)
    ensures OneProxy(Routed(d, p))
  {
    hide Shapes, AstraScopes, Items, RerouteItems, DocOk;
    RoutedMeaning(d, p);
    FirstScope(Items(d.stmts));
    FirstScope(RerouteItems(Items(d.stmts), p));
    RerouteShapes(Items(d.stmts), p);
  }

  lemma AuditIsDoc(d: Doc)
    requires DocOk(d)
    ensures var r := ParseNginx(RenderDoc(d));
      r.Ok? && Audit(RenderDoc(d), r.value) == AuditItems(Items(d.stmts), FormatRaws(d.stmts))
  {
    hide WellFormed, Audit, AuditItems, ParseNginx;
    AuditOfDocument(d.stmts, d.tail);
  }

  lemma DocumentNumbers(d: Doc)
    requires DocOk(d)
    ensures Numbered(Items(d.stmts), 0) && Continued(Items(d.stmts))
  {
    hide WellFormed;
    DocumentNumbered(OUTSIDE, d.stmts, d.tail);
  }

  /** The document before the logs go in has the same servers. */
  lemma FinishedServers(d0: Doc, p: Port)
    requires DocOk(d0) && OneProxy(d0)
    ensures ServerIds(Items(ClearLogs(WithHeaders(ClearHeaders(Routed(d0, p)))).stmts)) == ServerIds(Items(d0.stmts))
    ensures Items(Finished(Routed(d0, p)).stmts) == RewriteItems(Items(d0.stmts), p)
  {
    hide DocOk, Items, ServerIds, Shapes, Drop, AddHeaderItems, RerouteItems, AddItems, ClearHeaders, WithHeaders,
      ClearLogs, WithLogs, Routed, ClientIpIn, OneProxy;
    RoutedMeaning(d0, p);
    FinishedMeaning(Routed(d0, p));
    CountIsOne(d0);
    RewriteKeepsServers(Items(d0.stmts), p);
    RerouteShapes(Items(d0.stmts), p);
    AddLogsShapes(None, Items(ClearLogs(WithHeaders(ClearHeaders(Routed(d0, p)))).stmts));
  }

  // ----- The whole rewrite

  lemma {:induction false} ProxiesByPort(ss: seq<Stmt>, p: Port)
    ensures CountPicked(ss, AstraProxy) == CountPicked(ss, ToPort(p)) + CountPicked(ss, ToPort(Other(p)))
  {
    hide Picked, ToPort;
    if ss != [] {
      ProxiesByPort(ss[1..], p);
      ProxyEither(ss[0], p);
    }
  }

  lemma IncludeOfDoc(d: Doc)
    requires DocOk(d)
    ensures var r := ParseNginx(RenderDoc(d));
      r.Ok? && (HasInclude(ShapesOf(r.value.directives)) <==> HasInclude(Shapes(Items(d.stmts))))
  {
    hide DocOk, ParseNginx, RenderDoc, HasInclude;
    ParseOf(d);
    ShapesOfDocument(d.stmts, 0);
  }

  lemma SelectedCount(d: Doc, p: Shape -> bool)
    requires DocOk(d)
    ensures var r := ParseNginx(RenderDoc(d)); r.Ok? && |Select(r.value.directives, p)| == CountPicked(d.stmts, p)
    ensures CountPicked(d.stmts, p) > 0 ==>
      var (here, s) := FirstPicked(d.stmts, 0, p);
      Reads(s) && Picked(s, p) && Select(ParseNginx(RenderDoc(d)).value.directives, p)[0] == DirectiveAt(s, here)
  {
    hide DocOk, ParseNginx, RenderDoc, Select, Reads, Picked;
    ParseOf(d);
    SelectedOfDocument(d.stmts, 0, p);
  }

  /** With exactly one Astra proxy, the text with the old upstream replaced renders the routed document. */
  lemma SwapIsRouted(d: Doc, p: Port)
    requires DocOk(d) && CountPicked(d.stmts, ToPort(Other(p))) == 1 && CountPicked(d.stmts, ToPort(p)) == 0
    ensures var r := ParseNginx(RenderDoc(d));
      && r.Ok?
      && |Select(r.value.directives, ToPort(Other(p)))| == 1
      && SwapArgument(RenderDoc(d), Select(r.value.directives, ToPort(Other(p)))[0], Upstream(p)) == RenderDoc(Routed(d, p))
  {
    hide DocOk, ParseNginx, Select, SwapArgument, Reads, Picked, Upstream, DirectiveAt, Reroute, ToPort;
    ParseOf(d);
    SelectedCount(d, ToPort(Other(p)));
    SwapIsReroute("", d.stmts, d.tail, p);
    assert "" + RenderDoc(d) == RenderDoc(d);
    assert "" + RenderDoc(Routed(d, p)) == RenderDoc(Routed(d, p));
  }

  lemma AlreadyRouted(d: Doc, p: Port)
    requires DocOk(d) && CountPicked(d.stmts, ToPort(Other(p))) == 0
    ensures Routed(d, p) == d
  {
    hide ParseNginx, RenderDoc;
    ParseOf(d);
    RerouteNothing(d.stmts, p);
  }

  /** The answer for any document. */
  function Outcome(d: Doc, p: Port): Result<(string, nat)> {
    if HasInclude(Shapes(Items(d.stmts))) then Err(IncludeInSite)
    else if !OneProxy(d) then Err(UpstreamCount)
    else Answer(d, p)
  }

  /** Which upstreams the text holds, in terms of its document. */
  lemma RewriteCases(d: Doc, p: Port)
    requires DocOk(d)
    ensures RewriteSite(RenderDoc(d), p) ==
      if HasInclude(Shapes(Items(d.stmts))) then Err(IncludeInSite)
      else if CountPicked(d.stmts, ToPort(Other(p))) == 1 && CountPicked(d.stmts, ToPort(p)) == 0 then
        FinishSite(RenderDoc(Routed(d, p)))
      else if CountPicked(d.stmts, ToPort(Other(p))) == 0 && CountPicked(d.stmts, ToPort(p)) == 1 then FinishSite(RenderDoc(d))
      else Err(UpstreamCount)
  {
    hide DocOk, ParseNginx, RenderDoc, Select, FinishSite, SwapArgument, Routed, Items, Shapes, HasInclude, ToPort,
      Upstream;
    IncludeOfDoc(d);
    SelectedCount(d, ToPort(p));
    SelectedCount(d, ToPort(Other(p)));
    if CountPicked(d.stmts, ToPort(Other(p))) == 1 && CountPicked(d.stmts, ToPort(p)) == 0 { SwapIsRouted(d, p); }
  }

  lemma OneProxyCounts(d: Doc, p: Port)
    ensures OneProxy(d) <==> CountPicked(d.stmts, ToPort(p)) + CountPicked(d.stmts, ToPort(Other(p))) == 1
  {
    hide ToPort;
    ProxiesByPort(d.stmts, p);
    CountsAgree(d.stmts, AstraProxy);
  }

  /** The rewrite of a document's text: every answer, and the rewritten document when it succeeds. */
  lemma RewriteIsDoc(d: Doc, p: Port)
    requires DocOk(d)
    ensures RewriteSite(RenderDoc(d), p) == Outcome(d, p)
    ensures Outcome(d, p).Ok? <==> Accepted(d)
  {
    hide DocOk, RenderDoc, RewriteSite, FinishSite, Finished, Routed, Items, Shapes, ServerIds, HasInclude,
      AuditFormats, FormatRaws, ToPort, OneProxy;
    RewriteCases(d, p);
    OneProxyCounts(d, p);
    if !HasInclude(Shapes(Items(d.stmts))) && OneProxy(d) {
      FinishIsDoc(d, p);
      if CountPicked(d.stmts, ToPort(Other(p))) == 0 { AlreadyRouted(d, p); }
    }
  }
}
