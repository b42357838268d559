module NginxConfigurator {

  // The configurator's own procedures: highest offset first, one splice at a time, proved equal to the simultaneous
  // edits.

  import opened Options
  import opened PythonText
  import opened NginxText
  import opened NginxLexer
  import opened NginxParser
  import opened NginxDocument
  import opened NginxRemoval
  import opened NginxMeaning
  import opened NginxPhrases
  import opened NginxInsertion
  import opened NginxServers
  import opened NginxUpstream
  import opened NginxHeaders
  import opened NginxAudit
  import opened NginxMarkers
  import opened NginxSite
  import opened NginxRewrite
  import opened NginxMaintenance
  import opened NginxCutover

  // ----- Spans and insertion points of any text

  /** The removal spans of any selection of directives are disjoint and in text order. */
  lemma SpansOfText(text: string, p: Shape -> bool)
    requires ParseNginx(text).Ok?
    ensures Ascending(Spans(text, Select(ParseNginx(text).value.directives, p)), 0, |text|)
  {
    hide WellFormed, DocOf, Meaning, Spans, Select, RemoveDirectives, Cut, ParseNginx;
    MeaningParses(text);
    DocOfText(text);
    RemovalIsCut(DocOf(text).stmts, DocOf(text).tail, p);
  }

  /** Each insertion comes strictly behind the one before. */
  predicate Rising(insertions: seq<Insertion>, from: int) {
    insertions == [] || (from <= insertions[0].offset && Rising(insertions[1..], insertions[0].offset + 1))
  }

  lemma RisingFrom(insertions: seq<Insertion>, from: int, to: int)
    requires Rising(insertions, to) && from <= to
    ensures Rising(insertions, from)
  {}

  lemma {:induction false} InsertionsRise(b: string, place: Option<Place>, ss: seq<Stmt>, lines: seq<Line>)
    requires Readable(ss)
    ensures Rising(LineInsertions(b, place, ss, lines), |b|)
    decreases |ss|
  {
    hide Content, Opening, Head, HasNewline, Run;
    if ss != [] {
      var s, next := ss[0], b + ss[0].gap + ss[0].raw;
      InsertionsRise(next, Opening(b, s), ss[1..], lines);
      HeadSplit(s.gap);
      var rest := LineInsertions(next, Opening(b, s), ss[1..], lines);
      match place
      case None =>
        assert [] + rest == rest;
        RisingFrom(rest, |b|, |next|);
      case Some(p) =>
        assert s.raw != "";
        RisingFrom(rest, AddedAt(b, s.gap) + 1, |next|);
        assert ([Added(b, p, s.gap, lines)] + rest)[1..] == rest;
    }
  }

  /** The insertion points of distinct servers are distinct, and in the order of the servers. */
  lemma PointsOfText(text: string)
    requires ParseNginx(text).Ok?
    ensures var servers := ServerBlocks(ParseNginx(text).value.blocks);
      && Rising(LogInsertions(text, servers), 0) && InOrder(LogInsertions(text, servers), 0, |text|)
      && Rising(FenceInsertions(text, servers), 0) && InOrder(FenceInsertions(text, servers), 0, |text|)
  {
    hide WellFormed, DocOf, Meaning, ParseNginx, LogInsertions, FenceInsertions, LineInsertions, InOrder, Rising,
      Readable, DocServers;
    MeaningParses(text);
    DocOfText(text);
    var d := DocOf(text);
    ParseOf(d);
    PointsOfDoc(d);
    SameOffsets(text, ServerBlocks(ParseNginx(text).value.blocks), 0, |text|);
  }

  lemma PointsOfDoc(d: Doc)
    requires DocOk(d) && Readable(d.stmts)
    ensures var ins := LogInsertions(RenderDoc(d), DocServers(d.stmts, 0)); Rising(ins, 0) && InOrder(ins, 0, |RenderDoc(d)|)
  {
    hide WellFormed, LogInsertions, LineInsertions, InOrder, Rising, Readable, DocServers, Render;
    LogPoints(OUTSIDE, "", None, d.stmts, d.tail);
    InsertionsInOrder("", None, d.stmts, d.tail, LOG_LINES);
    InsertionsRise("", None, d.stmts, LOG_LINES);
    assert "" + (Render(d.stmts) + d.tail) == RenderDoc(d);
    var ins := LogInsertions(RenderDoc(d), DocServers(d.stmts, 0));
    assert [] + ins == ins;
    if d.stmts != [] { assert Pending("", None, d.stmts, LOG_LINES) == []; }
  }

  lemma {:induction false} SameOffsets(text: string, servers: seq<Block>, from: int, limit: int)
    ensures InOrder(FenceInsertions(text, servers), from, limit) <==> InOrder(LogInsertions(text, servers), from, limit)
    ensures Rising(FenceInsertions(text, servers), from) <==> Rising(LogInsertions(text, servers), from)
    decreases |servers|
  {
    hide InsertionPoint, Content;
    if servers != [] {
      var i := InsertionPoint(text, servers[0]).offset;
      SameOffsets(text, servers[1..], i, limit);
      SameOffsets(text, servers[1..], i + 1, limit);
      assert FenceInsertions(text, servers)[1..] == FenceInsertions(text, servers[1..]);
      assert LogInsertions(text, servers)[1..] == LogInsertions(text, servers[1..]);
    }
  }

  lemma BlankBefore(before: string, rest: string)
    requires Blank(LastLine(before))
    ensures var text, n := before + rest, |before| - |LastLine(before)|; 0 <= n <= |before| && Blank(text[n..|before|])
  {
    LastSplit(before);
    var text, n := before + rest, |before| - |LastLine(before)|;
    assert text[n..|before|] == LastLine(before);
  }

  lemma BlankAfter(before: string, after: string)
    requires Blank(Head(after))
    ensures var text := before + after; var n := if |Head(after)| == |after| then |after| else |Head(after)| + 1;
      0 <= n <= |after| && Blank(text[|before|..|before| + n])
  {
    HeadSplit(after);
    var text := before + after;
    if |Head(after)| == |after| {
      assert text[|before|..|before| + |after|] == Head(after);
    } else {
      BlankConcat(Head(after), "\n");
      NewlineIsSpace();
      OneIsBlank('\n');
      assert text[|before|..|before| + |Head(after)| + 1] == Head(after) + "\n";
    }
  }

  /** A removal span holds only whitespace besides its directive. */
  lemma SpanSwallowsBlanks(text: string, d: Directive)
    requires 0 <= d.start <= d.end <= |text|
    ensures var span := RemovalSpan(text, d);
      && 0 <= span.start <= d.start && d.end <= span.end <= |text|
      && Blank(text[span.start..d.start]) && Blank(text[d.end..span.end])
  {
    hide Blank, RemovalSpan, Head, LastLine;
    var before, raw, after := text[..d.start], text[d.start..d.end], text[d.end..];
    assert text == before + raw + after;
    assert text == before + (raw + after);
    SpanOfParts(before, raw, after, d);
    if Blank(LastLine(before)) && Blank(Head(after)) {
      BlankBefore(before, raw + after);
      BlankAfter(before + raw, after);
    } else {
      assert text[d.start..d.start] == "" && text[d.end..d.end] == "";
      NothingIsBlank();
    }
  }

  lemma OneIsBlank(c: char)
    requires IsSpace(c)
    ensures Blank([c])
  {}

  lemma NothingIsBlank()
    ensures Blank("")
  {}

  // ----- One splice at a time, from the end of the text

  lemma {:induction false} AscendingPrefix(spans: seq<Span>, i: nat, from: int, limit: int)
    requires Ascending(spans, from, limit) && i <= |spans|
    ensures var reached := if i == 0 then from else spans[i - 1].end;
      && from <= reached && Ascending(spans[i..], reached, limit)
      && (i < |spans| ==> reached <= spans[i].start <= spans[i].end)
    decreases i
  {
    if i == 0 {
      assert spans[0..] == spans;
    } else {
      AscendingPrefix(spans[1..], i - 1, spans[0].end, limit);
      assert spans[1..][i - 1..] == spans[i..];
    }
  }

  /** Deletes spans highest offset first. */
  method DeleteSpans(text: string, spans: seq<Span>) returns (r: string)
    requires Ascending(spans, 0, |text|)
    ensures r == Excise(text, spans, 0)
  {
    hide Ascending, Excise, Mid, Upto, From;
    r := text;
    var i := |spans|;
    AscendingPrefix(spans, i, 0, |text|);
    DeletedNone(text, spans);
    while i > 0
      invariant 0 <= i <= |spans|
      invariant var reached := if i == 0 then 0 else spans[i - 1].end;
        0 <= reached <= |text| && r == text[..reached] + Excise(text, spans[i..], reached)
    {
      i := i - 1;
      var (start, end) := (spans[i].start, spans[i].end);
      AscendingPrefix(spans, i, 0, |text|);
      AscendingPrefix(spans, i + 1, 0, |text|);
      DeleteOne(text, spans, i, r);
      r := r[..start] + r[end..];
    }
    assert spans[0..] == spans && text[..0] == "";
    assert r == "" + Excise(text, spans, 0);
  }

  lemma WholeText(text: string, reached: int)
    requires 0 <= reached <= |text|
    ensures text == text[..reached] + From(text, reached)
  {
    FromSlice(text, reached);
    assert text == text[..reached] + text[reached..];
  }

  lemma DeletedNone(text: string, spans: seq<Span>)
    requires Ascending(spans, 0, |text|)
    ensures var reached := if |spans| == 0 then 0 else spans[|spans| - 1].end;
      0 <= reached <= |text| && text == text[..reached] + Excise(text, spans[|spans|..], reached)
  {
    hide From, Mid;
    AscendingPrefix(spans, |spans|, 0, |text|);
    assert spans[|spans|..] == [];
    WholeText(text, if |spans| == 0 then 0 else spans[|spans| - 1].end);
  }

  lemma ExciseStep(text: string, spans: seq<Span>, i: nat, reached: int)
    requires i < |spans| && 0 <= reached <= spans[i].start <= |text|
    ensures Excise(text, spans[i..], reached) == text[reached..spans[i].start] + Excise(text, spans[i + 1..], spans[i].end)
  {
    hide Mid;
    assert spans[i..][0] == spans[i] && spans[i..][1..] == spans[i + 1..];
    MidSlice(text, reached, spans[i].start);
  }

  lemma CutParts(text: string, reached: int, start: int, end: int, rest: string)
    requires 0 <= reached <= start <= end <= |text|
    ensures var r := text[..end] + rest;
      end <= |r| && r[..start] + r[end..] == text[..reached] + (text[reached..start] + rest)
  {
    var r := text[..end] + rest;
    assert r[..start] == text[..start] && r[end..] == rest;
    assert text[..start] == text[..reached] + text[reached..start];
  }

  lemma DeleteOne(text: string, spans: seq<Span>, i: nat, r: string)
    requires i < |spans| && Ascending(spans, 0, |text|)
    requires 0 <= spans[i].start <= spans[i].end <= |text|
    requires r == text[..spans[i].end] + Excise(text, spans[i + 1..], spans[i].end)
    ensures var (start, end) := (spans[i].start, spans[i].end);
      var reached := if i == 0 then 0 else spans[i - 1].end;
      && end <= |r| && 0 <= reached <= |text|
      && r[..start] + r[end..] == text[..reached] + Excise(text, spans[i..], reached)
  {
    hide Ascending, Excise;
    AscendingPrefix(spans, i, 0, |text|);
    var reached := if i == 0 then 0 else spans[i - 1].end;
    ExciseStep(text, spans, i, reached);
    CutParts(text, reached, spans[i].start, spans[i].end, Excise(text, spans[i + 1..], spans[i].end));
  }

  lemma {:induction false} InOrderPrefix(ins: seq<Insertion>, i: nat, from: int, limit: int)
    requires InOrder(ins, from, limit) && i <= |ins|
    ensures var reached := if i == 0 then from else ins[i - 1].offset;
      && from <= reached <= limit && InOrder(ins[i..], reached, limit)
      && (i < |ins| ==> reached <= ins[i].offset <= limit)
    decreases i
  {
    InOrderLimit(ins, from, limit);
    if i == 0 {
      assert ins[0..] == ins;
    } else {
      InOrderPrefix(ins[1..], i - 1, ins[0].offset, limit);
      assert ins[1..][i - 1..] == ins[i..];
    }
  }

  lemma InsertedNone(text: string, ins: seq<Insertion>)
    requires InOrder(ins, 0, |text|)
    ensures var reached := if |ins| == 0 then 0 else ins[|ins| - 1].offset;
      0 <= reached <= |text| && text == text[..reached] + Weave(text, ins[|ins|..], reached)
  {
    hide From, Mid;
    InOrderPrefix(ins, |ins|, 0, |text|);
    assert ins[|ins|..] == [];
    WholeText(text, if |ins| == 0 then 0 else ins[|ins| - 1].offset);
  }

  lemma WeaveStep(text: string, ins: seq<Insertion>, i: nat, reached: int)
    requires i < |ins| && 0 <= reached <= ins[i].offset <= |text|
    ensures Weave(text, ins[i..], reached)
         == text[reached..ins[i].offset] + ins[i].content + Weave(text, ins[i + 1..], ins[i].offset)
  {
    hide Mid;
    assert ins[i..][0] == ins[i] && ins[i..][1..] == ins[i + 1..];
    MidSlice(text, reached, ins[i].offset);
  }

  lemma SpliceParts(text: string, reached: int, offset: int, content: string, rest: string)
    requires 0 <= reached <= offset <= |text|
    ensures var r := text[..offset] + rest;
      && offset <= |r|
      && r[..offset] + content + r[offset..] == text[..reached] + (text[reached..offset] + content + rest)
  {
    var r := text[..offset] + rest;
    assert r[..offset] == text[..offset] && r[offset..] == rest;
    assert text[..offset] == text[..reached] + text[reached..offset];
  }

  lemma InsertOne(text: string, ins: seq<Insertion>, i: nat, r: string)
    requires i < |ins| && InOrder(ins, 0, |text|)
    requires 0 <= ins[i].offset <= |text| && r == text[..ins[i].offset] + Weave(text, ins[i + 1..], ins[i].offset)
    ensures var reached := if i == 0 then 0 else ins[i - 1].offset; var offset := ins[i].offset;
      && offset <= |r| && 0 <= reached <= |text|
      && r[..offset] + ins[i].content + r[offset..] == text[..reached] + Weave(text, ins[i..], reached)
  {
    hide InOrder, Weave;
    InOrderPrefix(ins, i, 0, |text|);
    var reached := if i == 0 then 0 else ins[i - 1].offset;
    WeaveStep(text, ins, i, reached);
    SpliceParts(text, reached, ins[i].offset, ins[i].content, Weave(text, ins[i + 1..], ins[i].offset));
  }

  /** Makes insertions highest offset first. */
  method MakeInsertions(text: string, ins: seq<Insertion>) returns (r: string)
    requires InOrder(ins, 0, |text|)
    ensures r == Weave(text, ins, 0)
  {
    hide InOrder, Weave, Mid, Upto, From;
    r := text;
    var i := |ins|;
    InsertedNone(text, ins);
    while i > 0
      invariant 0 <= i <= |ins|
      invariant var reached := if i == 0 then 0 else ins[i - 1].offset;
        0 <= reached <= |text| && r == text[..reached] + Weave(text, ins[i..], reached)
    {
      i := i - 1;
      var offset, content := ins[i].offset, ins[i].content;
      InOrderPrefix(ins, i, 0, |text|);
      InsertOne(text, ins, i, r);
      r := r[..offset] + content + r[offset..];
    }
    assert ins[0..] == ins && text[..0] == "";
    assert r == "" + Weave(text, ins, 0);
  }

  // ----- The procedures

  method InstallClientIpProxyHeaders(text: string) returns (r: Result<string>)
    ensures r == InstallHeaders(text)
  {
    hide Nodes, Ascending, Excise, Select, Spans, HeaderInsertion;
    var parsed :- ParseText(text);
    var proxy :- AstraProxyOf(parsed);
    SpansOfText(text, ClientIpIn(proxy.blocks));
    var removable := Select(parsed.directives, ClientIpIn(proxy.blocks));
    var cleared := DeleteSpans(text, Spans(text, removable));
    var reparsed :- ParseText(cleared);
    var target :- AstraProxyOf(reparsed);
    var insertion := HeaderInsertion(cleared, target);
    return Ok(Upto(cleared, insertion.offset) + insertion.content + From(cleared, insertion.offset));
  }

  /** The audit of the servers, one after the other. */
  method CountSafeServers(servers: seq<nat>, shapes: seq<Shape>) returns (r: Result<nat>)
    ensures r == AuditServers(servers, shapes)
  {
    hide UnsafeLogIn, DirectLogs;
    var safeLogs := 0;
    var i := 0;
    assert servers[0..] == servers;
    while i < |servers|
      invariant i <= |servers|
      invariant var rest := AuditServers(servers[i..], shapes);
        AuditServers(servers, shapes) == if rest.Ok? then Ok(safeLogs + rest.value) else rest
    {
      var server := servers[i];
      assert servers[i..][0] == server && servers[i..][1..] == servers[i + 1..];
      if UnsafeLogIn(shapes, server) {
        return Err(UnsafeAccessLog);
      }
      if DirectLogs(shapes, server) != 1 {
        return Err(AccessLogCount);
      }
      safeLogs := safeLogs + 1;
      i := i + 1;
    }
    assert servers[i..] == [];
    return Ok(safeLogs);
  }

  /** The audit of the Astra proxies, one after the other. */
  method CheckProxies(shapes: seq<Shape>) returns (r: Result<bool>)
    ensures r == AuditProxies(shapes, shapes)
  {
    hide HeaderValues, AstraProxy;
    var i := 0;
    assert shapes[0..] == shapes;
    while i < |shapes|
      invariant i <= |shapes|
      invariant AuditProxies(shapes, shapes) == AuditProxies(shapes[i..], shapes)
    {
      var proxy := shapes[i];
      assert shapes[i..][0] == proxy && shapes[i..][1..] == shapes[i + 1..];
      i := i + 1;
      if AstraProxy(proxy) {
        if HeaderValues(shapes, proxy.blocks, "x-real-ip") != [REMOTE_ADDR] {
          return Err(ClientIpHeaders);
        }
        if HeaderValues(shapes, proxy.blocks, "x-forwarded-for") != [REMOTE_ADDR] {
          return Err(ClientIpHeaders);
        }
      }
    }
    assert shapes[i..] == [];
    return Ok(true);
  }

  method AuditParsedConfig(text: string, parsed: ParsedConfig) returns (r: Result<(nat, nat)>)
    ensures r == Audit(text, parsed)
  {
    hide AuditServers, AuditProxies, AuditFormats, HasInclude, ServerBlocks, Identifiers, ShapesOf, RawsOf, Select;
    var shapes := ShapesOf(parsed.directives);
    if HasInclude(shapes) {
      return Err(IncludeInAudit);
    }
    var servers := Identifiers(ServerBlocks(parsed.blocks));
    if servers == [] {
      return Err(NoServers);
    }
    var safeLogs :- CountSafeServers(servers, shapes);
    var _ :- CheckProxies(shapes);
    var _ :- AuditFormats(FormatsOf(text, parsed));
    return Ok((|servers|, safeLogs));
  }

  method ConfigureSiteText(text: string, oldPort: string, candidatePort: string) returns (r: Result<(string, nat)>)
    ensures r == ConfigureSite(text, oldPort, candidatePort)
  {
    hide Nodes, Ascending, Excise, Select, Spans, InOrder, Weave, LogInsertions, Audit, InstallHeaders,
      RemoveMaintenance, HasInclude, Upto, From, ServerBlocks, ShapesOf;
    if oldPort == candidatePort {
      return Err(SamePorts);
    }
    if {oldPort, candidatePort} != {"3008", "3009"} {
      return Err(UnknownPorts);
    }
    var p := if candidatePort == "3008" then P3008 else P3009;
    var current :- RemoveMaintenanceBlocks(text);
    var parsed :- ParseText(current);
    if HasInclude(ShapesOf(parsed.directives)) {
      return Err(IncludeInSite);
    }
    var oldMatches := Select(parsed.directives, ToPort(Other(p)));
    var candidateMatches := Select(parsed.directives, ToPort(p));
    if |oldMatches| == 1 && candidateMatches == [] {
      current := SwapArgument(current, oldMatches[0], Upstream(p));
    } else if oldMatches == [] && |candidateMatches| == 1 {
    } else {
      return Err(UpstreamCount);
    }
    r := FinishText(current);
  }

  /** The second half of `configure_site`. */
  method FinishText(text: string) returns (r: Result<(string, nat)>)
    ensures r == FinishSite(text)
  {
    hide Nodes, Ascending, Excise, Select, Spans, InOrder, Weave, LogInsertions, Audit, InstallHeaders, ServerBlocks;
    var current :- InstallClientIpProxyHeaders(text);
    var parsed :- ParseText(current);
    var accessLogs := Select(parsed.directives, AccessLog);
    SpansOfText(current, AccessLog);
    current := DeleteSpans(current, Spans(current, accessLogs));
    parsed :- ParseText(current);
    var servers := ServerBlocks(parsed.blocks);
    if servers == [] {
      return Err(NoServers);
    }
    PointsOfText(current);
    current := MakeInsertions(current, LogInsertions(current, servers));
    parsed :- ParseText(current);
    var counts :- AuditParsedConfig(current, parsed);
    if counts.1 != counts.0 {
      return Err(AccessLogCount);
    }
    return Ok((current, counts.0));
  }

  // ----- The active port

  function PortsOf(ds: seq<Directive>): seq<Port> {
    if ds == [] then []
    else
      (if ProxyTo(P3008, ShapeOf(ds[0])) then [P3008] else if ProxyTo(P3009, ShapeOf(ds[0])) then [P3009] else [])
      + PortsOf(ds[1..])
  }

  lemma {:induction false} PortsSelected(ds: seq<Directive>)
    ensures |PortsOf(ds)| == |Select(ds, AstraProxy)|
    ensures PortsOf(ds) != [] ==> PortsOf(ds)[0] == if ProxyTo(P3008, ShapeOf(Select(ds, AstraProxy)[0])) then P3008 else P3009
  {
    hide ShapeOf, Upstream;
    if ds != [] { PortsSelected(ds[1..]); }
  }

  lemma PortsNext(ds: seq<Directive>, i: nat)
    requires i < |ds|
    ensures var shape := ShapeOf(ds[i]);
      PortsOf(ds[i..]) == (if ProxyTo(P3008, shape) then [P3008] else if ProxyTo(P3009, shape) then [P3009] else [])
                          + PortsOf(ds[i + 1..])
  {
    hide ProxyTo, ShapeOf;
    assert ds[i..][0] == ds[i] && ds[i..][1..] == ds[i + 1..];
  }

  lemma NoPorts()
    ensures PortsOf([]) == []
  {}

  method CollectPorts(ds: seq<Directive>) returns (ports: seq<Port>)
    ensures ports == PortsOf(ds)
  {
    hide ProxyTo, ShapeOf, PortsOf;
    ports := [];
    var i := 0;
    assert ds[0..] == ds && [] + PortsOf(ds) == PortsOf(ds);
    NoPorts();
    while i < |ds|
      invariant i <= |ds|
      invariant PortsOf(ds) == ports + PortsOf(ds[i..])
    {
      PortsNext(ds, i);
      var shape := ShapeOf(ds[i]);
      ghost var more := PortsOf(ds[i + 1..]);
      i := i + 1;
      if ProxyTo(P3008, shape) {
        assert ports + ([P3008] + more) == ports + [P3008] + more;
        ports := ports + [P3008];
      } else if ProxyTo(P3009, shape) {
        assert ports + ([P3009] + more) == ports + [P3009] + more;
        ports := ports + [P3009];
      } else {
        assert [] + more == more;
      }
    }
    assert ds[i..] == [];
    assert ports + [] == ports;
  }

  method ActiveUpstreamPort(text: string) returns (r: Result<Port>)
    ensures r == ActivePort(text)
  {
    hide Nodes, ProxyTo, Select, PortsOf, AstraProxy, ShapeOf;
    var parsed :- ParseText(text);
    var ports := CollectPorts(parsed.directives);
    PortsSelected(parsed.directives);
    if |ports| != 1 {
      return Err(UpstreamCount);
    }
    return Ok(ports[0]);
  }

  // ----- Maintenance

  /** `maintenance_enabled`, server by server. */
  method CheckMaintenance(text: string) returns (r: Result<bool>)
    ensures r == MaintenanceEnabled(text)
  {
    hide Nodes, Count, ServerBlocks, Count503, ShapesOf;
    var parsed :- ParseText(text);
    var servers := ServerBlocks(parsed.blocks);
    if servers == [] || Count(MAINTENANCE_BEGIN, text) != |servers| {
      return Ok(false);
    }
    if Count(MAINTENANCE_END, text) != |servers| {
      return Ok(false);
    }
    var ids, shapes := Identifiers(servers), ShapesOf(parsed.directives);
    var i := 0;
    assert ids[0..] == ids;
    while i < |ids|
      invariant i <= |ids|
      invariant AllFenced(ids, shapes) <==> AllFenced(ids[i..], shapes)
    {
      assert ids[i..][0] == ids[i] && ids[i..][1..] == ids[i + 1..];
      if Count503(shapes, ids[i]) != 1 {
        return Ok(false);
      }
      i := i + 1;
    }
    assert ids[i..] == [];
    return Ok(true);
  }

  method ConfigureMaintenanceText(text: string) returns (r: Result<(string, nat)>)
    ensures r == ConfigureMaintenance(text)
  {
    hide Nodes, InOrder, Weave, FenceInsertions, RemoveMaintenance, ActivePort, ConfigureSite, MaintenanceEnabled,
      ServerBlocks;
    var kept :- RemoveMaintenanceBlocks(text);
    var active :- ActiveUpstreamPort(kept);
    var site :- ConfigureSiteText(kept, Digits(Other(active)), Digits(active));
    var parsed :- ParseText(site.0);
    var servers := ServerBlocks(parsed.blocks);
    PointsOfText(site.0);
    var fenced := MakeInsertions(site.0, FenceInsertions(site.0, servers));
    var covered :- CheckMaintenance(fenced);
    if !covered {
      return Err(MaintenanceNotCovering);
    }
    return Ok((fenced, |servers|));
  }
}
