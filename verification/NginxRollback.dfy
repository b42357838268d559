/** A cutover followed by a cutover back. */
module NginxRollback {
  import opened Options
  import opened NginxText
  import opened NginxLexer
  import opened NginxDocument
  import opened NginxRemoval
  import opened NginxMeaning
  import opened NginxPhrases
  import opened NginxInsertion
  import opened NginxServers
  import opened NginxUpstream
  import opened NginxHeaders
  import opened NginxAudit
  import opened NginxGuarantees
  import opened NginxSite
  import opened NginxRewrite
  import opened NginxStability
  import opened NginxSteady

  // ----- Pointing the proxy elsewhere, twice

  lemma ReplaceAt(raw: string, k: Token, v: string)
    requires |Run(START, raw).tokens| == 3 && Run(START, raw).tokens[1..2] == [k] && 0 <= k.start <= k.end <= |raw|
    ensures ReplaceArgument(raw, v) == raw[..k.start] + v + raw[k.end..]
  {
    hide Run, Upto, From;
    assert Run(START, raw).tokens[1] == Run(START, raw).tokens[1..2][0];
    var x, y, z := raw[..k.start], raw[k.start..k.end], raw[k.end..];
    assert raw == x + y + z;
    SliceOfConcat(x, y, z);
  }

  lemma ReplaceTwice(raw: string, words: seq<string>, v: string, w: string)
    requires LexesAs(raw, words, ';') && |words| == 2 && words[1] != "" && Plain(words[1])
    requires v != "" && Plain(v) && |v| == |words[1]| && w != "" && Plain(w) && |w| == |words[1]|
    ensures ReplaceArgument(ReplaceArgument(raw, v), w) == ReplaceArgument(raw, w)
  {
    hide Run, Plain, ReplaceArgument, LexesAs;
    ReplacedLexes(raw, words, v);
    ArgumentBounds(raw, words);
    var k, made := Run(START, raw).tokens[1], ReplaceArgument(raw, v);
    ReplacedLexes(made, [words[0], v], w);
    ReplaceAt(raw, k, v);
    ReplaceAt(raw, k, w);
    ReplaceAt(made, Token(v, k.start, k.end), w);
    assert made[..k.start] == raw[..k.start] && made[k.end..] == raw[k.end..];
  }

  lemma ArgumentBounds(raw: string, words: seq<string>)
    requires LexesAs(raw, words, ';') && |words| == 2 && words[1] != "" && Plain(words[1])
    ensures |Run(START, raw).tokens| == 3
    ensures var k := Run(START, raw).tokens[1]; 0 < k.start < k.end < |raw| && k.end == k.start + |words[1]|
    ensures var k := Run(START, raw).tokens[1]; raw[k.start..k.end] == words[1]
  {
    hide Run, Plain;
    ArgumentCut(raw, words);
  }

  lemma PointTwice(s: Stmt, a: Port, b: Port)
    requires Reads(s)
    ensures PointTo(PointTo(s, b), a) == PointTo(s, a)
  {
    hide Run, Plain, LexesAs, GapText, Upstream, IsProxy, ReplaceArgument;
    ProxyWords(s);
    UpstreamFacts();
    PointToReads(s, b);
    if IsProxy(s) { ReplaceTwice(s.raw, s.words, Upstream(b), Upstream(a)); }
  }

  lemma {:induction false} RerouteTwice(ss: seq<Stmt>, a: Port, b: Port)
    requires Readable(ss)
    ensures Reroute(Reroute(ss, b), a) == Reroute(ss, a)
  {
    hide Reads, PointTo;
    if ss != [] {
      PointTwice(ss[0], a, b);
      RerouteTwice(ss[1..], a, b);
      assert Reroute(ss, b)[1..] == Reroute(ss[1..], b);
    }
  }

  // ----- Texts that differ only in characters that are no blanks

  predicate SameBlanks(c: char, d: char) {
    c == d || !(c == ' ' || c == '\t' || c == '\n' || d == ' ' || d == '\t' || d == '\n')
  }

  predicate Alike(a: string, b: string) { |a| == |b| && forall i :: 0 <= i < |a| ==> SameBlanks(a[i], b[i]) }

  lemma AlikeConcat(a: string, b: string, x: string, y: string)
    requires Alike(a, b) && Alike(x, y)
    ensures Alike(a + x, b + y)
  {}

  lemma {:induction false} AlikeMargin(a: string, b: string)
    requires Alike(a, b)
    ensures Margin(a) == Margin(b)
  {
    if a != "" {
      assert SameBlanks(a[0], b[0]);
      AlikeMargin(a[1..], b[1..]);
    }
  }

  lemma {:induction false} AlikeLast(a: string, b: string)
    requires Alike(a, b)
    ensures Alike(LastLine(a), LastLine(b))
  {
    if a != "" {
      var n := |a| - 1;
      assert SameBlanks(a[n], b[n]);
      AlikeLast(a[..n], b[..n]);
    }
  }

  lemma PlainIsAlike(v: string, w: string)
    requires |v| == |w| && Plain(v) && Plain(w)
    ensures Alike(v, w)
  {
    forall i | 0 <= i < |v| ensures SameBlanks(v[i], w[i]) {
      assert v[i] in v && w[i] in w;
    }
  }

  lemma PointToAlike(s: Stmt, p: Port)
    requires Reads(s)
    ensures Alike(s.raw, PointTo(s, p).raw)
  {
    hide Run, Plain, GapText, Upstream, IsProxy, Alike;
    if IsProxy(s) {
      ProxyWords(s);
      UpstreamFacts();
      ReplacedParts(s, p);
      ArgumentBounds(s.raw, s.words);
      var k := Run(START, s.raw).tokens[1];
      var x, y, z := s.raw[..k.start], s.raw[k.start..k.end], s.raw[k.end..];
      assert s.raw == x + y + z;
      PlainIsAlike(y, Upstream(p));
      AlikeSelf(x);
      AlikeSelf(z);
      AlikeConcat(x, x, y, Upstream(p));
      AlikeConcat(x + y, x + Upstream(p), z, z);
    } else {
      AlikeSelf(s.raw);
    }
  }

  lemma AlikeSelf(a: string)
    ensures Alike(a, a)
  {}

  /** The texts before the next statement stay alike. */
  lemma AlikeNext(a: string, b: string, s: Stmt, p: Port)
    requires Alike(a, b) && Reads(s)
    ensures PointTo(s, p).gap == s.gap
    ensures Alike(a + s.gap, b + s.gap) && Alike(a + s.gap + s.raw, b + PointTo(s, p).gap + PointTo(s, p).raw)
    ensures |a| == |b|
  {
    hide Alike, Reads, PointTo, IsProxy;
    PointToReads(s, p);
    PointToAlike(s, p);
    AlikeSelf(s.gap);
    AlikeConcat(a, b, s.gap, s.gap);
    AlikeConcat(a + s.gap, b + s.gap, s.raw, PointTo(s, p).raw);
    assert |a| == |b| by { AlikeLength(a, b); }
  }

  lemma AlikeLength(a: string, b: string)
    requires Alike(a, b)
    ensures |a| == |b|
  {}

  // ----- Every step of the rewrite commutes with pointing the proxy elsewhere

  /** A rule that picks no Astra proxy. */
  ghost predicate Spares(p: Shape -> bool) { forall d :: p(d) ==> !AstraProxy(d) }

  lemma PickedPointed(s: Stmt, p: Port, rule: Shape -> bool)
    requires Spares(rule) && Reads(s)
    ensures Picked(PointTo(s, p), rule) <==> Picked(s, rule)
  {
    hide Upstream, LexesAs, GapText, ReplaceArgument;
    PointToReads(s, p);
    if IsProxy(s) {
      SparedProxy(s, rule);
      SparedProxy(PointTo(s, p), rule);
    }
  }

  lemma SparedProxy(s: Stmt, rule: Shape -> bool)
    requires Spares(rule) && IsProxy(s)
    ensures !Picked(s, rule)
  {
    hide AstraProxy;
    assert AstraProxy(StmtShape(s));
  }

  lemma PointedGap(s: Stmt, p: Port, gap: string)
    ensures PointTo(s.(gap := gap), p) == PointTo(s, p).(gap := gap)
  {
    hide Upstream, ReplaceArgument;
    SameProxy(s, gap);
  }

  lemma RerouteCons(s: Stmt, rest: seq<Stmt>, p: Port)
    ensures Reroute([s] + rest, p) == [PointTo(s, p)] + Reroute(rest, p)
  {
    hide PointTo;
    assert ([s] + rest)[1..] == rest;
  }

  lemma {:induction false} RerouteConcat(a: seq<Stmt>, b: seq<Stmt>, p: Port)
    ensures Reroute(a + b, p) == Reroute(a, p) + Reroute(b, p)
  {
    hide PointTo;
    if a == [] {
      assert a + b == b;
    } else {
      assert (a + b)[1..] == a[1..] + b;
      RerouteConcat(a[1..], b, p);
    }
  }

  lemma AlonePointed(ss: seq<Stmt>, tail: string, first: bool, p: Port)
    requires ss != [] && Readable(ss)
    ensures Reroute(ss, p) != []
    ensures Alone(Reroute(ss, p), tail, first) <==> Alone(ss, tail, first)
  {
    hide Reads, PointTo, HasNewline, Head, Blank;
    PointToReads(ss[0], p);
    var more := Reroute(ss, p)[1..];
    assert more == Reroute(ss[1..], p);
    if ss[1..] != [] {
      PointToReads(ss[1], p);
      assert more[0] == PointTo(ss[1], p);
    }
  }

  lemma {:induction false} CutRerouted(ss: seq<Stmt>, tail: string, rule: Shape -> bool, first: bool, carry: string, eaten: bool,
                                       p: Port)
    requires Spares(rule) && Readable(ss)
    ensures Cut(Reroute(ss, p), tail, rule, first, carry, eaten) == Routed(Cut(ss, tail, rule, first, carry, eaten), p)
    decreases |ss|
  {
    hide Reads, PointTo, Picked, Alone, Spares, ThroughNewline, AfterNewline;
    if ss != [] {
      var s, rest := ss[0], ss[1..];
      var g := Left(s.gap, eaten);
      PointToReads(s, p);
      assert Reroute(ss, p)[1..] == Reroute(rest, p);
      PickedPointed(s, p, rule);
      AlonePointed(ss, tail, first, p);
      CutFirst(ss, tail, rule, first, carry, eaten);
      CutFirst(Reroute(ss, p), tail, rule, first, carry, eaten);
      if !Picked(s, rule) {
        CutRerouted(rest, tail, rule, false, "", false, p);
        PointedGap(s, p, carry + g);
        RerouteCons(s.(gap := carry + g), Cut(rest, tail, rule, false, "", false).stmts, p);
      } else {
        var alone := Alone(ss, tail, first);
        CutRerouted(rest, tail, rule, false, carry + (if alone then ThroughNewline(g) else g), alone, p);
      }
    }
  }

  lemma HeadersAlike(a: string, b: string, s: Stmt, p: Port)
    requires Alike(a, b) && Reads(s) && IsProxy(s)
    ensures HeadedProxy(b, PointTo(s, p)) == Reroute(HeadedProxy(a, s), p)
  {
    hide Phrase, Alike, Reads, IsProxy, PointTo, Margin, LastLine, HasNewline;
    AlikeNext(a, b, s, p);
    AlikeLast(a + s.gap, b + s.gap);
    AlikeMargin(LastLine(a + s.gap), LastLine(b + s.gap));
    SameHead(s, p);
    var i, g := HeaderIndent(a, s), HeaderGap(a, s);
    assert HeaderIndent(b, PointTo(s, p)) == i && HeaderGap(b, PointTo(s, p)) == g;
    var x, y, z := HeaderStmt(g, REAL_IP_WORDS, s), HeaderStmt("\n" + i, FORWARDED_FOR_WORDS, s), s.(gap := "\n" + i);
    assert HeadedProxy(a, s) == [x] + ([y] + [z]);
    RerouteCons(x, [y] + [z], p);
    RerouteCons(y, [z], p);
    assert [z] == [z] + [];
    RerouteCons(z, [], p);
    HeaderIsPicked(g, REAL_IP_WORDS, s);
    HeaderIsPicked("\n" + i, FORWARDED_FOR_WORDS, s);
    NotProxyKept(x, p);
    NotProxyKept(y, p);
    PointedGap(s, p, "\n" + i);
    assert Reroute([], p) == [];
  }

  lemma SameHead(s: Stmt, p: Port)
    ensures PointTo(s, p).chain == s.chain
    ensures forall x, w :: HeaderStmt(x, w, PointTo(s, p)) == HeaderStmt(x, w, s)
  {
    hide Upstream, ReplaceArgument, IsProxy, Phrase;
  }

  lemma {:induction false} AddHeadersRerouted(a: string, b: string, ss: seq<Stmt>, p: Port)
    requires Alike(a, b) && Readable(ss)
    ensures AddHeaders(b, Reroute(ss, p)) == Reroute(AddHeaders(a, ss), p)
    decreases |ss|
  {
    hide Reads, PointTo, IsProxy, HeadedProxy, Alike;
    if ss != [] {
      var s, rest := ss[0], ss[1..];
      assert Reroute(ss, p)[1..] == Reroute(rest, p);
      AlikeNext(a, b, s, p);
      PointToReads(s, p);
      if IsProxy(s) {
        HeadersAlike(a, b, s, p);
        RerouteConcat(HeadedProxy(a, s), rest, p);
      } else {
        AddHeadersRerouted(a + s.gap + s.raw, b + PointTo(s, p).gap + PointTo(s, p).raw, rest, p);
        RerouteCons(s, AddHeaders(a + s.gap + s.raw, rest), p);
      }
    }
  }

  lemma OpeningPointed(a: string, b: string, s: Stmt, p: Port)
    requires Alike(a, b) && Reads(s)
    ensures Opening(b, PointTo(s, p)) == Opening(a, s)
  {
    hide Alike, Reads, Margin, LastLine, Upstream;
    if OpensServer(s) {
      assert PointTo(s, p) == s by { ServerIsNoProxy(s); NotProxyKept(s, p); }
      OpeningOf(a, s);
      OpeningOf(b, s);
      assert s.raw != "" by { assert Reads(s); RawNotEmpty(s); }
      var body := s.raw[..|s.raw| - 1];
      AlikeSelf(s.gap);
      AlikeSelf(body);
      AlikeConcat(a, b, s.gap, s.gap);
      AlikeConcat(a + s.gap, b + s.gap, body, body);
      AlikeLast(a + s.gap + body, b + s.gap + body);
      AlikeMargin(LastLine(a + s.gap + body), LastLine(b + s.gap + body));
    } else {
      PointToShape(s, p);
    }
  }

  lemma RawNotEmpty(s: Stmt)
    requires Reads(s)
    ensures s.raw != ""
  {
    hide Run;
  }

  lemma ServerIsNoProxy(s: Stmt)
    requires OpensServer(s)
    ensures !IsProxy(s)
  {
    hide Upstream;
  }

  lemma PointToShape(s: Stmt, p: Port)
    ensures OpensServer(PointTo(s, p)) <==> OpensServer(s)
  {
    hide Upstream, ReplaceArgument, IsProxy;
  }

  lemma LogIsNoProxy(q: Place, gap: string, p: Port)
    ensures PointTo(LogStmt(q, gap), p) == LogStmt(q, gap)
  {
    LogStmtFacts(q, gap, []);
    NotProxyKept(LogStmt(q, gap), p);
  }

  lemma {:induction false} AddLogsRerouted(a: string, b: string, place: Option<Place>, ss: seq<Stmt>, p: Port)
    requires Alike(a, b) && Readable(ss)
    ensures AddLines(b, place, Reroute(ss, p), LOG_LINES) == Reroute(AddLines(a, place, ss, LOG_LINES), p)
    decreases |ss|
  {
    hide Reads, PointTo, Alike, AddLines, LogStmt, Trail, Opening;
    if ss == [] {
      NoLines(a, place);
      NoLines(b, place);
    } else {
      var s, rest := ss[0], ss[1..];
      var a1, b1 := a + s.gap + s.raw, b + PointTo(s, p).gap + PointTo(s, p).raw;
      assert Reroute(ss, p)[1..] == Reroute(rest, p);
      AlikeNext(a, b, s, p);
      OpeningPointed(a, b, s, p);
      AddLogsRerouted(a1, b1, Opening(a, s), rest, p);
      AddLogsFirstStmt(a, place, ss);
      AddLogsFirstStmt(b, place, Reroute(ss, p));
      var more := AddLines(a1, Opening(a, s), rest, LOG_LINES);
      match place
      case None => RerouteCons(s, more, p);
      case Some(q) =>
        var t := s.(gap := "\n" + Trail(s.gap));
        PointedGap(s, p, t.gap);
        RerouteCons(LogStmt(q, s.gap), [t] + more, p);
        RerouteCons(t, more, p);
        LogIsNoProxy(q, s.gap, p);
    }
  }

  lemma RulesSpare(blocks: seq<nat>)
    ensures Spares(ClientIpIn(blocks)) && Spares(AccessLog)
  {
    hide Upstream;
    ClientIpIsNoProxy(blocks);
    assert ACCESS_LOG[0] != "proxy_pass"[0];
  }

  lemma ClearHeadersRouted(d: Doc, p: Port)
    requires DocOk(d)
    ensures ClearHeaders(Routed(d, p)) == Routed(ClearHeaders(d), p)
  {
    hide WellFormed, Cut, Items, Readable, RerouteItems, Spares, ClientIpIn, Reroute;
    DocReads(d);
    RoutedMeaning(d, p);
    RerouteShapes(Items(d.stmts), p);
    var c := ProxyScope(Items(d.stmts));
    RulesSpare(c);
    CutRerouted(d.stmts, d.tail, ClientIpIn(c), true, "", false, p);
  }

  lemma ClearLogsRouted(d: Doc, p: Port)
    requires DocOk(d)
    ensures ClearLogs(Routed(d, p)) == Routed(ClearLogs(d), p)
  {
    hide WellFormed, Cut, Readable, Spares, Reroute;
    DocReads(d);
    RulesSpare([]);
    CutRerouted(d.stmts, d.tail, AccessLog, true, "", false, p);
  }

  /** Pointing the proxy of a rewritten document elsewhere is rewriting the document pointed elsewhere. */
  lemma FinishedRouted(d: Doc, p: Port)
    requires DocOk(d)
    ensures Finished(Routed(d, p)) == Routed(Finished(d), p)
  {
    hide DocOk, AddHeaders, AddLines, Readable, Items, Reroute, ClearHeaders, ClearLogs;
    FinishedMeaning(d);
    AlikeSelf("");
    ClearHeadersRouted(d, p);
    var cleared := ClearHeaders(d);
    DocReads(cleared);
    AddHeadersRerouted("", "", cleared.stmts, p);
    var headed := WithHeaders(cleared);
    ClearLogsRouted(headed, p);
    var unlogged := ClearLogs(headed);
    DocReads(unlogged);
    AddLogsRerouted("", "", None, unlogged.stmts, p);
  }

  lemma RoutedTwice(d: Doc, a: Port, b: Port)
    requires DocOk(d)
    ensures Routed(Routed(d, b), a) == Routed(d, a)
  {
    hide Reroute, Readable;
    DocReads(d);
    RerouteTwice(d.stmts, a, b);
  }

  /** The rollback of a cutover is a second rewrite for the first port. */
  lemma RollbackIsSecond(d: Doc, a: Port, b: Port)
    requires DocOk(d)
    ensures Finished(Routed(Finished(Routed(d, b)), a)) == Finished(Finished(Routed(d, a)))
  {
    hide DocOk, Finished, Routed, Items;
    RoutedMeaning(d, b);
    FinishedMeaning(Routed(d, b));
    FinishedRouted(Routed(d, b), a);
    RoutedTwice(d, a, b);
  }

  /** Both cutovers of a site are steady, or neither is. */
  lemma SteadyEither(d: Doc, a: Port, b: Port)
    requires DocOk(d) && OneProxy(d)
    ensures Steady(RenderDoc(Finished(Routed(d, a)))) <==> Steady(RenderDoc(Finished(Routed(d, b))))
  {
    SteadyOneWay(d, a, b);
    SteadyOneWay(d, b, a);
  }

  lemma SteadyOneWay(d: Doc, a: Port, b: Port)
    requires DocOk(d) && OneProxy(d)
    ensures Steady(RenderDoc(Finished(Routed(d, a)))) ==> Steady(RenderDoc(Finished(Routed(d, b))))
  {
    hide DocOk, Finished, Routed, Items, Steady, RenderDoc, OneProxy;
    var x, y := Routed(d, a), Routed(d, b);
    RoutedMeaning(d, a);
    RoutedMeaning(d, b);
    RoutedKeepsProxy(d, a);
    RoutedKeepsProxy(d, b);
    SteadyIsStable(x);
    SteadyIsStable(y);
    FinishedMeaning(x);
    RoutedTwice(d, b, a);
    FinishedRouted(x, b);
    FinishedRouted(Finished(x), b);
  }
}
