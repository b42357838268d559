/** Sites whose server braces end their lines: the usual layout, for which a second rewrite changes nothing. */
module NginxLayout {
  import opened NginxText
  import opened NginxParser
  import opened NginxDocument
  import opened NginxRemoval
  import opened NginxMeaning
  import opened NginxPhrases
  import opened NginxInsertion
  import opened NginxServers
  import opened NginxUpstream
  import opened NginxHeaders
  import opened NginxAudit
  import opened NginxGuarantees
  import opened NginxSite
  import opened NginxRewrite
  import opened NginxStability
  import opened NginxSteady
  import opened NginxRollback
  import opened NginxMaintenance

  predicate NextLines(text: string, servers: seq<Block>) {
    servers == [] || (NextLine(text, servers[0]) && NextLines(text, servers[1..]))
  }

  /** Every server's opening brace ends its line, but for blanks and a comment. */
  predicate BracesEndLines(text: string) {
    var parsed := ParseNginx(text);
    parsed.Ok? && NextLines(text, ServerBlocks(parsed.value.blocks))
  }

  lemma NextLinesFirst(text: string, ss: seq<Stmt>, at: int)
    requires ss != [] && Readable(ss)
    ensures NextLines(text, DocServers(ss, at)) <==>
      (OpensServer(ss[0]) ==> NextLine(text, BlockAt(ss[0], at)))
      && NextLines(text, DocServers(ss[1..], at + |ss[0].gap| + |ss[0].raw|))
  {
    hide Reads, BlockAt, OpensServer, NextLine;
    var more := DocServers(ss[1..], at + |ss[0].gap| + |ss[0].raw|);
    if OpensServer(ss[0]) {
      var k := BlockAt(ss[0], at);
      assert ([k] + more)[1..] == more;
    } else {
      assert [] + more == more;
    }
  }

  /** The gap before the first statement has a line break. */
  predicate Broken(inside: bool, ss: seq<Stmt>) { inside && ss != [] ==> HasNewline(ss[0].gap) }

  lemma ReadyFirst(inside: bool, ss: seq<Stmt>)
    requires ss != []
    ensures Ready(inside, ss) <==> Broken(inside, ss) && Ready(OpensServer(ss[0]), ss[1..])
  {}

  lemma ReadyIs(inside: bool, ss: seq<Stmt>)
    ensures Ready(inside, ss) <==> Broken(inside, ss) && Ready(false, ss)
  {
    if ss != [] {
      ReadyFirst(inside, ss);
      ReadyFirst(false, ss);
    }
  }

  lemma {:induction false} NextLinesAre(sc: Scope, b: string, ss: seq<Stmt>, tail: string)
    requires WellFormed(sc, ss, tail) && Readable(ss)
    ensures NextLines(b + (Render(ss) + tail), DocServers(ss, |b|)) <==> Ready(false, ss)
    decreases |ss|
  {
    hide Reads, Fits, Enter, BlockAt, NextLine, Ready, Render, DocServers, HasNewline, OpensServer, NextLines;
    if ss == [] {
      NoServers(b + (Render(ss) + tail), |b|);
    } else {
      var s, rest := ss[0], ss[1..];
      var next := b + s.gap + s.raw;
      var text := b + (Render(ss) + tail);
      assert ss == [s] + rest;
      TextAround(b, s, rest, tail);
      assert text == next + (Render(rest) + tail);
      NextLinesFirst(text, ss, |b|);
      NextLinesAre(Enter(sc, s), next, rest, tail);
      ReadyFirst(false, ss);
      ReadyIs(OpensServer(s), rest);
      if OpensServer(s) {
        MoreToCome(sc, ss, tail);
        NextLineOfServer(b, s, rest, tail);
      }
    }
  }

  lemma NoServers(text: string, at: int)
    ensures NextLines(text, DocServers([], at)) && Ready(false, [])
  {}

  lemma BracesOfDoc(d: Doc)
    requires DocOk(d)
    ensures BracesEndLines(RenderDoc(d)) <==> Ready(false, d.stmts)
  {
    hide WellFormed, NextLines, DocServers, Ready, ParseNginx, Render, Readable;
    ParseOf(d);
    NextLinesAre(OUTSIDE, "", d.stmts, d.tail);
    assert "" + (Render(d.stmts) + d.tail) == RenderDoc(d);
  }

  // ----- The layout survives the steps before the log lines

  lemma NewlineInParts(a: string, b: string)
    ensures HasNewline(a + b) <==> HasNewline(a) || HasNewline(b)
  {}

  lemma ThroughHasNewline(g: string)
    ensures HasNewline(ThroughNewline(g)) <==> HasNewline(g)
  {
    LastSplit(g);
    if HasNewline(g) {
      var t := ThroughNewline(g);
      assert t[|t| - 1] in t;
    }
  }

  lemma {:induction false} RerouteReady(inside: bool, ss: seq<Stmt>, p: Port)
    requires Readable(ss) && Ready(inside, ss)
    ensures Ready(inside, Reroute(ss, p))
    decreases |ss|
  {
    hide Reads, PointTo, HasNewline, OpensServer;
    if ss != [] {
      PointToReads(ss[0], p);
      PointToShape(ss[0], p);
      RerouteReady(OpensServer(ss[0]), ss[1..], p);
      ReadyCons(inside, PointTo(ss[0], p), Reroute(ss[1..], p));
    }
  }

  lemma {:induction false} CutReady(ss: seq<Stmt>, tail: string, rule: Shape -> bool, first: bool, carry: string, eaten: bool,
                                    inside: bool)
    requires ss != [] ==> (inside ==> HasNewline(carry + Left(ss[0].gap, eaten))) && Ready(OpensServer(ss[0]), ss[1..])
    ensures Ready(inside, Cut(ss, tail, rule, first, carry, eaten).stmts)
    decreases |ss|
  {
    hide HasNewline, OpensServer, Picked, Alone, ThroughNewline, AfterNewline, Ready;
    if ss == [] {
      NothingReady(inside);
    } else {
      var s, rest := ss[0], ss[1..];
      var g := Left(s.gap, eaten);
      CutFirst(ss, tail, rule, first, carry, eaten);
      NewlineInParts(carry, g);
      if !Picked(s, rule) {
        if rest != [] { ReadyFirst(OpensServer(s), rest); }
        assert rest != [] ==> "" + rest[0].gap == rest[0].gap;
        assert rest != [] ==> Left(rest[0].gap, false) == rest[0].gap;
        CutReady(rest, tail, rule, false, "", false, OpensServer(s));
        var t := s.(gap := carry + g);
        ServerIgnoresGap(s, carry + g);
        ReadyCons(inside, t, Cut(rest, tail, rule, false, "", false).stmts);
      } else {
        var alone := Alone(ss, tail, first);
        var kept := carry + (if alone then ThroughNewline(g) else g);
        ThroughHasNewline(g);
        NewlineInParts(carry, ThroughNewline(g));
        if rest != [] {
          NewlineInParts(kept, Left(rest[0].gap, alone));
          ReadyFirst(OpensServer(s), rest);
        }
        CutReady(rest, tail, rule, false, kept, alone, inside);
      }
    }
  }

  lemma HeadedReady(inside: bool, b: string, s: Stmt, rest: seq<Stmt>)
    requires IsProxy(s) && Ready(inside, [s] + rest)
    ensures Ready(inside, HeadedProxy(b, s) + rest)
  {
    hide IsProxy, HasNewline, OpensServer, Ready, HeaderIndent, Phrase;
    ReadyCons(inside, s, rest);
    var i, g := HeaderIndent(b, s), HeaderGap(b, s);
    NewlineInParts(s.gap, "\n" + i);
    assert s.gap + ("\n" + i) == s.gap + "\n" + i;
    var x, y, z := HeaderStmt(g, REAL_IP_WORDS, s), HeaderStmt("\n" + i, FORWARDED_FOR_WORDS, s), s.(gap := "\n" + i);
    HeaderIsPicked(g, REAL_IP_WORDS, s);
    HeaderIsPicked("\n" + i, FORWARDED_FOR_WORDS, s);
    ProxyIsNotPicked(s, []);
    ServerIgnoresGap(s, "\n" + i);
    assert HeadedProxy(b, s) + rest == [x] + ([y] + ([z] + rest));
    ReadyCons(inside, x, [y] + ([z] + rest));
    ReadyCons(false, y, [z] + rest);
    ReadyCons(false, z, rest);
  }

  lemma {:induction false} AddHeadersReady(inside: bool, b: string, ss: seq<Stmt>)
    requires Ready(inside, ss)
    ensures Ready(inside, AddHeaders(b, ss))
    decreases |ss|
  {
    hide IsProxy, HasNewline, OpensServer, HeadedProxy;
    if ss != [] {
      var s, rest := ss[0], ss[1..];
      assert ss == [s] + rest;
      if IsProxy(s) {
        HeadedReady(inside, b, s, rest);
      } else {
        AddHeadersReady(OpensServer(s), b + s.gap + s.raw, rest);
        ReadyCons(inside, s, AddHeaders(b + s.gap + s.raw, rest));
      }
    }
  }

  lemma {:induction false} ReadyIsNormal(inside: bool, ss: seq<Stmt>)
    requires Ready(inside, ss)
    ensures Normal(inside, ss) == ss
    decreases |ss|
  {
    hide HasNewline, OpensServer;
    if ss != [] { ReadyIsNormal(OpensServer(ss[0]), ss[1..]); }
  }

  lemma CutsReady(d: Doc, rule: Shape -> bool)
    requires Ready(false, d.stmts)
    ensures Ready(false, Cut(d.stmts, d.tail, rule, true, "", false).stmts)
  {
    if d.stmts != [] { ReadyFirst(false, d.stmts); }
    CutReady(d.stmts, d.tail, rule, true, "", false, false);
  }

  /** A site in the usual layout is steady after its first rewrite. */
  lemma ReadyIsSteady(d: Doc, p: Port)
    requires DocOk(d) && OneProxy(d) && Ready(false, d.stmts)
    ensures Steady(RenderDoc(Finished(Routed(d, p))))
  {
    hide DocOk, OneProxy, Ready, Reroute, Cut, AddHeaders, AddLines, Readable, Items, RenderDoc, Steady, Normal,
      Finished, ClientIpIn, ProxyScope;
    DocReads(d);
    RoutedMeaning(d, p);
    RoutedKeepsProxy(d, p);
    RerouteReady(false, d.stmts, p);
    var r := Routed(d, p);
    CutsReady(r, ClientIpIn(ProxyScope(Items(r.stmts))));
    AddHeadersReady(false, "", ClearHeaders(r).stmts);
    CutsReady(WithHeaders(ClearHeaders(r)), AccessLog);
    ReadyIsNormal(false, Unlogged(r).stmts);
    SecondRewrite(r);
    assert Straightened(r) == Unlogged(r);
    assert Finished(r) == WithLogs(Unlogged(r)) by { FinishedIs(r); }
    SteadyIsStable(r);
  }

  lemma FinishedIs(d: Doc)
    ensures Finished(d) == WithLogs(Unlogged(d))
  {}
}
