/** What a second rewrite does to the result of the first. */
module NginxStability {
  import opened Options
  import opened PythonText
  import opened NginxText
  import opened NginxLexer
  import opened NginxDocument
  import opened NginxGaps
  import opened NginxRemoval
  import opened NginxMeaning
  import opened NginxPhrases
  import opened NginxInsertion
  import opened NginxServers
  import opened NginxUpstream
  import opened NginxHeaders
  import opened NginxAudit
  import opened NginxGuarantees

  predicate NonePicked(ss: seq<Stmt>, p: Shape -> bool) { ss == [] || (!Picked(ss[0], p) && NonePicked(ss[1..], p)) }

  /** With nothing to drop, a document stays as it is. */
  lemma {:induction false} CutNone(ss: seq<Stmt>, tail: string, p: Shape -> bool, first: bool)
    requires NonePicked(ss, p)
    ensures Cut(ss, tail, p, first, "", false) == Doc(ss, tail)
    decreases |ss|
  {
    hide Picked;
    if ss == [] {
      assert "" + tail == tail;
    } else {
      CutNone(ss[1..], tail, p, false);
      assert "" + ss[0].gap == ss[0].gap;
      assert ss == [ss[0]] + ss[1..];
    }
  }

  lemma PickedIgnoresGap(s: Stmt, gap: string, p: Shape -> bool)
    ensures Picked(s.(gap := gap), p) <==> Picked(s, p)
  {}

  // ----- The canonical headers before the proxy

  /** A document whose only client-IP headers in scope `c` are the canonical ones, on their own lines before the proxy.
      */
  predicate Headed(ss: seq<Stmt>, first: bool, c: seq<nat>)
    decreases |ss|
  {
    ss != [] &&
    if Picked(ss[0], ClientIpIn(c)) then
      && |ss| >= 3
      && IsProxy(ss[2]) && ss[2].chain == c
      && ss[0] == HeaderStmt(ss[0].gap, REAL_IP_WORDS, ss[2])
      && ss[1] == HeaderStmt("\n" + LastLine(ss[0].gap), FORWARDED_FOR_WORDS, ss[2])
      && ss[2].gap == "\n" + LastLine(ss[0].gap)
      && (first || HasNewline(ss[0].gap))
      && NonePicked(ss[3..], ClientIpIn(c))
    else
      !IsProxy(ss[0]) && Headed(ss[1..], false, c)
  }

  lemma NewlineThen(x: string)
    requires !HasNewline(x)
    ensures HasNewline("\n" + x) && Head("\n" + x) == "" && Blank("") && AfterNewline("\n" + x) == x
    ensures LastLine("\n" + x) == x && ThroughNewline(x) == "" && ThroughNewline("\n" + x) == "\n"
  {
    assert ("\n" + x)[0] == '\n' && ("\n" + x)[1..] == x;
    LastSplit(x);
    LastConcat("\n", x);
    assert LastLine("\n") == "" && ThroughNewline("\n") == "\n";
    assert "" + x == x;
  }

  lemma HeaderIsPicked(gap: string, words: seq<string>, s: Stmt)
    requires words == REAL_IP_WORDS || words == FORWARDED_FOR_WORDS
    ensures Picked(HeaderStmt(gap, words, s), ClientIpIn(s.chain))
    ensures !IsProxy(HeaderStmt(gap, words, s)) && !Picked(HeaderStmt(gap, words, s), AccessLog)
    ensures !OpensServer(HeaderStmt(gap, words, s))
  {
    hide Phrase, Upstream, Lower;
    LowerNames();
    assert PROXY_SET_HEADER[6] != "proxy_pass"[6] && PROXY_SET_HEADER[0] != ACCESS_LOG[0];
  }

  lemma ProxyIsNotPicked(s: Stmt, c: seq<nat>)
    requires IsProxy(s)
    ensures !Picked(s, ClientIpIn(c)) && !Picked(s, AccessLog) && !OpensServer(s)
  {
    hide Upstream;
    ProxyWords(s);
    assert PROXY_SET_HEADER[6] != "proxy_pass"[6] && "proxy_pass"[0] != ACCESS_LOG[0];
  }

  /** Clearing the headers of `Headed` leaves the proxy with the gap of the first header. */
  lemma CutHeaded(ss: seq<Stmt>, tail: string, c: seq<nat>, first: bool)
    requires Headed(ss, first, c) && Picked(ss[0], ClientIpIn(c))
    ensures Cut(ss, tail, ClientIpIn(c), first, "", false) == Doc([ss[2].(gap := ss[0].gap)] + ss[3..], tail)
  {
    hide Picked, IsProxy, Phrase, HasNewline, ThroughNewline, AfterNewline, LastLine, NonePicked, HeaderStmt, Cut,
      ClientIpIn;
    var gap, p := ss[0].gap, ClientIpIn(c);
    var i := LastLine(gap);
    LastSplit(gap);
    NewlineThen(i);
    HeaderIsPicked("\n" + i, FORWARDED_FOR_WORDS, ss[2]);
    ProxyIsNotPicked(ss[2], c);
    HeaderGapIs("\n" + i, FORWARDED_FOR_WORDS, ss[2]);
    var rest := ss[3..];
    assert ss[1..][0] == ss[1] && ss[1..][1..] == ss[2..] && ss[2..][0] == ss[2] && ss[2..][1..] == rest;
    CutFirst(ss, tail, p, first, "", false);
    var through := "" + ThroughNewline(gap);
    assert through == ThroughNewline(gap);
    CutFirst(ss[1..], tail, p, false, through, true);
    assert through + "" == through;
    CutFirst(ss[2..], tail, p, false, through, true);
    CutNone(rest, tail, p, false);
    assert through + i == gap;
  }

  /** The three statements of `Headed` come back when the headers are cleared and installed again. */
  lemma HeadedHere(before: string, ss: seq<Stmt>, tail: string, c: seq<nat>)
    requires Headed(ss, before == "", c) && Picked(ss[0], ClientIpIn(c))
    ensures var d := Cut(ss, tail, ClientIpIn(c), before == "", "", false);
      AddHeaders(before, d.stmts) == ss && d.tail == tail
  {
    hide Picked, IsProxy, Phrase, HasNewline, LastLine, NonePicked, HeaderStmt, Cut, ClientIpIn;
    CutHeaded(ss, tail, c, before == "");
    var gap, rest := ss[0].gap, ss[3..];
    var q := ss[2].(gap := gap);
    assert ([q] + rest)[0] == q && ([q] + rest)[1..] == rest;
    SameProxy(ss[2], gap);
    assert HeadedProxy(before, q) == [ss[0], ss[1], ss[2]] by { SameHeader(gap, ss[2]); }
    assert [ss[0], ss[1], ss[2]] + rest == ss;
  }

  lemma HeaderGapIs(gap: string, words: seq<string>, s: Stmt)
    ensures HeaderStmt(gap, words, s).gap == gap
  {}

  lemma SameProxy(s: Stmt, gap: string)
    ensures IsProxy(s.(gap := gap)) <==> IsProxy(s)
  {}

  lemma SameHeader(gap: string, s: Stmt)
    ensures forall x, w :: HeaderStmt(x, w, s.(gap := gap)) == HeaderStmt(x, w, s)
  {}

  lemma {:induction false} HeadedRestores(before: string, ss: seq<Stmt>, tail: string, c: seq<nat>)
    requires Headed(ss, before == "", c) && Readable(ss)
    ensures var d := Cut(ss, tail, ClientIpIn(c), before == "", "", false);
      AddHeaders(before, d.stmts) == ss && d.tail == tail
    decreases |ss|
  {
    hide Picked, IsProxy, HeadedProxy, Reads, HeaderStmt, NonePicked, Alone, ThroughNewline;
    if Picked(ss[0], ClientIpIn(c)) {
      HeadedHere(before, ss, tail, c);
    } else {
      var s, rest := ss[0], ss[1..];
      var next := before + s.gap + s.raw;
      NextNotEmpty(before, s);
      HeadedRestores(next, rest, tail, c);
      var d := Cut(rest, tail, ClientIpIn(c), false, "", false);
      assert "" + s.gap == s.gap;
      assert ([s] + d.stmts)[0] == s && ([s] + d.stmts)[1..] == d.stmts;
      assert ss == [s] + rest;
    }
  }

  // ----- The rewrite makes its headers canonical

  /** Only one proxy. */
  lemma NoMoreProxies(s: Stmt, rest: seq<Stmt>)
    ensures CountPicked([s] + rest, AstraProxy) == (if IsProxy(s) then 1 else 0) + CountPicked(rest, AstraProxy)
  {
    assert ([s] + rest)[1..] == rest;
  }

  lemma {:induction false} AddHeadersHeaded(before: string, ss: seq<Stmt>, c: seq<nat>)
    requires NonePicked(ss, ClientIpIn(c)) && CountPicked(ss, AstraProxy) > 0 && Readable(ss)
    requires ProxyScope(Items(ss)) == c
    ensures Headed(AddHeaders(before, ss), before == "", c)
    decreases |ss|
  {
    hide Picked, IsProxy, Reads, ProxyItem, HeadedProxy;
    var s, rest := ss[0], ss[1..];
    assert ss == [s] + rest;
    assert Items(ss)[0] == View(s) && Items(ss)[1..] == Items(rest);
    ProxyItemIs(s);
    NoMoreProxies(s, rest);
    if IsProxy(s) {
      HeadedProxyIs(before, s, rest, c);
    } else {
      NextNotEmpty(before, s);
      var more := AddHeaders(before + s.gap + s.raw, rest);
      AddHeadersHeaded(before + s.gap + s.raw, rest, c);
      assert ([s] + more)[0] == s && ([s] + more)[1..] == more;
    }
  }

  lemma HeadedProxyIs(before: string, s: Stmt, rest: seq<Stmt>, c: seq<nat>)
    requires IsProxy(s) && s.chain == c && NonePicked(rest, ClientIpIn(c))
    ensures Headed(HeadedProxy(before, s) + rest, before == "", c)
  {
    hide Picked, IsProxy, Phrase, HasNewline, LastLine, NonePicked, Margin;
    var i, g := HeaderIndent(before, s), HeaderGap(before, s);
    IndentIsLine(before, s);
    var x, y, z := HeaderStmt(g, REAL_IP_WORDS, s), HeaderStmt("\n" + i, FORWARDED_FOR_WORDS, s), s.(gap := "\n" + i);
    var ss := HeadedProxy(before, s) + rest;
    assert ss[0] == x && ss[1] == y && ss[2] == z && ss[3..] == rest;
    HeaderIsPicked(g, REAL_IP_WORDS, s);
    SameProxy(s, "\n" + i);
    SameHeader("\n" + i, s);
  }

  lemma LineAfter(a: string, i: string)
    requires !HasNewline(i)
    ensures LastLine(a + "\n" + i) == i && HasNewline(a + "\n" + i)
    ensures ThroughNewline(a + "\n" + i) == a + "\n"
  {
    NewlineThen(i);
    LastConcat(a, "\n" + i);
    assert a + ("\n" + i) == a + "\n" + i;
    assert (a + "\n" + i)[|a|] == '\n';
  }

  lemma IndentHasNoNewline(line: string)
    ensures !HasNewline(Margin(line) + INDENT)
  {
    MarginFacts(line);
  }

  lemma IndentIsLine(before: string, s: Stmt)
    ensures LastLine(HeaderGap(before, s)) == HeaderIndent(before, s)
    ensures before == "" || HasNewline(HeaderGap(before, s))
  {
    hide Margin, LastLine;
    if !(before == "" || HasNewline(s.gap)) {
      IndentHasNoNewline(LastLine(before + s.gap));
      LineAfter(s.gap, HeaderIndent(before, s));
    }
  }

  // ----- Removing access logs keeps the headers canonical

  /** Gap text carried to the place where `out` says that nothing was kept before. */
  predicate CarryOk(first: bool, out: bool, carry: string, eaten: bool) {
    && (first ==> out && carry == "" && !eaten)
    && (eaten ==> (carry == "" && out) || (carry != "" && carry[|carry| - 1] == '\n'))
  }

  lemma CarriedLine(gap: string, first: bool, out: bool, carry: string, eaten: bool)
    requires CarryOk(first, out, carry, eaten) && (first || HasNewline(gap)) && (eaten ==> HasNewline(gap))
    ensures LastLine(carry + Left(gap, eaten)) == LastLine(gap)
    ensures out || HasNewline(carry + Left(gap, eaten))
  {
    if first {
      assert carry + gap == gap;
    } else {
      var g := Left(gap, eaten);
      LastConcat(carry, g);
      if eaten {
        ThroughAfter(gap);
        LastSplit(g);
        assert "" + g == g;
        if carry != "" {
          assert carry[|carry| - 1] in carry + g;
        }
      }
    }
  }

  lemma CarryKept(gap: string, first: bool, out: bool, carry: string, eaten: bool)
    requires CarryOk(first, out, carry, eaten) && (first || HasNewline(gap))
    ensures CarryOk(false, out, carry + ThroughNewline(Left(gap, eaten)), true)
  {
    var g := Left(gap, eaten);
    LastSplit(g);
    var t := ThroughNewline(g);
    if t != "" {
      assert (carry + t)[|carry + t| - 1] == t[|t| - 1];
    } else {
      assert carry + t == carry;
    }
  }

  lemma {:induction false} CutSparesNone(ss: seq<Stmt>, tail: string, c: seq<nat>, first: bool, carry: string,
                                         eaten: bool)
    requires NonePicked(ss, ClientIpIn(c))
    ensures NonePicked(Cut(ss, tail, AccessLog, first, carry, eaten).stmts, ClientIpIn(c))
    decreases |ss|
  {
    hide Picked, Alone, ThroughNewline;
    if ss != [] {
      var s, rest := ss[0], ss[1..];
      var g := Left(s.gap, eaten);
      CutFirst(ss, tail, AccessLog, first, carry, eaten);
      if !Picked(s, AccessLog) {
        CutSparesNone(rest, tail, c, false, "", false);
        PickedIgnoresGap(s, carry + g, ClientIpIn(c));
        assert ([s.(gap := carry + g)] + Cut(rest, tail, AccessLog, false, "", false).stmts)[1..]
            == Cut(rest, tail, AccessLog, false, "", false).stmts;
      } else {
        var alone := Alone(ss, tail, first);
        CutSparesNone(rest, tail, c, false, carry + (if alone then ThroughNewline(g) else g), alone);
      }
    }
  }

  lemma HeadedAfterCut(ss: seq<Stmt>, tail: string, c: seq<nat>, first: bool, out: bool, carry: string, eaten: bool)
    requires Headed(ss, first, c) && Picked(ss[0], ClientIpIn(c)) && CarryOk(first, out, carry, eaten)
    requires eaten ==> RestBlank(ss, tail)
    ensures Headed(Cut(ss, tail, AccessLog, first, carry, eaten).stmts, out, c)
  {
    hide Picked, IsProxy, Phrase, HasNewline, LastLine, NonePicked, HeaderStmt, CarryOk, Alone, Blank, Left;
    var gap, p := ss[0].gap, AccessLog;
    var i := LastLine(gap);
    var rest := ss[3..];
    assert ss[1..][0] == ss[1] && ss[1..][1..] == ss[2..] && ss[2..][0] == ss[2] && ss[2..][1..] == rest;
    HeaderIsPicked(gap, REAL_IP_WORDS, ss[2]);
    HeaderIsPicked("\n" + i, FORWARDED_FOR_WORDS, ss[2]);
    ProxyIsNotPicked(ss[2], c);
    HeaderGapIs("\n" + i, FORWARDED_FOR_WORDS, ss[2]);
    CarriedLine(gap, first, out, carry, eaten);
    CutFirst(ss, tail, p, first, carry, eaten);
    CutFirst(ss[1..], tail, p, false, "", false);
    CutFirst(ss[2..], tail, p, false, "", false);
    LeftWhole(ss[1].gap);
    LeftWhole(ss[2].gap);
    var more := Cut(rest, tail, p, false, "", false);
    CutSparesNone(rest, tail, c, false, "", false);
    var x := ss[0].(gap := carry + Left(gap, eaten));
    assert "" + ss[1].gap == ss[1].gap && "" + ss[2].gap == ss[2].gap;
    assert Cut(ss, tail, p, first, carry, eaten).stmts == [x] + ([ss[1]] + ([ss[2]] + more.stmts));
    var r := [x] + ([ss[1]] + ([ss[2]] + more.stmts));
    assert r[0] == x && r[1] == ss[1] && r[2] == ss[2] && r[3..] == more.stmts;
    PickedIgnoresGap(ss[0], x.gap, ClientIpIn(c));
    assert x == HeaderStmt(x.gap, REAL_IP_WORDS, ss[2]) by { HeaderMoved(gap, x.gap, ss[2]); }
  }

  lemma LeftWhole(g: string)
    ensures Left(g, false) == g
  {}

  lemma HeaderMoved(gap: string, to: string, s: Stmt)
    ensures HeaderStmt(gap, REAL_IP_WORDS, s).(gap := to) == HeaderStmt(to, REAL_IP_WORDS, s)
  {}

  lemma {:induction false} CutKeepsHeaded(ss: seq<Stmt>, tail: string, c: seq<nat>, first: bool, out: bool,
                                          carry: string, eaten: bool)
    requires Headed(ss, first, c) && CarryOk(first, out, carry, eaten) && (eaten ==> RestBlank(ss, tail))
    ensures Headed(Cut(ss, tail, AccessLog, first, carry, eaten).stmts, out, c)
    decreases |ss|
  {
    hide Picked, IsProxy, NonePicked, HeaderStmt, CarryOk, Blank, RestBlank, ThroughNewline, HasNewline;
    if Picked(ss[0], ClientIpIn(c)) {
      HeadedAfterCut(ss, tail, c, first, out, carry, eaten);
    } else {
      var s, rest := ss[0], ss[1..];
      var g := Left(s.gap, eaten);
      CutFirst(ss, tail, AccessLog, first, carry, eaten);
      if !Picked(s, AccessLog) {
        NoCarry();
        CutKeepsHeaded(rest, tail, c, false, false, "", false);
        var more := Cut(rest, tail, AccessLog, false, "", false).stmts;
        var t := s.(gap := carry + g);
        assert ([t] + more)[0] == t && ([t] + more)[1..] == more;
        PickedIgnoresGap(s, carry + g, ClientIpIn(c));
        SameProxy(s, carry + g);
      } else {
        var alone := Alone(ss, tail, first);
        if alone {
          CarryKept(s.gap, first, out, carry, eaten);
          AloneRest(ss, tail, first);
        } else {
          AnyCarry(out, carry + g);
        }
        CutKeepsHeaded(rest, tail, c, false, out, carry + (if alone then ThroughNewline(g) else g), alone);
      }
    }
  }

  lemma NoCarry()
    ensures CarryOk(false, false, "", false)
  {}

  lemma AnyCarry(out: bool, carry: string)
    ensures CarryOk(false, out, carry, false)
  {}

  // ----- Adding log lines keeps the headers canonical

  /** The statement of the log line. */
  function LogStmt(p: Place, gap: string): Stmt {
    Stmt(Lead(gap) + p.indent, REDACTED_ACCESS_LOG, ACCESS_LOG_WORDS, ';', ACCESS_LOG, p.chain, 0)
  }

  lemma FillLog(p: Place, carry: string)
    ensures Fill(p, LOG_LINES, carry)
         == ([Stmt(carry + p.indent, REDACTED_ACCESS_LOG, ACCESS_LOG_WORDS, ';', ACCESS_LOG, p.chain, 0)], "\n")
  {
    hide Phrase;
    assert LOG_LINES[1..] == [] && LOG_LINES[0] == Code(ACCESS_LOG_WORDS);
    assert Fill(p, [], "\n") == ([], "\n");
    assert HeadWord(ACCESS_LOG_WORDS) == ACCESS_LOG;
    var l := Stmt(carry + p.indent, REDACTED_ACCESS_LOG, ACCESS_LOG_WORDS, ';', ACCESS_LOG, p.chain, 0);
    assert [l] + [] == [l];
  }

  lemma AddLogsFirstStmt(b: string, place: Option<Place>, ss: seq<Stmt>)
    requires ss != []
    ensures var s := ss[0]; var rest := AddLines(b + s.gap + s.raw, Opening(b, s), ss[1..], LOG_LINES);
      AddLines(b, place, ss, LOG_LINES) ==
        match place
        case None => [s] + rest
        case Some(p) => [LogStmt(p, s.gap)] + ([s.(gap := "\n" + Trail(s.gap))] + rest)
  {
    hide Phrase, Fill, Lead, Trail, Opening;
    var s := ss[0];
    var rest := AddLines(b + s.gap + s.raw, Opening(b, s), ss[1..], LOG_LINES);
    match place
    case None =>
    case Some(p) =>
      FillLog(p, Lead(s.gap));
      assert [LogStmt(p, s.gap)] + [s.(gap := "\n" + Trail(s.gap))] + rest
          == [LogStmt(p, s.gap)] + ([s.(gap := "\n" + Trail(s.gap))] + rest);
  }

  lemma LogStmtFacts(p: Place, gap: string, c: seq<nat>)
    ensures Picked(LogStmt(p, gap), AccessLog) && !Picked(LogStmt(p, gap), ClientIpIn(c))
    ensures !IsProxy(LogStmt(p, gap)) && !OpensServer(LogStmt(p, gap))
    ensures LogStmt(p, gap).gap == Lead(gap) + p.indent && LogStmt(p, gap).raw == REDACTED_ACCESS_LOG
  {
    hide Phrase, Upstream, Lead;
    assert PROXY_SET_HEADER[0] != ACCESS_LOG[0] && "proxy_pass"[0] != ACCESS_LOG[0];
  }

  lemma TrailLine(gap: string)
    requires HasNewline(gap)
    ensures HasNewline("\n" + Trail(gap)) && LastLine("\n" + Trail(gap)) == LastLine(gap)
  {
    ThroughAfter(gap);
    var t := Trail(gap);
    LastConcat("\n", t);
    LastSplit(t);
    assert LastLine("\n") == "" && "" + t == t;
    assert ("\n" + t)[0] == '\n';
  }

  lemma {:induction false} AddLogsSparesNone(b: string, place: Option<Place>, ss: seq<Stmt>, c: seq<nat>)
    requires NonePicked(ss, ClientIpIn(c))
    ensures NonePicked(AddLines(b, place, ss, LOG_LINES), ClientIpIn(c))
    decreases |ss|
  {
    hide Picked, AddLines, LogStmt, Trail, Opening;
    if ss == [] {
      NoLines(b, place);
    } else {
      var s := ss[0];
      var rest := AddLines(b + s.gap + s.raw, Opening(b, s), ss[1..], LOG_LINES);
      AddLogsFirstStmt(b, place, ss);
      AddLogsSparesNone(b + s.gap + s.raw, Opening(b, s), ss[1..], c);
      match place
      case None => assert ([s] + rest)[1..] == rest;
      case Some(p) =>
        var t := s.(gap := "\n" + Trail(s.gap));
        PickedIgnoresGap(s, t.gap, ClientIpIn(c));
        LogStmtFacts(p, s.gap, c);
        assert ([t] + rest)[0] == t && ([t] + rest)[1..] == rest;
        assert ([LogStmt(p, s.gap)] + ([t] + rest))[1..] == [t] + rest;
    }
  }

  lemma NoLines(b: string, place: Option<Place>)
    ensures AddLines(b, place, [], LOG_LINES) == []
  {}

  lemma NotServer(b: string, s: Stmt)
    requires !OpensServer(s)
    ensures Opening(b, s) == None
  {}

  lemma HeadedAfterLogs(b: string, place: Option<Place>, ss: seq<Stmt>, c: seq<nat>, first: bool)
    requires Headed(ss, first, c) && Picked(ss[0], ClientIpIn(c)) && (place.Some? ==> !first)
    ensures Headed(AddLines(b, place, ss, LOG_LINES), first, c)
  {
    hide Picked, IsProxy, Phrase, HasNewline, LastLine, NonePicked, HeaderStmt, AddLines, LogStmt, Trail, Opening;
    var gap := ss[0].gap;
    var i := LastLine(gap);
    var rest := ss[3..];
    assert ss[1..][0] == ss[1] && ss[1..][1..] == ss[2..] && ss[2..][0] == ss[2] && ss[2..][1..] == rest;
    HeaderIsPicked(gap, REAL_IP_WORDS, ss[2]);
    HeaderIsPicked("\n" + i, FORWARDED_FOR_WORDS, ss[2]);
    ProxyIsNotPicked(ss[2], c);
    var b1 := b + ss[0].gap + ss[0].raw;
    var b2 := b1 + ss[1].gap + ss[1].raw;
    var b3 := b2 + ss[2].gap + ss[2].raw;
    NotServer(b, ss[0]);
    NotServer(b1, ss[1]);
    NotServer(b2, ss[2]);
    AddLogsFirstStmt(b, place, ss);
    AddLogsFirstStmt(b1, None, ss[1..]);
    AddLogsFirstStmt(b2, None, ss[2..]);
    var more := AddLines(b3, None, rest, LOG_LINES);
    AddLogsSparesNone(b3, None, rest, c);
    var tail3 := [ss[1]] + ([ss[2]] + more);
    match place
    case None =>
      var r := [ss[0]] + tail3;
      assert r[0] == ss[0] && r[1] == ss[1] && r[2] == ss[2] && r[3..] == more;
    case Some(p) =>
      TrailLine(gap);
      var t := ss[0].(gap := "\n" + Trail(gap));
      var r := [t] + tail3;
      assert r[0] == t && r[1] == ss[1] && r[2] == ss[2] && r[3..] == more;
      PickedIgnoresGap(ss[0], t.gap, ClientIpIn(c));
      assert t == HeaderStmt(t.gap, REAL_IP_WORDS, ss[2]) by { HeaderMoved(gap, t.gap, ss[2]); }
      LogStmtFacts(p, gap, c);
      var l := LogStmt(p, gap);
      assert ([l] + r)[0] == l && ([l] + r)[1..] == r;
  }

  lemma {:induction false} AddLogsKeepsHeaded(b: string, place: Option<Place>, ss: seq<Stmt>, c: seq<nat>, first: bool)
    requires Headed(ss, first, c) && (place.Some? ==> !first)
    ensures Headed(AddLines(b, place, ss, LOG_LINES), first, c)
    decreases |ss|
  {
    hide Picked, IsProxy, NonePicked, HeaderStmt, AddLines, LogStmt, Trail, Opening, HasNewline;
    if Picked(ss[0], ClientIpIn(c)) {
      HeadedAfterLogs(b, place, ss, c, first);
    } else {
      var s := ss[0];
      var rest := AddLines(b + s.gap + s.raw, Opening(b, s), ss[1..], LOG_LINES);
      AddLogsFirstStmt(b, place, ss);
      AddLogsKeepsHeaded(b + s.gap + s.raw, Opening(b, s), ss[1..], c, false);
      match place
      case None =>
        assert ([s] + rest)[0] == s && ([s] + rest)[1..] == rest;
      case Some(p) =>
        var t, l := s.(gap := "\n" + Trail(s.gap)), LogStmt(p, s.gap);
        PickedIgnoresGap(s, t.gap, ClientIpIn(c));
        SameProxy(s, t.gap);
        LogStmtFacts(p, s.gap, c);
        assert ([t] + rest)[0] == t && ([t] + rest)[1..] == rest;
        assert ([l] + ([t] + rest))[0] == l && ([l] + ([t] + rest))[1..] == [t] + rest;
    }
  }

  // ----- Removing the added log lines

  /** The document with every server's brace at the end of its line. */
  function Normal(inside: bool, ss: seq<Stmt>): seq<Stmt>
    decreases |ss|
  {
    if ss == [] then []
    else
      var s := ss[0];
      [if inside && !HasNewline(s.gap) then s.(gap := "\n" + s.gap) else s] + Normal(OpensServer(s), ss[1..])
  }

  lemma OpeningIs(b: string, s: Stmt)
    requires Reads(s)
    ensures Opening(b, s).Some? <==> OpensServer(s)
    ensures Opening(b, s).Some? ==> !HasNewline(Opening(b, s).value.indent)
  {
    hide Run;
    OpeningOf(b, s);
    if OpensServer(s) { IndentBlank(b, s); }
  }

  lemma LogGap(p: Place, gap: string)
    requires !HasNewline(p.indent)
    ensures HasNewline(Lead(gap) + p.indent) && ThroughNewline(Lead(gap) + p.indent) == Lead(gap)
    ensures var t := "\n" + Trail(gap); HasNewline(t) && Blank(Head(t)) && AfterNewline(t) == Trail(gap)
    ensures Lead(gap) + Trail(gap) == if HasNewline(gap) then gap else "\n" + gap
  {
    var h := if HasNewline(gap) then Head(gap) else "";
    assert Lead(gap) == h + "\n";
    LineAfter(h, p.indent);
    GapSplit(gap);
    var t := "\n" + Trail(gap);
    assert t[0] == '\n' && t[1..] == Trail(gap);
  }

  lemma CutLogHere(p: Place, s: Stmt, rest: seq<Stmt>, tail: string)
    requires !HasNewline(p.indent) && !Picked(s, AccessLog)
    ensures var d := Cut(rest, tail, AccessLog, false, "", false);
      Cut([LogStmt(p, s.gap)] + ([s.(gap := "\n" + Trail(s.gap))] + rest), tail, AccessLog, false, "", false)
        == Doc([if HasNewline(s.gap) then s else s.(gap := "\n" + s.gap)] + d.stmts, d.tail)
  {
    hide Picked, LogStmt, Lead, Trail, ThroughNewline, AfterNewline, Head, Blank, HasNewline;
    var l, t := LogStmt(p, s.gap), s.(gap := "\n" + Trail(s.gap));
    var ss := [l] + ([t] + rest);
    assert ss[0] == l && ss[1..] == [t] + rest && ([t] + rest)[0] == t && ([t] + rest)[1..] == rest;
    LogStmtFacts(p, s.gap, []);
    LogGap(p, s.gap);
    PickedIgnoresGap(s, t.gap, AccessLog);
    CutFirst(ss, tail, AccessLog, false, "", false);
    assert "" + Lead(s.gap) == Lead(s.gap);
    CutFirst([t] + rest, tail, AccessLog, false, Lead(s.gap), true);
    assert Left(t.gap, true) == Trail(s.gap);
    assert Left(l.gap, false) == l.gap;
  }

  /** Removing the log lines again leaves the document with every server's brace at the end of its line. */
  lemma {:induction false} CutAddedLogs(b: string, place: Option<Place>, ss: seq<Stmt>, tail: string, first: bool)
    requires NonePicked(ss, AccessLog) && Readable(ss)
    requires place.Some? ==> !first && !HasNewline(place.value.indent)
    ensures Cut(AddLines(b, place, ss, LOG_LINES), tail, AccessLog, first, "", false) == Doc(Normal(place.Some?, ss), tail)
    decreases |ss|
  {
    hide Picked, Reads, AddLines, LogStmt, Trail, Opening, OpensServer, HasNewline, Alone;
    if ss == [] {
      NoLines(b, place);
      assert "" + tail == tail;
    } else {
      var s := ss[0];
      var next := b + s.gap + s.raw;
      var rest := AddLines(next, Opening(b, s), ss[1..], LOG_LINES);
      AddLogsFirstStmt(b, place, ss);
      OpeningIs(b, s);
      CutAddedLogs(next, Opening(b, s), ss[1..], tail, false);
      match place
      case None =>
        assert ([s] + rest)[0] == s && ([s] + rest)[1..] == rest;
        CutFirst([s] + rest, tail, AccessLog, first, "", false);
        assert "" + s.gap == s.gap && Left(s.gap, false) == s.gap;
      case Some(p) =>
        CutLogHere(p, s, rest, tail);
    }
  }

  lemma {:induction false} NormalTwice(inside: bool, ss: seq<Stmt>)
    ensures Normal(inside, Normal(inside, ss)) == Normal(inside, ss)
    decreases |ss|
  {
    hide OpensServer;
    if ss != [] {
      var s := ss[0];
      var t := if inside && !HasNewline(s.gap) then s.(gap := "\n" + s.gap) else s;
      var more := Normal(OpensServer(s), ss[1..]);
      NormalTwice(OpensServer(s), ss[1..]);
      assert OpensServer(t) == OpensServer(s) by { ServerIgnoresGap(s, t.gap); }
      assert ([t] + more)[0] == t && ([t] + more)[1..] == more;
      if inside && !HasNewline(s.gap) { assert t.gap[0] == '\n'; }
    }
  }

  lemma ServerIgnoresGap(s: Stmt, gap: string)
    ensures OpensServer(s.(gap := gap)) <==> OpensServer(s)
  {}
}
