/** When a second rewrite changes nothing. */
module NginxSteady {
  import opened Options
  import opened PythonText
  import opened NginxText
  import opened NginxLexer
  import opened NginxParser
  import opened NginxDocument
  import opened NginxGaps
  import opened NginxRemoval
  import opened NginxMeaning
  import opened NginxPhrases
  import opened NginxInsertion
  import opened NginxServers
  import opened NginxUpstream
  import opened NginxHeaders
  import opened NginxAudit
  import opened NginxGuarantees
  import opened NginxSite
  import opened NginxRewrite
  import opened NginxStability

  lemma {:induction false} NonePickedItems(ss: seq<Stmt>, p: Shape -> bool)
    ensures NonePicked(ss, p) <==> NoneChosen(Items(ss), p)
  {
    hide Picked, Chosen, View;
    if ss != [] {
      NonePickedItems(ss[1..], p);
      ChosenIsPicked(ss[0], p);
      assert Items(ss)[0] == View(ss[0]) && Items(ss)[1..] == Items(ss[1..]);
    }
  }

  /** The document before the log lines go in. */
  function Unlogged(d: Doc): Doc { ClearLogs(WithHeaders(ClearHeaders(d))) }

  /** The document that the second rewrite gives its log lines to, with every server brace at the end of its line. */
  function Straightened(d: Doc): Doc { Doc(Normal(false, Unlogged(d).stmts), Unlogged(d).tail) }

  /** Every step keeps the scopes of the Astra proxies. */
  lemma FinishedScopes(d: Doc)
    requires DocOk(d) && OneProxy(d)
    ensures AstraScopes(Shapes(Items(d.stmts))) != []
    ensures AstraScopes(Shapes(Items(ClearHeaders(d).stmts))) == AstraScopes(Shapes(Items(d.stmts)))
    ensures AstraScopes(Shapes(Items(Finished(d).stmts))) == AstraScopes(Shapes(Items(d.stmts)))
  {
    hide DocOk, Items, Shapes, AstraScopes, Drop, Without, ClientIpIn, AddItems, AddHeaderItems, ClearHeaders,
      WithHeaders, ClearLogs, WithLogs, HeaderValues;
    var items := Items(d.stmts);
    var c := ProxyScope(items);
    ClearHeadersMeaning(d);
    FinishedMeaning(d);
    var cleared := Drop(items, ClientIpIn(c));
    FirstScope(items);
    FirstScope(cleared);
    DropShapes(items, ClientIpIn(c));
    ClientIpIsNoProxy(c);
    ScopesWithout(Shapes(items), ClientIpIn(c));
    DroppedNone(items, ClientIpIn(c));
    ClearedHeaders(cleared, c, "x-real-ip");
    AddedHeaderValues(cleared, "x-real-ip");
    var headed := AddHeaderItems(cleared);
    var last := AddItems(None, Drop(headed, AccessLog), LOG_LINES);
    DropShapes(headed, AccessLog);
    AddLogsShapes(None, Drop(headed, AccessLog));
    WithoutTwice(Shapes(headed), AccessLog);
    LogsDoNotMatter(Shapes(headed), c, "x-real-ip");
    LogsDoNotMatter(Shapes(Drop(headed, AccessLog)), c, "x-real-ip");
    LogsDoNotMatter(Shapes(last), c, "x-real-ip");
  }

  lemma ScopeKept(d: Doc)
    requires DocOk(d) && OneProxy(d)
    ensures ProxyScope(Items(ClearHeaders(d).stmts)) == ProxyScope(Items(d.stmts))
    ensures CountPicked(ClearHeaders(d).stmts, AstraProxy) == 1
    ensures ProxyScope(Items(Finished(d).stmts)) == ProxyScope(Items(d.stmts))
    ensures OneProxy(Finished(d))
  {
    hide DocOk, Items, Shapes, AstraScopes, ClearHeaders, Finished;
    FinishedScopes(d);
    CountsAgree(ClearHeaders(d).stmts, AstraProxy);
    FirstScope(Items(d.stmts));
    FirstScope(Items(ClearHeaders(d).stmts));
    FirstScope(Items(Finished(d).stmts));
  }

  /** The rewrite leaves its own headers alone the second time. */
  lemma HeadersSettle(d: Doc)
    requires DocOk(d) && OneProxy(d)
    ensures WithHeaders(ClearHeaders(Finished(d))) == Finished(d)
  {
    hide DocOk, Items, Drop, ClientIpIn, AddHeaders, Cut, AddLines, Headed, Readable, NonePicked, Shapes;
    var c := ProxyScope(Items(d.stmts));
    ScopeKept(d);
    ClearHeadersMeaning(d);
    FinishedMeaning(d);
    var cleared := ClearHeaders(d);
    DroppedNone(Items(d.stmts), ClientIpIn(c));
    NonePickedItems(cleared.stmts, ClientIpIn(c));
    DocReads(cleared);
    AddHeadersHeaded("", cleared.stmts, c);
    var headed := WithHeaders(cleared);
    assert CarryOk(true, true, "", false);
    CutKeepsHeaded(headed.stmts, headed.tail, c, true, true, "", false);
    var unlogged := Unlogged(d);
    AddLogsKeepsHeaded("", None, unlogged.stmts, c, true);
    DocReads(Finished(d));
    HeadedRestores("", Finished(d).stmts, Finished(d).tail, c);
  }

  lemma DocReads(d: Doc)
    requires DocOk(d)
    ensures Readable(d.stmts)
  {
    AllRead(OUTSIDE, d.stmts, d.tail);
  }

  lemma UnloggedHasNone(d: Doc)
    requires DocOk(d)
    ensures NonePicked(Unlogged(d).stmts, AccessLog) && Readable(Unlogged(d).stmts) && DocOk(Unlogged(d))
  {
    hide DocOk, Items, Drop, AddHeaderItems, ClearHeaders, WithHeaders, ClearLogs, NonePicked, Readable;
    FinishedMeaning(d);
    DroppedNone(Items(WithHeaders(ClearHeaders(d)).stmts), AccessLog);
    NonePickedItems(Unlogged(d).stmts, AccessLog);
    DocReads(Unlogged(d));
  }

  /** The second rewrite gives log lines to the straightened document. */
  lemma SecondRewrite(d: Doc)
    requires DocOk(d) && OneProxy(d)
    ensures Finished(Finished(d)) == WithLogs(Straightened(d))
  {
    hide DocOk, Items, AddLines, Cut, ClearHeaders, WithHeaders, Normal, NonePicked, Readable;
    HeadersSettle(d);
    UnloggedHasNone(d);
    CutAddedLogs("", None, Unlogged(d).stmts, Unlogged(d).tail, true);
  }

  lemma {:induction false} NormalNone(inside: bool, ss: seq<Stmt>, p: Shape -> bool)
    requires NonePicked(ss, p)
    ensures NonePicked(Normal(inside, ss), p)
    decreases |ss|
  {
    hide Picked, OpensServer, HasNewline;
    if ss != [] {
      var s := ss[0];
      NormalNone(OpensServer(s), ss[1..], p);
      PickedIgnoresGap(s, "\n" + s.gap, p);
      assert Normal(inside, ss)[1..] == Normal(OpensServer(s), ss[1..]);
    }
  }

  lemma {:induction false} NormalWellFormed(sc: Scope, inside: bool, ss: seq<Stmt>, tail: string)
    requires WellFormed(sc, ss, tail)
    ensures WellFormed(sc, Normal(inside, ss), tail) && Items(Normal(inside, ss)) == Items(ss)
    decreases |ss|
  {
    hide Reads, Fits, Enter, TailOk, OpensServer, HasNewline, View;
    if ss != [] {
      var s := ss[0];
      NormalWellFormed(Enter(sc, s), OpensServer(s), ss[1..], tail);
      NormalStmt(sc, s);
      var t := if inside && !HasNewline(s.gap) then s.(gap := "\n" + s.gap) else s;
      var more := Normal(OpensServer(s), ss[1..]);
      assert ([t] + more)[0] == t && ([t] + more)[1..] == more;
    }
  }

  lemma NormalStmt(sc: Scope, s: Stmt)
    requires Reads(s) && Fits(sc, s)
    ensures var t := s.(gap := "\n" + s.gap); Reads(t) && Fits(sc, t) && Enter(sc, t) == Enter(sc, s) && View(t) == View(s)
  {
    hide Run, LexesAs;
    NewlineIsGap();
    GapConcat("\n", s.gap);
    KeptStmtFits(sc, s, "\n" + s.gap);
  }

  /** From the second rewrite on, nothing changes. */
  lemma ThirdRewrite(d: Doc)
    requires DocOk(d) && OneProxy(d)
    ensures Finished(Finished(Finished(d))) == Finished(Finished(d))
  {
    hide DocOk, Items, AddLines, Cut, ClearHeaders, WithHeaders, Normal, NonePicked, Readable, OneProxy;
    var e := Finished(d);
    SecondRewrite(d);
    FinishedMeaning(d);
    ScopeKept(d);
    HeadersSettle(e);
    UnloggedHasNone(d);
    var s := Straightened(d);
    NormalTwice(false, Unlogged(d).stmts);
    NormalNone(false, Unlogged(d).stmts, AccessLog);
    StraightenedReads(d);
    CutAddedLogs("", None, s.stmts, s.tail, true);
  }

  lemma StraightenedReads(d: Doc)
    requires DocOk(d)
    ensures Readable(Straightened(d).stmts) && DocOk(Straightened(d))
  {
    hide WellFormed, Normal, Readable;
    UnloggedHasNone(d);
    NormalWellFormed(OUTSIDE, false, Unlogged(d).stmts, Unlogged(d).tail);
    DocReads(Straightened(d));
  }

  // ----- The exact condition

  predicate Present(text: string, i: Insertion) { Mid(text, i.offset, i.offset + |i.content|) == i.content }

  /** The content of every insertion is already there. */
  predicate AllPresent(text: string, insertions: seq<Insertion>) {
    insertions == [] || (Present(text, insertions[0]) && AllPresent(text, insertions[1..]))
  }

  /** A site whose every server already has the safe log line where the next rewrite would put it, with the indent it
      would give it. */
  predicate Steady(text: string) {
    var parsed := ParseNginx(text);
    parsed.Ok? && AllPresent(text, LogInsertions(text, ServerBlocks(parsed.value.blocks)))
  }

  lemma SameIndent(p: string, q: string, word: string, more: string)
    requires Blank(p) && Blank(q) && word != "" && !IsSpace(word[0])
    requires |q| + |word| <= |p + word + more| && (p + word + more)[..|q| + |word|] == q + word
    ensures p == q
  {
    var text := p + word + more;
    assert text[|p|] == word[0];
    assert text[|q|] == (q + word)[|q|] == word[0];
    forall i | 0 <= i < |p| ensures IsSpace(text[i]) { assert text[i] == p[i] && p[i] in p; }
    forall i | 0 <= i < |q| ensures IsSpace(text[i]) { assert text[i] == (q + word)[i] == q[i] && q[i] in q; }
    assert |p| == |q|;
    assert text[..|p|] == p && (q + word)[..|q|] == q;
    assert text[..|q|] == text[..|q| + |word|][..|q|];
  }

  /** One log line is present exactly when its indent is the one computed now. */
  lemma LogPresent(b: string, p: Place, q: Place, gap: string, after: string)
    requires Blank(p.indent) && Blank(q.indent) && !HasNewline(p.indent)
    ensures var l := LogStmt(p, gap); var i := Added(b, q, l.gap, LOG_LINES);
      var text := b + (l.gap + l.raw + ("\n" + after));
      Present(text, i) <==> p.indent == q.indent
  {
    hide Phrase, Head, HasNewline, Mid, Blank, Lead, Content;
    var l := LogStmt(p, gap);
    var lead := Lead(gap);
    LogStmtFacts(p, gap, []);
    LogContent(q.indent);
    LeadEnds(gap, p.indent);
    var i := Added(b, q, l.gap, LOG_LINES);
    var log := REDACTED_ACCESS_LOG + "\n";
    assert i.offset == |b + lead|;
    assert i.content == q.indent + log by {
      assert "" + (q.indent + REDACTED_ACCESS_LOG + "\n") == q.indent + log;
    }
    var line := p.indent + log + after;
    var text := b + (l.gap + l.raw + ("\n" + after));
    assert text == (b + lead) + line;
    PresentAt(b + lead, line, q.indent + log);
    LogWord();
    if p.indent == q.indent {
      assert line[..|q.indent + log|] == q.indent + log;
    } else if |q.indent + log| <= |line| && line[..|q.indent + log|] == q.indent + log {
      SameIndent(p.indent, q.indent, log, after);
    }
  }

  lemma LogWord()
    ensures REDACTED_ACCESS_LOG + "\n" != "" && !IsSpace((REDACTED_ACCESS_LOG + "\n")[0])
  {
    assert REDACTED_ACCESS_LOG[0] == ACCESS_LOG[0] by { assert ACCESS_LOG_WORDS[0] == ACCESS_LOG; }
  }

  lemma PresentAt(a: string, line: string, content: string)
    ensures Mid(a + line, |a|, |a| + |content|) == content <==> |content| <= |line| && line[..|content|] == content
  {
    var text := a + line;
    var j := |a| + |content|;
    if |content| <= |line| {
      MidSlice(text, |a|, j);
      assert text[|a|..j] == line[..|content|];
    } else {
      assert Upto(text, j) == text;
      FromSlice(text, |a|);
      assert text[|a|..] == line;
    }
  }

  lemma HeadOfLine(h: string, rest: string)
    requires !HasNewline(h)
    ensures HasNewline(h + ("\n" + rest)) && Head(h + ("\n" + rest)) == h
  {
    HeadConcat(h, "\n" + rest);
    assert (h + ("\n" + rest))[|h|] == '\n';
    assert h + "" == h;
  }

  lemma LeadEnds(gap: string, indent: string)
    requires !HasNewline(indent)
    ensures HasNewline(Lead(gap) + indent) && |Head(Lead(gap) + indent)| + 1 == |Lead(gap)|
  {
    hide Head, HasNewline;
    var h := if HasNewline(gap) then Head(gap) else "";
    HeadSplit(gap);
    EmptyHasNone();
    HeadOfLine(h, indent);
    assert Lead(gap) == h + "\n";
    assert Lead(gap) + indent == h + ("\n" + indent);
  }

  lemma EmptyHasNone()
    ensures !HasNewline("")
  {}

  /** The log insertions of a document that has its log lines. */
  lemma InsertionsOfLogged(b: string, q: Option<Place>, l: Stmt, t: Stmt, rest: seq<Stmt>)
    requires !OpensServer(l)
    ensures var b1 := b + l.gap + l.raw; var b2 := b1 + t.gap + t.raw;
      LineInsertions(b, q, [l] + ([t] + rest), LOG_LINES)
        == Pending(b, q, [l], LOG_LINES) + LineInsertions(b2, Opening(b1, t), rest, LOG_LINES)
  {
    hide Content, Opening, Added;
    var ss := [l] + ([t] + rest);
    assert ss[0] == l && ss[1..] == [t] + rest && ([t] + rest)[0] == t && ([t] + rest)[1..] == rest;
    NotServer(b, l);
    var b1 := b + l.gap + l.raw;
    var more := LineInsertions(b1 + t.gap + t.raw, Opening(b1, t), rest, LOG_LINES);
    assert [] + more == more;
  }

  /** Two prefixes that end in the same line. */
  predicate SameLine(a: string, b: string) { LastLine(a) == LastLine(b) }

  lemma SameLineConcat(a: string, b: string, x: string)
    requires SameLine(a, b)
    ensures SameLine(a + x, b + x)
  {
    LastConcat(a, x);
    LastConcat(b, x);
  }

  lemma SameOpening(a: string, b: string, s: Stmt, t: Stmt)
    requires s.raw == t.raw && s.term == t.term && s.name == t.name && s.chain == t.chain && s.id == t.id
    requires SameLine(a + s.gap, b + t.gap)
    ensures Opening(a, s) == Opening(b, t)
  {
    if s.raw != "" {
      SameLineConcat(a + s.gap, b + t.gap, s.raw[..|s.raw| - 1]);
    }
  }

  /** The statement that `Normal` makes of one at the start of a server block. */
  function Straight(s: Stmt): Stmt { if HasNewline(s.gap) then s else s.(gap := "\n" + s.gap) }

  lemma StraightFacts(s: Stmt)
    ensures var t := Straight(s); Lead(t.gap) == Lead(s.gap) && Trail(t.gap) == Trail(s.gap)
    ensures HasNewline(Straight(s).gap) && LastLine(Straight(s).gap) == LastLine("\n" + Trail(s.gap))
    ensures LastLine("\n" + Trail(s.gap)) == LastLine(Straight(s).gap)
  {
    var gap := s.gap;
    if HasNewline(gap) {
      TrailLine(gap);
    } else {
      var t := "\n" + gap;
      assert t[0] == '\n' && t[1..] == gap;
      assert Head(t) == "" && AfterNewline(t) == gap;
      assert "" + "\n" == "\n";
    }
  }

  lemma NormalFirst(inside: bool, ss: seq<Stmt>)
    requires ss != []
    ensures Normal(inside, ss) == [if inside then Straight(ss[0]) else ss[0]] + Normal(OpensServer(ss[0]), ss[1..])
  {}

  lemma LogStmtsEqual(p: Place, q: Place, s: Stmt, x: seq<Stmt>, y: seq<Stmt>)
    requires p.chain == q.chain
    ensures var t := Straight(s);
      [LogStmt(p, s.gap)] + ([s.(gap := "\n" + Trail(s.gap))] + x)
        == [LogStmt(q, t.gap)] + ([t.(gap := "\n" + Trail(t.gap))] + y)
      <==> p.indent == q.indent && x == y
  {
    hide Phrase, Lead, Trail, HasNewline;
    var t := Straight(s);
    StraightFacts(s);
    var a, b := [LogStmt(p, s.gap)] + ([s.(gap := "\n" + Trail(s.gap))] + x),
                [LogStmt(q, t.gap)] + ([t.(gap := "\n" + Trail(t.gap))] + y);
    assert a[1..][1..] == x && b[1..][1..] == y;
    assert a[0].gap == Lead(s.gap) + p.indent && b[0].gap == Lead(s.gap) + q.indent;
    if a == b {
      assert a[0].gap[|Lead(s.gap)|..] == p.indent;
      assert b[0].gap[|Lead(s.gap)|..] == q.indent;
    }
    assert s.(gap := "\n" + Trail(s.gap)) == t.(gap := "\n" + Trail(t.gap));
  }

  lemma IndentsAre(b: string, s: Stmt)
    ensures Opening(b, s).Some? ==>
      var p := Opening(b, s).value; Blank(p.indent) && !HasNewline(p.indent) && p.chain == s.chain + [s.id]
  {
    if OpensServer(s) && s.raw != "" { IndentBlank(b, s); }
  }

  predicate PlaceOk(p: Option<Place>) { p.Some? ==> Blank(p.value.indent) && !HasNewline(p.value.indent) }

  predicate SameChain(p: Option<Place>, q: Option<Place>) {
    (p.Some? <==> q.Some?) && (p.Some? ==> p.value.chain == q.value.chain)
  }

  lemma PresentCons(text: string, i: Insertion, rest: seq<Insertion>)
    ensures AllPresent(text, [i] + rest) <==> Present(text, i) && AllPresent(text, rest)
  {
    assert ([i] + rest)[1..] == rest;
  }

  lemma SameChainOpenings(a: string, b: string, s: Stmt, t: Stmt)
    requires s.raw == t.raw && s.term == t.term && s.name == t.name && s.chain == t.chain && s.id == t.id
    ensures SameChain(Opening(a, s), Opening(b, t)) && PlaceOk(Opening(a, s))
  {
    IndentsAre(a, s);
    IndentsAre(b, t);
  }

  /** Lines added to a document equal the lines added to its straight form exactly when every log line has the indent
      that the straight form, which has the same opener lines, asks for. */
  lemma {:induction false} SteadyLines(e: string, n: string, d: string, p: Option<Place>, q: Option<Place>, ss: seq<Stmt>,
                                       tail: string)
    requires Readable(ss) && SameLine(n, d) && SameChain(p, q) && PlaceOk(p) && PlaceOk(q)
    ensures var lines := AddLines(e, p, ss, LOG_LINES);
      lines == AddLines(n, q, Normal(p.Some?, ss), LOG_LINES)
      <==> AllPresent(d + (Render(lines) + tail), LineInsertions(d, q, lines, LOG_LINES))
    decreases |ss|
  {
    hide Reads, AddLines, LineInsertions, Present, LogStmt, Trail, Lead, Opening, SameLine, PlaceOk, SameChain, Added,
      Normal, Straight, HasNewline, Render, AllPresent;
    if ss == [] {
      SteadyNothing(e, n, d, p, q, tail);
    } else {
      match p
      case None => SteadyPlain(e, n, d, p, q, ss, tail);
      case Some(place) =>
        assert q.Some? by { ChainsSome(p, q); }
        SteadyLogged(e, n, d, place, q.value, ss, tail);
    }
  }

  lemma ChainsSome(p: Option<Place>, q: Option<Place>)
    requires SameChain(p, q)
    ensures p.Some? <==> q.Some?
    ensures p.Some? ==> p.value.chain == q.value.chain
  {}

  lemma SteadyNothing(e: string, n: string, d: string, p: Option<Place>, q: Option<Place>, tail: string)
    ensures AddLines(e, p, [], LOG_LINES) == AddLines(n, q, Normal(p.Some?, []), LOG_LINES)
    ensures AllPresent(d + (Render(AddLines(e, p, [], LOG_LINES)) + tail),
                       LineInsertions(d, q, AddLines(e, p, [], LOG_LINES), LOG_LINES))
  {}

  lemma AllRendered(s: Stmt, lines: seq<Stmt>)
    ensures Render([s] + lines) == s.gap + s.raw + Render(lines)
  {
    assert ([s] + lines)[1..] == lines;
  }

  lemma NoInsertionFirst(d: string, s: Stmt, lines: seq<Stmt>)
    ensures LineInsertions(d, None, [s] + lines, LOG_LINES)
         == LineInsertions(d + s.gap + s.raw, Opening(d, s), lines, LOG_LINES)
  {
    hide Opening;
    assert ([s] + lines)[1..] == lines;
    var ins := LineInsertions(d + s.gap + s.raw, Opening(d, s), lines, LOG_LINES);
    assert [] + ins == ins;
  }

  lemma SteadyPlain(e: string, n: string, d: string, p: Option<Place>, q: Option<Place>, ss: seq<Stmt>, tail: string)
    requires ss != [] && Readable(ss) && SameLine(n, d) && SameChain(p, q) && p == None
    ensures var lines := AddLines(e, p, ss, LOG_LINES);
      lines == AddLines(n, q, Normal(false, ss), LOG_LINES)
      <==> AllPresent(d + (Render(lines) + tail), LineInsertions(d, q, lines, LOG_LINES))
    decreases |ss|, 0
  {
    hide Reads, Present, LogStmt, Trail, Lead, Opening, SameLine, PlaceOk, SameChain, Added, Straight, HasNewline,
      AllPresent, Normal, OpensServer, AddLines, Render, LineInsertions;
    var s, rest := ss[0], ss[1..];
    ChainsSome(p, q);
    NormalFirst(false, ss);
    var more := Normal(OpensServer(s), rest);
    assert ([s] + more)[0] == s && ([s] + more)[1..] == more;
    AddLogsFirstStmt(e, None, ss);
    AddLogsFirstStmt(n, None, [s] + more);
    var e1, n1, d1 := e + s.gap + s.raw, n + s.gap + s.raw, d + s.gap + s.raw;
    SameLineConcat(n, d, s.gap);
    SameLineConcat(n + s.gap, d + s.gap, s.raw);
    SameOpening(n, d, s, s);
    SameChainOpenings(e, n, s, s);
    SameChainOpenings(n, e, s, s);
    OpeningIs(e, s);
    SteadyLines(e1, n1, d1, Opening(e, s), Opening(n, s), rest, tail);
    var lines := AddLines(e1, Opening(e, s), rest, LOG_LINES);
    var all := [s] + lines;
    AllRendered(s, lines);
    assert d + (Render(all) + tail) == d1 + (Render(lines) + tail);
    NoInsertionFirst(d, s, lines);
    var other := AddLines(n1, Opening(n, s), more, LOG_LINES);
    assert ([s] + other)[1..] == other;
  }

  /** The first log line of a document: the two documents agree when their indents and the rests do. */
  lemma LoggedAgree(e: string, n: string, p: Place, q: Place, ss: seq<Stmt>)
    requires ss != [] && p.chain == q.chain
    ensures var s := ss[0]; var t := Straight(s); var more := Normal(OpensServer(s), ss[1..]);
      AddLines(e, Some(p), ss, LOG_LINES) == AddLines(n, Some(q), Normal(true, ss), LOG_LINES)
      <==> p.indent == q.indent
           && AddLines(e + s.gap + s.raw, Opening(e, s), ss[1..], LOG_LINES)
              == AddLines(n + t.gap + t.raw, Opening(n, t), more, LOG_LINES)
  {
    hide LogStmt, Trail, Lead, Opening, Straight, HasNewline, Normal, OpensServer, AddLines;
    var s, rest := ss[0], ss[1..];
    var more, t := Normal(OpensServer(s), rest), Straight(s);
    NormalFirst(true, ss);
    assert ([t] + more)[0] == t && ([t] + more)[1..] == more;
    AddLogsFirstStmt(e, Some(p), ss);
    AddLogsFirstStmt(n, Some(q), [t] + more);
    LogStmtsEqual(p, q, s, AddLines(e + s.gap + s.raw, Opening(e, s), rest, LOG_LINES),
                  AddLines(n + t.gap + t.raw, Opening(n, t), more, LOG_LINES));
  }

  /** The first log line of a document: its insertions are present when its own is and the rest are. */
  lemma LoggedPresent(d: string, p: Place, q: Place, s: Stmt, lines: seq<Stmt>, tail: string)
    requires PlaceOk(Some(p)) && PlaceOk(Some(q))
    ensures var l, u := LogStmt(p, s.gap), s.(gap := "\n" + Trail(s.gap));
      var d0 := d + l.gap + l.raw;
      var d1 := d0 + u.gap + u.raw;
      var all := [l] + ([u] + lines);
      AllPresent(d + (Render(all) + tail), LineInsertions(d, Some(q), all, LOG_LINES))
      <==> p.indent == q.indent
           && AllPresent(d1 + (Render(lines) + tail), LineInsertions(d1, Opening(d0, u), lines, LOG_LINES))
  {
    hide Present, LogStmt, Trail, Lead, Opening, Added, HasNewline, AllPresent, LineInsertions, Blank, LastLine, Render;
    var l, u := LogStmt(p, s.gap), s.(gap := "\n" + Trail(s.gap));
    var d0 := d + l.gap + l.raw;
    var d1 := d0 + u.gap + u.raw;
    var all := [l] + ([u] + lines);
    RenderTwo(l, u, lines);
    var text := d + (Render(all) + tail);
    assert text == d1 + (Render(lines) + tail);
    LogStmtFacts(p, s.gap, []);
    InsertionsOfLogged(d, Some(q), l, u, lines);
    PendingLine(d, q, l);
    PresentCons(text, Added(d, q, l.gap, LOG_LINES), LineInsertions(d1, Opening(d0, u), lines, LOG_LINES));
    var after := Trail(s.gap) + u.raw + (Render(lines) + tail);
    assert text == d + (l.gap + l.raw + ("\n" + after));
    LogPresent(d, p, q, s.gap, after);
  }

  lemma SteadyLogged(e: string, n: string, d: string, p: Place, q: Place, ss: seq<Stmt>, tail: string)
    requires ss != [] && Readable(ss) && SameLine(n, d) && SameChain(Some(p), Some(q)) && PlaceOk(Some(p))
    requires PlaceOk(Some(q))
    ensures var lines := AddLines(e, Some(p), ss, LOG_LINES);
      lines == AddLines(n, Some(q), Normal(true, ss), LOG_LINES)
      <==> AllPresent(d + (Render(lines) + tail), LineInsertions(d, Some(q), lines, LOG_LINES))
    decreases |ss|, 0
  {
    hide Reads, LogStmt, Trail, Opening, SameLine, SameChain, Straight, HasNewline, AllPresent, Normal, Render,
      OpensServer, AddLines, LineInsertions, Blank, PlaceOk;
    var s, rest := ss[0], ss[1..];
    ChainsSome(Some(p), Some(q));
    var t := Straight(s);
    StraightSame(s);
    var l, u := LogStmt(p, s.gap), s.(gap := "\n" + Trail(s.gap));
    var e1, n1 := e + s.gap + s.raw, n + t.gap + t.raw;
    var d0 := d + l.gap + l.raw;
    var d1 := d0 + u.gap + u.raw;
    SameLineHere(n, d0, s);
    SameLineConcat(n + t.gap, d0 + u.gap, s.raw);
    SameOpening(n, d0, t, u);
    SameChainOpenings(e, n, s, t);
    SameChainOpenings(n, e, t, s);
    OpeningIs(e, s);
    SteadyLines(e1, n1, d1, Opening(e, s), Opening(n, t), rest, tail);
    LoggedAgree(e, n, p, q, ss);
    AddLogsFirstStmt(e, Some(p), ss);
    LoggedPresent(d, p, q, s, AddLines(e1, Opening(e, s), rest, LOG_LINES), tail);
  }

  lemma StraightSame(s: Stmt)
    ensures var t := Straight(s); t.raw == s.raw && t.term == s.term && t.name == s.name && t.chain == s.chain && t.id == s.id
  {}

  lemma PendingLine(d: string, q: Place, l: Stmt)
    ensures Pending(d, Some(q), [l], LOG_LINES) == [Added(d, q, l.gap, LOG_LINES)]
  {}

  lemma RenderTwo(l: Stmt, u: Stmt, lines: seq<Stmt>)
    ensures Render([l] + ([u] + lines)) == l.gap + l.raw + (u.gap + u.raw + Render(lines))
  {
    assert ([l] + ([u] + lines))[1..] == [u] + lines && ([u] + lines)[1..] == lines;
  }

  lemma SameLineHere(n: string, d0: string, s: Stmt)
    ensures SameLine(n + Straight(s).gap, d0 + ("\n" + Trail(s.gap)))
  {
    StraightFacts(s);
    LastConcat(n, Straight(s).gap);
    LastConcat(d0, "\n" + Trail(s.gap));
    assert ("\n" + Trail(s.gap))[0] == '\n';
  }

  /** A second rewrite changes nothing exactly when the first result is steady. */
  lemma SteadyIsStable(d: Doc)
    requires DocOk(d) && OneProxy(d)
    ensures Finished(Finished(d)) == Finished(d) <==> Steady(RenderDoc(Finished(d)))
  {
    hide DocOk, Items, AddLines, Normal, Readable, Render, AllPresent, LineInsertions, LogInsertions, ParseNginx,
      OneProxy, ClearHeaders, WithHeaders, ClearLogs;
    SecondRewrite(d);
    UnloggedHasNone(d);
    var u := Unlogged(d);
    assert SameLine("", "");
    SteadyLines("", "", "", None, None, u.stmts, u.tail);
    var r := Finished(d);
    FinishedMeaning(d);
    assert r == WithLogs(u);
    assert "" + RenderDoc(r) == RenderDoc(r);
    SteadyText(r);
  }

  lemma SteadyText(r: Doc)
    requires DocOk(r)
    ensures Steady(RenderDoc(r)) <==> AllPresent(RenderDoc(r), LineInsertions("", None, r.stmts, LOG_LINES))
  {
    hide WellFormed, AllPresent, LogInsertions, LineInsertions, ParseNginx, Render, Readable, DocServers;
    ParseOf(r);
    LogPointsOf(r);
  }

  lemma LogPointsOf(r: Doc)
    requires DocOk(r) && Readable(r.stmts)
    ensures LineInsertions("", None, r.stmts, LOG_LINES) == LogInsertions(RenderDoc(r), DocServers(r.stmts, 0))
  {
    hide WellFormed, Readable, LogInsertions, LineInsertions, DocServers, Render;
    LogPoints(OUTSIDE, "", None, r.stmts, r.tail);
    assert "" + (Render(r.stmts) + r.tail) == RenderDoc(r);
    var ins := LogInsertions(RenderDoc(r), DocServers(r.stmts, 0));
    assert [] + ins == ins;
    if r.stmts != [] { assert Pending("", None, r.stmts, LOG_LINES) == []; }
  }
}
