/** Marker text in a document: the rewrite creates none, and loses exactly what stands in the directives it drops. */
module NginxClean {
  import opened Options
  import opened PythonText
  import opened NginxText
  import opened NginxLexer
  import opened NginxDocument
  import opened NginxGaps
  import opened NginxRemoval
  import opened NginxMeaning
  import opened NginxPhrases
  import opened NginxInsertion
  import opened NginxServers
  import opened NginxUpstream
  import opened NginxHeaders
  import opened NginxAudit
  import opened NginxGuarantees
  import opened NginxMarkers
  import opened NginxSite
  import opened NginxStability
  import opened NginxSteady
  import opened NginxRollback

  // ----- Gaps and statements are sealed

  lemma BlankHasNoHash(s: string)
    requires Blank(s)
    ensures '#' !in s
  {}

  lemma GapSealed(g: string)
    requires GapText(g)
    ensures Sealed(g)
  {
    hide GapText, Blank, Sealed;
    GapLines(g);
    LastSplit(g);
    BlankHasNoHash(LastLine(g));
    NoHashSealed(LastLine(g));
    ThroughSealed(g);
    SealedConcat(ThroughNewline(g), LastLine(g));
  }

  lemma ThroughSealed(g: string)
    ensures Sealed(ThroughNewline(g))
  {
    LastSplit(g);
    SealedByEnd(ThroughNewline(g));
  }

  lemma SuffixSealed(g: string, n: nat)
    requires Sealed(g) && n <= |g|
    ensures Sealed(g[n..])
  {
    forall i | 0 <= i < |g| - n && g[n..][i] == '#'
      ensures exists j :: i < j < |g| - n && IsSeal(g[n..][j])
    {
      var j :| n + i < j < |g| && IsSeal(g[j]);
      assert g[n..][j - n] == g[j];
    }
  }

  lemma RawSealed(s: Stmt)
    requires Reads(s)
    ensures Sealed(s.raw)
  {
    hide Run;
    SealedByEnd(s.raw);
  }

  // ----- Documents without marker text

  ghost predicate Free(m: string, s: string) { !Occurs(m, s) }

  const NOTHING := (d: Shape) => false

  /** No marker text in the gaps, nor in the statements that the rule does not pick. */
  ghost predicate FreeBut(m: string, ss: seq<Stmt>, rule: Shape -> bool) {
    ss == [] || (Free(m, ss[0].gap) && (Picked(ss[0], rule) || Free(m, ss[0].raw)) && FreeBut(m, ss[1..], rule))
  }

  ghost predicate FreeDoc(m: string, d: Doc, rule: Shape -> bool) { FreeBut(m, d.stmts, rule) && Free(m, d.tail) }

  /** Texts joined behind a sealed one are free of a marker exactly when both are. */
  lemma FreeConcat(m: string, a: string, b: string)
    requires MarkerLike(m) && Sealed(a)
    ensures Free(m, a + b) <==> Free(m, a) && Free(m, b)
  {
    hide Sealed, MarkerLike, Occurs;
    OccursInPrefix(m, a, b);
    if Occurs(m, a + b) { Straddle(m, a, b); }
  }

  lemma FreeParts(m: string, a: string, b: string)
    requires Free(m, a + b)
    ensures Free(m, a) && Free(m, b)
  {
    OccursInPrefix(m, a, b);
  }

  lemma {:induction false} FreeRender(m: string, ss: seq<Stmt>, tail: string)
    requires MarkerLike(m) && Readable(ss)
    ensures Free(m, Render(ss) + tail) <==> FreeBut(m, ss, NOTHING) && Free(m, tail)
    decreases |ss|
  {
    hide MarkerLike, Sealed, Free, Reads, Picked;
    if ss == [] {
      assert Render(ss) + tail == tail;
    } else {
      var s, rest := ss[0], ss[1..];
      FreeRender(m, rest, tail);
      assert Render(ss) + tail == s.gap + (s.raw + (Render(rest) + tail));
      StmtSealed(s);
      NothingPicked(s);
      FreeConcat(m, s.gap, s.raw + (Render(rest) + tail));
      FreeConcat(m, s.raw, Render(rest) + tail);
    }
  }

  lemma NothingPicked(s: Stmt)
    ensures !Picked(s, NOTHING)
  {}

  lemma StmtSealed(s: Stmt)
    requires Reads(s)
    ensures Sealed(s.gap) && Sealed(s.raw)
  {
    hide Sealed, Run;
    GapSealed(s.gap);
    RawSealed(s);
  }

  lemma FreeDocText(m: string, d: Doc)
    requires MarkerLike(m) && Readable(d.stmts)
    ensures Free(m, RenderDoc(d)) <==> FreeDoc(m, d, NOTHING)
  {
    hide MarkerLike, Free, Readable;
    FreeRender(m, d.stmts, d.tail);
  }

  lemma FreeCons(m: string, s: Stmt, rest: seq<Stmt>, rule: Shape -> bool)
    ensures FreeBut(m, [s] + rest, rule) <==> Free(m, s.gap) && (Picked(s, rule) || Free(m, s.raw)) && FreeBut(m, rest, rule)
  {
    hide Free, Picked;
    assert ([s] + rest)[1..] == rest;
  }

  /** Picking more excuses more. */
  lemma {:induction false} FreeButMore(m: string, ss: seq<Stmt>, rule: Shape -> bool)
    requires FreeBut(m, ss, NOTHING)
    ensures FreeBut(m, ss, rule)
  {
    hide Free, Picked;
    if ss != [] {
      NothingPicked(ss[0]);
      FreeButMore(m, ss[1..], rule);
    }
  }

  lemma NoHashFree(m: string, a: string)
    requires MarkerLike(m) && '#' !in a
    ensures Free(m, a)
  {
    NoHashNoMarker(m, a);
  }

  // ----- What the rewrite drops

  function Either(p: Shape -> bool, q: Shape -> bool): Shape -> bool { (d: Shape) => p(d) || q(d) }

  /** The directives that a cutover drops: client-IP headers in the proxy's scope, and access logs. */
  function Dropped(scope: seq<nat>): Shape -> bool { Either(ClientIpIn(scope), AccessLog) }

  lemma PickedEither(s: Stmt, p: Shape -> bool, q: Shape -> bool)
    ensures Picked(s, Either(p, q)) <==> Picked(s, p) || Picked(s, q)
  {}

  // ----- Pointing the proxy elsewhere

  lemma MiddleFails(m: string, x: string, v: string, z: string, i: int)
    requires MarkerText(m) && v != "" && forall c <- v :: !IsMarkerCharacter(c)
    requires 0 <= i < |x| + |v| && |x| < i + |m| <= |x + v + z|
    ensures !OccursAt(m, x + v + z, i)
  {
    hide IsMarkerCharacter;
    var t, k := x + v + z, if i < |x| then |x| else i;
    assert t[k] == v[k - |x|] && v[k - |x|] in v;
    assert t[i..i + |m|][k - i] == t[k];
    assert m[k - i] in m;
  }

  /** No marker reaches into text without marker characters. */
  lemma FreeAround(m: string, x: string, v: string, z: string)
    requires MarkerText(m) && v != "" && (forall c <- v :: !IsMarkerCharacter(c)) && Free(m, x) && Free(m, z)
    ensures Free(m, x + v + z)
  {
    hide IsMarkerCharacter, MarkerText;
    var t := x + v + z;
    forall i | 0 <= i <= |t| - |m| ensures !OccursAt(m, t, i) {
      if i + |m| <= |x| {
        assert t[i..i + |m|] == x[i..i + |m|];
        assert !OccursAt(m, x, i);
      } else if i >= |x| + |v| {
        var j := i - |x| - |v|;
        assert t[i..i + |m|] == z[j..j + |m|];
        assert !OccursAt(m, z, j);
      } else {
        MiddleFails(m, x, v, z, i);
      }
    }
  }

  lemma MarkerNotEmpty(m: string)
    requires MarkerText(m)
    ensures m != "" && MarkerLike(m)
  {}

  lemma UpstreamIsNoMarker(p: Port)
    ensures Upstream(p) != "" && forall c <- Upstream(p) :: !IsMarkerCharacter(c)
  {
    var u := Upstream(p);
    forall c | c in u ensures !IsMarkerCharacter(c) {
      var i :| 0 <= i < |u| && u[i] == c;
      if i < |UPSTREAM| {
        assert u[i] == UPSTREAM[i];
      } else {
        assert u[i] == Digits(p)[i - |UPSTREAM|];
      }
    }
  }

  lemma PointToFree(m: string, s: Stmt, p: Port, scope: seq<nat>)
    requires MarkerText(m) && Reads(s)
    ensures PointTo(s, p).gap == s.gap
    ensures Free(m, PointTo(s, p).raw) <==> Free(m, s.raw)
    ensures Picked(PointTo(s, p), Dropped(scope)) <==> Picked(s, Dropped(scope))
  {
    hide Run, LexesAs, GapText, Free, MarkerText, Upstream, IsProxy, IsMarkerCharacter, Plain, Picked, Either;
    PointToReads(s, p);
    if IsProxy(s) {
      PickedEither(s, ClientIpIn(scope), AccessLog);
      PickedEither(PointTo(s, p), ClientIpIn(scope), AccessLog);
      ProxyIsNotPicked(s, scope);
      ProxyIsNotPicked(PointTo(s, p), scope);
      ArgumentFree(m, s, p);
    }
  }

  /** The argument of the proxy holds no part of a marker. */
  lemma ArgumentFree(m: string, s: Stmt, p: Port)
    requires MarkerText(m) && Reads(s) && IsProxy(s)
    ensures Free(m, PointTo(s, p).raw) <==> Free(m, s.raw)
  {
    hide Run, LexesAs, GapText, Free, MarkerText, Upstream, IsProxy, IsMarkerCharacter, Plain;
    ProxyWords(s);
    UpstreamFacts();
    ArgumentBounds(s.raw, s.words);
    ReplacedParts(s, p);
    var k := Run(START, s.raw).tokens[1];
    var x, z := s.raw[..k.start], s.raw[k.end..];
    assert s.raw == x + s.words[1] + z;
    UpstreamIsNoMarker(P3008);
    UpstreamIsNoMarker(P3009);
    OutsideArgument(m, x, s.words[1], z);
    OutsideArgument(m, x, Upstream(p), z);
  }

  lemma OutsideArgument(m: string, x: string, v: string, z: string)
    requires MarkerText(m) && v != "" && forall c <- v :: !IsMarkerCharacter(c)
    ensures Free(m, x + v + z) <==> Free(m, x) && Free(m, z)
  {
    hide Free, MarkerText, IsMarkerCharacter;
    if Free(m, x + v + z) {
      FreeParts(m, x + v, z);
      FreeParts(m, x, v);
    } else if Free(m, x) && Free(m, z) {
      FreeAround(m, x, v, z);
    }
  }

  lemma {:induction false} RerouteFree(m: string, ss: seq<Stmt>, p: Port, scope: seq<nat>)
    requires MarkerText(m) && Readable(ss)
    ensures FreeBut(m, Reroute(ss, p), Dropped(scope)) <==> FreeBut(m, ss, Dropped(scope))
  {
    hide Reads, Free, PointTo, MarkerText, Picked, Dropped;
    if ss != [] {
      PointToFree(m, ss[0], p, scope);
      RerouteFree(m, ss[1..], p, scope);
      FreeCons(m, PointTo(ss[0], p), Reroute(ss[1..], p), Dropped(scope));
    }
  }

  // ----- Removing directives

  /** The line break that goes with a directive, and the blanks before it, hold no marker. */
  lemma EatenFree(m: string, gap: string)
    requires MarkerLike(m) && Blank(Head(gap))
    ensures Free(m, AfterNewline(gap)) <==> Free(m, gap)
  {
    hide Free, MarkerLike, Sealed, Blank;
    HeadSplit(gap);
    BlankHasNoHash(Head(gap));
    if HasNewline(gap) {
      NoHashFree(m, Head(gap) + "\n");
      SealedByEnd(Head(gap) + "\n");
      FreeConcat(m, Head(gap) + "\n", AfterNewline(gap));
    } else {
      NoHashFree(m, gap);
      NoHashFree(m, "");
    }
  }

  lemma LastBlankFree(m: string, g: string)
    requires MarkerLike(m) && Blank(LastLine(g))
    ensures Free(m, ThroughNewline(g)) <==> Free(m, g)
  {
    hide Free, MarkerLike, Sealed, Blank;
    LastSplit(g);
    BlankHasNoHash(LastLine(g));
    NoHashFree(m, LastLine(g));
    ThroughSealed(g);
    FreeConcat(m, ThroughNewline(g), LastLine(g));
  }

  /** What is left of a gap. */
  lemma LeftFree(m: string, s: Stmt, eaten: bool)
    requires MarkerLike(m) && Reads(s) && (eaten ==> Blank(Head(s.gap)))
    ensures var g := Left(s.gap, eaten);
      && Sealed(g)
      && (Free(m, g) <==> Free(m, s.gap))
      && (Free(m, ThroughNewline(g)) <==> Free(m, s.gap))
  {
    hide Free, MarkerLike, Sealed, Blank, LexesAs, Run;
    var g := Left(s.gap, eaten);
    StmtSealed(s);
    GapLines(s.gap);
    HeadSplit(s.gap);
    if eaten {
      EatenFree(m, s.gap);
      if HasNewline(s.gap) {
        assert s.gap[|s.gap| - |g|..] == g;
        SuffixSealed(s.gap, |s.gap| - |g|);
      }
      EmptyFree(m);
    }
    LeftBlank(s.gap, eaten);
    LastBlankFree(m, g);
  }

  lemma LeftBlank(gap: string, eaten: bool)
    requires Blank(LastLine(gap))
    ensures Blank(LastLine(Left(gap, eaten)))
  {
    hide IsSpace;
    var g := Left(gap, eaten);
    HeadSplit(gap);
    if eaten && HasNewline(gap) {
      LastConcat(Head(gap) + "\n", g);
      LastSplit(g);
      if !HasNewline(g) {
        assert LastLine(gap) == LastLine(Head(gap) + "\n") + g;
        BlankConcat(LastLine(Head(gap) + "\n"), g);
      }
    }
  }

  /** The document after a removal is free of a marker, but for a second rule, exactly when the one before is, but for
      both. */
  lemma {:induction false} CutFree(m: string, ss: seq<Stmt>, tail: string, p: Shape -> bool, q: Shape -> bool, first: bool,
                                   carry: string, eaten: bool)
    requires MarkerLike(m) && Readable(ss) && Sealed(carry) && (eaten ==> RestBlank(ss, tail))
    ensures FreeDoc(m, Cut(ss, tail, p, first, carry, eaten), q)
        <==> Free(m, carry) && FreeBut(m, ss, Either(p, q)) && Free(m, tail)
    decreases |ss|
  {
    hide Reads, Free, MarkerLike, Sealed, Picked, Alone, ThroughNewline, AfterNewline, Either;
    if ss == [] {
      if eaten { EatenFree(m, tail); }
      FreeConcat(m, carry, Left(tail, eaten));
    } else {
      var s, rest := ss[0], ss[1..];
      var g := Left(s.gap, eaten);
      LeftFree(m, s, eaten);
      FreeConcat(m, carry, g);
      FreeConcat(m, carry, ThroughNewline(g));
      CutFirst(ss, tail, p, first, carry, eaten);
      PickedEither(s, p, q);
      if !Picked(s, p) {
        EmptyFree(m);
        CutFree(m, rest, tail, p, q, false, "", false);
        PickedIgnoresGap(s, carry + g, q);
        FreeCons(m, s.(gap := carry + g), Cut(rest, tail, p, false, "", false).stmts, q);
      } else {
        var alone := Alone(ss, tail, first);
        if alone { AloneRest(ss, tail, first); }
        ThroughSealed(g);
        SealedConcat(carry, g);
        SealedConcat(carry, ThroughNewline(g));
        CutFree(m, rest, tail, p, q, false, carry + (if alone then ThroughNewline(g) else g), alone);
      }
    }
  }

  lemma EmptyFree(m: string)
    requires MarkerLike(m)
    ensures Free(m, "") && Sealed("")
  {
    NoHashFree(m, "");
  }

  // ----- Adding headers and access logs

  lemma HeaderWordsFree(m: string)
    requires MarkerLike(m)
    ensures Free(m, Phrase(REAL_IP_WORDS)) && Free(m, Phrase(FORWARDED_FOR_WORDS)) && Free(m, REDACTED_ACCESS_LOG)
  {
    hide Free, MarkerLike, Plain, Phrase;
    PlainWords();
    PhraseHasNoHash(REAL_IP_WORDS);
    PhraseHasNoHash(FORWARDED_FOR_WORDS);
    PhraseHasNoHash(ACCESS_LOG_WORDS);
    NoHashFree(m, Phrase(REAL_IP_WORDS));
    NoHashFree(m, Phrase(FORWARDED_FOR_WORDS));
    NoHashFree(m, REDACTED_ACCESS_LOG);
  }

  lemma {:induction false} PhraseHasNoHash(words: seq<string>)
    requires forall i :: 0 <= i < |words| ==> '#' !in words[i]
    ensures '#' !in Phrase(words)
  {
    if words != [] { PhraseHasNoHash(words[1..]); }
  }

  lemma NewlineThenFree(m: string, gap: string, indent: string)
    requires MarkerLike(m) && Sealed(gap) && '#' !in indent
    ensures Free(m, "\n" + indent) && (Free(m, gap + "\n" + indent) <==> Free(m, gap))
  {
    hide Free, MarkerLike, Sealed;
    NoHashFree(m, "\n" + indent);
    FreeConcat(m, gap, "\n" + indent);
    assert gap + ("\n" + indent) == gap + "\n" + indent;
  }

  lemma HeadedProxyFree(m: string, b: string, s: Stmt)
    requires MarkerLike(m) && Reads(s) && IsProxy(s)
    ensures FreeBut(m, HeadedProxy(b, s), AccessLog) <==> Free(m, s.gap) && Free(m, s.raw)
  {
    hide Run, LexesAs, Free, MarkerLike, Sealed, Phrase, Blank, HasNewline, Picked, IsProxy;
    HeaderGapsAreGaps(b, s);
    StmtSealed(s);
    var i := HeaderIndent(b, s);
    BlankHasNoHash(i);
    NewlineThenFree(m, s.gap, i);
    HeaderWordsFree(m);
    var x, y := HeaderStmt(HeaderGap(b, s), REAL_IP_WORDS, s), HeaderStmt("\n" + i, FORWARDED_FOR_WORDS, s);
    var z := s.(gap := "\n" + i);
    assert HeadedProxy(b, s) == [x] + ([y] + ([z] + []));
    ProxyIsNotPicked(s, []);
    PickedIgnoresGap(s, "\n" + i, AccessLog);
    FreeCons(m, x, [y] + ([z] + []), AccessLog);
    FreeCons(m, y, [z] + [], AccessLog);
    FreeCons(m, z, [], AccessLog);
  }

  lemma {:induction false} FreeButConcat(m: string, a: seq<Stmt>, b: seq<Stmt>, rule: Shape -> bool)
    ensures FreeBut(m, a + b, rule) <==> FreeBut(m, a, rule) && FreeBut(m, b, rule)
  {
    hide Free, Picked;
    if a == [] {
      assert a + b == b;
    } else {
      assert (a + b)[1..] == a[1..] + b;
      FreeButConcat(m, a[1..], b, rule);
    }
  }

  lemma {:induction false} AddHeadersFree(m: string, b: string, ss: seq<Stmt>)
    requires MarkerLike(m) && Readable(ss)
    ensures FreeBut(m, AddHeaders(b, ss), AccessLog) <==> FreeBut(m, ss, AccessLog)
    decreases |ss|
  {
    hide Reads, Free, MarkerLike, IsProxy, HeadedProxy, Picked;
    if ss != [] {
      var s, rest := ss[0], ss[1..];
      if IsProxy(s) {
        HeadedProxyFree(m, b, s);
        ProxyIsNotPicked(s, []);
        FreeButConcat(m, HeadedProxy(b, s), rest, AccessLog);
      } else {
        AddHeadersFree(m, b + s.gap + s.raw, rest);
        FreeCons(m, s, AddHeaders(b + s.gap + s.raw, rest), AccessLog);
      }
    }
  }

  /** The halves of a gap between which lines are put. */
  lemma LeadTrailFree(m: string, gap: string, indent: string)
    requires MarkerLike(m) && '#' !in indent
    ensures Free(m, Lead(gap) + indent) && Free(m, "\n" + Trail(gap)) <==> Free(m, gap)
  {
    hide Free, MarkerLike;
    GapSplit(gap);
    NoHashFree(m, "\n");
    NoHashFree(m, indent);
    SealedByEnd("\n");
    FreeConcat(m, "\n", Trail(gap));
    SealedByEnd(Lead(gap));
    FreeConcat(m, Lead(gap), indent);
    if HasNewline(gap) { FreeConcat(m, Lead(gap), Trail(gap)); }
  }

  lemma {:induction false} AddLogsFree(m: string, b: string, place: Option<Place>, ss: seq<Stmt>)
    requires MarkerLike(m) && Readable(ss) && (place.Some? ==> '#' !in place.value.indent) && (ss == [] ==> place.None?)
    ensures FreeBut(m, AddLines(b, place, ss, LOG_LINES), NOTHING) <==> FreeBut(m, ss, NOTHING)
    decreases |ss|
  {
    hide Reads, Free, MarkerLike, AddLines, LogStmt, Trail, Opening, Picked;
    if ss == [] {
      NoLines(b, place);
    } else {
      var s, rest := ss[0], ss[1..];
      var more := AddLines(b + s.gap + s.raw, Opening(b, s), rest, LOG_LINES);
      AddLogsFirstStmt(b, place, ss);
      OpeningHasNoHash(b, s);
      NothingPicked(s);
      if rest == [] {
        NoLines(b + s.gap + s.raw, Opening(b, s));
      } else {
        AddLogsFree(m, b + s.gap + s.raw, Opening(b, s), rest);
      }
      match place
      case None => FreeCons(m, s, more, NOTHING);
      case Some(p) =>
        var t, l := s.(gap := "\n" + Trail(s.gap)), LogStmt(p, s.gap);
        LeadTrailFree(m, s.gap, p.indent);
        HeaderWordsFree(m);
        LogStmtFacts(p, s.gap, []);
        NothingPicked(l);
        NothingPicked(t);
        FreeCons(m, l, [t] + more, NOTHING);
        FreeCons(m, t, more, NOTHING);
    }
  }

  lemma OpeningHasNoHash(b: string, s: Stmt)
    ensures Opening(b, s).Some? ==> '#' !in Opening(b, s).value.indent
  {
    if OpensServer(s) && s.raw != "" { IndentBlank(b, s); }
  }

  // ----- The whole rewrite

  /** No marker text stands in the document but in directives that a cutover drops. */
  ghost predicate Unmarked(m: string, d: Doc) { FreeDoc(m, d, Dropped(ProxyScope(Items(d.stmts)))) }

  /** The steps after the upstream is replaced. */
  lemma FinishedFree(m: string, d: Doc)
    requires MarkerLike(m) && DocOk(d)
    ensures Free(m, RenderDoc(Finished(d))) <==> Unmarked(m, d)
  {
    hide DocOk, FreeBut, Free, Readable, Items, AddHeaders, AddLines, Cut, MarkerLike, Sealed, RenderDoc, Either;
    FinishedMeaning(d);
    EmptyFree(m);
    DocReads(d);
    var scope := ProxyScope(Items(d.stmts));
    CutFree(m, d.stmts, d.tail, ClientIpIn(scope), AccessLog, true, "", false);
    var cleared := ClearHeaders(d);
    DocReads(cleared);
    AddHeadersFree(m, "", cleared.stmts);
    var headed := WithHeaders(cleared);
    DocReads(headed);
    CutFree(m, headed.stmts, headed.tail, AccessLog, NOTHING, true, "", false);
    LogsOrNothing(m, headed.stmts);
    var unlogged := ClearLogs(headed);
    DocReads(unlogged);
    AddLogsFree(m, "", None, unlogged.stmts);
    DocReads(Finished(d));
    FreeDocText(m, Finished(d));
  }

  lemma {:induction false} LogsOrNothing(m: string, ss: seq<Stmt>)
    ensures FreeBut(m, ss, Either(AccessLog, NOTHING)) <==> FreeBut(m, ss, AccessLog)
  {
    hide Free, Picked, Either;
    if ss != [] {
      PickedEither(ss[0], AccessLog, NOTHING);
      NothingPicked(ss[0]);
      LogsOrNothing(m, ss[1..]);
    }
  }

  /** The rewritten text holds marker text exactly when the original does outside the directives that the rewrite drops.
      */
  lemma RewriteMarks(m: string, d: Doc, p: Port)
    requires MarkerText(m) && DocOk(d)
    ensures Occurs(m, RenderDoc(Finished(Routed(d, p)))) <==> !Unmarked(m, d)
  {
    hide DocOk, Occurs, MarkerText, MarkerLike, Readable, Finished, RenderDoc, FreeBut, Items, Dropped, Reroute,
      RerouteItems;
    MarkerNotEmpty(m);
    RoutedMeaning(d, p);
    FinishedFree(m, Routed(d, p));
    RerouteShapes(Items(d.stmts), p);
    DocReads(d);
    RerouteFree(m, d.stmts, p, ProxyScope(Items(d.stmts)));
  }

  /** A rewritten text has no marker text where the original has none. */
  lemma RewriteFree(m: string, d: Doc, p: Port)
    requires MarkerText(m) && DocOk(d) && !Occurs(m, RenderDoc(d))
    ensures !Occurs(m, RenderDoc(Finished(Routed(d, p)))) && Unmarked(m, d)
  {
    hide DocOk, Occurs, MarkerText, MarkerLike, Readable, Finished, Routed, RenderDoc, FreeBut, Items, Dropped;
    MarkerNotEmpty(m);
    DocReads(d);
    FreeDocText(m, d);
    FreeButMore(m, d.stmts, Dropped(ProxyScope(Items(d.stmts))));
    RewriteMarks(m, d, p);
  }
}
