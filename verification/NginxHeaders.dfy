/** The trusted client-IP headers: both old ones leave the proxy's scope, the two canonical ones go just before it. */
module NginxHeaders {
  import opened PythonText
  import opened NginxText
  import opened NginxLexer
  import opened NginxParser
  import opened NginxDocument
  import opened NginxGaps
  import opened NginxRemoval
  import opened NginxMeaning
  import opened NginxPhrases
  import opened NginxInsertion
  import opened NginxUpstream

  /** A client-IP header directive, whatever its value. */
  predicate SetsClientIp(d: Shape) {
    && d.name == PROXY_SET_HEADER && d.arguments != []
    && (Lower(d.arguments[0]) == "x-real-ip" || Lower(d.arguments[0]) == "x-forwarded-for")
  }

  /** `SetsClientIp` in one scope, as a selection rule. */
  function ClientIpIn(blocks: seq<nat>): Shape -> bool { (d: Shape) => SetsClientIp(d) && d.blocks == blocks }

  /** `_client_ip_header_insertion`. */
  function HeaderInsertion(text: string, proxy: Directive): Insertion {
    var prefix := Mid(text, LineStart(text, proxy.start), proxy.start);
    if Blank(prefix) then
      Insertion(proxy.start, Phrase(REAL_IP_WORDS) + "\n" + prefix + Phrase(FORWARDED_FOR_WORDS) + "\n" + prefix)
    else
      var indent := Margin(prefix) + INDENT;
      Insertion(proxy.start, "\n" + indent + Phrase(REAL_IP_WORDS) + "\n" + indent + Phrase(FORWARDED_FOR_WORDS)
                             + "\n" + indent)
  }

  function AstraProxyOf(parsed: ParsedConfig): Result<Directive> {
    var matches := Select(parsed.directives, AstraProxy);
    if |matches| != 1 then Err(ProxyScopeCount) else Ok(matches[0])
  }

  function InsertAt(text: string, i: Insertion): string { Upto(text, i.offset) + i.content + From(text, i.offset) }

  /** `_install_client_ip_proxy_headers`. */
  function InstallHeaders(text: string): Result<string> {
    var parsed :- ParseNginx(text);
    var proxy :- AstraProxyOf(parsed);
    var cleared := RemoveDirectives(text, Select(parsed.directives, ClientIpIn(proxy.blocks)));
    var reparsed :- ParseNginx(cleared);
    var target :- AstraProxyOf(reparsed);
    Ok(InsertAt(cleared, HeaderInsertion(cleared, target)))
  }

  // ----- The same on documents

  function HeaderStmt(gap: string, words: seq<string>, s: Stmt): Stmt {
    Stmt(gap, Phrase(words), words, ';', PROXY_SET_HEADER, s.chain, 0)
  }

  function HeaderIndent(before: string, s: Stmt): string {
    if before == "" || HasNewline(s.gap) then LastLine(s.gap) else Margin(LastLine(before + s.gap)) + INDENT
  }

  /** The gap of the first header. */
  function HeaderGap(before: string, s: Stmt): string {
    if before == "" || HasNewline(s.gap) then s.gap else s.gap + "\n" + HeaderIndent(before, s)
  }

  function HeadedProxy(before: string, s: Stmt): seq<Stmt> {
    var indent := HeaderIndent(before, s);
    [HeaderStmt(HeaderGap(before, s), REAL_IP_WORDS, s),
     HeaderStmt("\n" + indent, FORWARDED_FOR_WORDS, s),
     s.(gap := "\n" + indent)]
  }

  /** The document with the two headers before its first Astra proxy. */
  function AddHeaders(before: string, ss: seq<Stmt>): seq<Stmt>
    decreases |ss|
  {
    if ss == [] then []
    else if IsProxy(ss[0]) then HeadedProxy(before, ss[0]) + ss[1..]
    else [ss[0]] + AddHeaders(before + ss[0].gap + ss[0].raw, ss[1..])
  }

  lemma HeadedProxyRender(b: string, s: Stmt)
    ensures var i := HeaderIndent(b, s);
      Render(HeadedProxy(b, s)) == HeaderGap(b, s) + Phrase(REAL_IP_WORDS) + "\n" + i + Phrase(FORWARDED_FOR_WORDS)
                                   + "\n" + i + s.raw
  {
    hide Phrase, HeaderGap, HeaderIndent;
    var i := HeaderIndent(b, s);
    var x, y := HeaderStmt(HeaderGap(b, s), REAL_IP_WORDS, s), HeaderStmt("\n" + i, FORWARDED_FOR_WORDS, s);
    var z := s.(gap := "\n" + i);
    assert HeadedProxy(b, s) == [x] + ([y] + [z]);
    RenderConcat([x], [y] + [z]);
    RenderConcat([y], [z]);
    RenderOneStmt(x);
    RenderOneStmt(y);
    RenderOneStmt(z);
    assert x.gap + x.raw + (y.gap + y.raw + (z.gap + z.raw)) == x.gap + x.raw + "\n" + i + y.raw + "\n" + i + z.raw;
  }

  /** The insertion before a proxy, in the text and in the document. */
  lemma InsertBeforeProxy(b: string, s: Stmt, after: string)
    requires EndsStmt(b) && Reads(s) && IsProxy(s)
    ensures var text := b + s.gap + s.raw + after;
      InsertAt(text, HeaderInsertion(text, DirectiveAt(s, |b|))) == b + Render(HeadedProxy(b, s)) + after
  {
    hide Run, LexesAs, GapText, IsProxy, Phrase, DirectiveAt, EndsStmt, Blank, HasNewline, Mid, Margin, LastLine,
      Render, HeadedProxy, HeaderIndent, HeaderGap;
    assert s.words != [] by { ProxyWords(s); }
    DirectiveOffsets(s, |b|);
    var before := b + s.gap;
    var text := b + s.gap + s.raw + after;
    SliceOfConcat(before, s.raw, after);
    assert text[..|before|] == before;
    MidLast(text, before);
    BeforeBlank(b, s.gap);
    HeadedProxyRender(b, s);
    InsertionParts(b, s, after, LastLine(before));
  }

  lemma InsertionParts(b: string, s: Stmt, after: string, prefix: string)
    requires prefix == LastLine(b + s.gap)
    requires b == "" || HasNewline(s.gap) ==> prefix == LastLine(s.gap)
    ensures var i, j := HeaderIndent(b, s), Margin(prefix) + INDENT;
      var x, y := Phrase(REAL_IP_WORDS), Phrase(FORWARDED_FOR_WORDS);
      && (b == "" || HasNewline(s.gap) ==>
            b + s.gap + (x + "\n" + prefix + y + "\n" + prefix) + (s.raw + after)
              == b + (HeaderGap(b, s) + x + "\n" + i + y + "\n" + i + s.raw) + after)
      && (!(b == "" || HasNewline(s.gap)) ==>
            b + s.gap + ("\n" + j + x + "\n" + j + y + "\n" + j) + (s.raw + after)
              == b + (HeaderGap(b, s) + x + "\n" + i + y + "\n" + i + s.raw) + after)
  {
    hide Phrase, HasNewline, Margin, LastLine;
    var x, y := Phrase(REAL_IP_WORDS), Phrase(FORWARDED_FOR_WORDS);
    if b == "" || HasNewline(s.gap) {
      assert b + s.gap + (x + "\n" + prefix + y + "\n" + prefix) + (s.raw + after)
          == b + (s.gap + x + "\n" + prefix + y + "\n" + prefix + s.raw) + after;
    } else {
      var j := Margin(prefix) + INDENT;
      assert b + s.gap + ("\n" + j + x + "\n" + j + y + "\n" + j) + (s.raw + after)
          == b + (s.gap + "\n" + j + x + "\n" + j + y + "\n" + j + s.raw) + after;
    }
  }

  /** Inserting the headers before the first proxy of a document. */
  lemma {:induction false} InsertIsAddHeaders(b: string, ss: seq<Stmt>, tail: string)
    requires EndsStmt(b) && Readable(ss) && CountPicked(ss, AstraProxy) > 0
    ensures var (at, s) := FirstPicked(ss, |b|, AstraProxy); var text := b + (Render(ss) + tail);
      && Reads(s) && Picked(s, AstraProxy)
      && InsertAt(text, HeaderInsertion(text, DirectiveAt(s, at))) == b + (Render(AddHeaders(b, ss)) + tail)
    decreases |ss|
  {
    hide Reads, EndsStmt, Picked, DirectiveAt, HeaderInsertion, InsertAt, HeadedProxy;
    var s, rest := ss[0], ss[1..];
    assert ss == [s] + rest;
    TextAround(b, s, rest, tail);
    if Picked(s, AstraProxy) {
      InsertBeforeProxy(b, s, Render(rest) + tail);
      RenderConcat(HeadedProxy(b, s), rest);
      assert b + Render(HeadedProxy(b, s)) + (Render(rest) + tail) == b + (Render(HeadedProxy(b, s)) + Render(rest) + tail);
    } else {
      var next := b + s.gap + s.raw;
      NextEndsStmt(b, s);
      InsertIsAddHeaders(next, rest, tail);
      assert next + (Render(rest) + tail) == b + (Render(ss) + tail);
      var more := AddHeaders(next, rest);
      RenderConcat([s], more);
      RenderOneStmt(s);
      assert next + (Render(more) + tail) == b + (s.gap + s.raw + Render(more) + tail);
    }
  }

  // ----- Meaning

  function HeaderItem(words: seq<string>, chain: seq<nat>): Item { Item(words, ';', PROXY_SET_HEADER, chain, 0) }

  predicate ProxyItem(i: Item) { Chosen(i, AstraProxy) }

  /** The two canonical headers just before the first Astra proxy, in its scope. */
  function AddHeaderItems(items: seq<Item>): seq<Item> {
    if items == [] then []
    else if ProxyItem(items[0]) then
      [HeaderItem(REAL_IP_WORDS, items[0].chain), HeaderItem(FORWARDED_FOR_WORDS, items[0].chain)] + items
    else [items[0]] + AddHeaderItems(items[1..])
  }

  lemma HeaderIndentIsBlank(b: string, s: Stmt)
    requires Reads(s)
    ensures Blank(HeaderIndent(b, s)) && !HasNewline(HeaderIndent(b, s))
  {
    hide Run, GapText, LexesAs, IsSpace, LastLine, ThroughNewline, Margin;
    GapLines(s.gap);
    LastSplit(s.gap);
    var line := LastLine(b + s.gap);
    MarginFacts(line);
    BlankConcat(Margin(line), INDENT);
    SpaceIsSpace();
  }

  lemma HeaderGapsAreGaps(b: string, s: Stmt)
    requires Reads(s)
    ensures GapText(HeaderGap(b, s)) && GapText("\n" + HeaderIndent(b, s))
    ensures Blank(HeaderIndent(b, s)) && !HasNewline(HeaderIndent(b, s))
  {
    hide Run, GapText, LexesAs, IsSpace, HeaderIndent, HasNewline;
    HeaderIndentIsBlank(b, s);
    SpaceIsSpace();
    var i := HeaderIndent(b, s);
    BlankConcat("\n", i);
    BlankIsGap("\n" + i);
    GapConcat(s.gap, "\n" + i);
    assert s.gap + ("\n" + i) == s.gap + "\n" + i;
  }

  lemma SpaceIsSpace()
    ensures IsSpace(' ') && IsSpace('\n')
  {}

  /** Where a proxy fits, a header does. */
  lemma HeaderFits(sc: Scope, s: Stmt, gap: string, words: seq<string>)
    requires Fits(sc, s) && IsProxy(s) && GapText(gap)
    requires words == REAL_IP_WORDS || words == FORWARDED_FOR_WORDS
    ensures var h := HeaderStmt(gap, words, s); Reads(h) && Fits(sc, h) && Enter(sc, h) == sc
    ensures View(HeaderStmt(gap, words, s)) == HeaderItem(words, s.chain)
    ensures Enter(sc, s) == sc
  {
    hide LexesAs, GapText, Phrase, Upstream;
    HeadersLex();
    ProxyWords(s);
    NoQuoteInHeader();
  }

  lemma NoQuoteInHeader()
    ensures DirectiveName(PROXY_SET_HEADER) == Ok(PROXY_SET_HEADER) && "proxy_pass" != MAP_ENTRY_NAME
  {
    assert "proxy_pass"[0] != MAP_ENTRY_NAME[0];
  }

  lemma HeadedProxyMeaning(sc: Scope, b: string, s: Stmt, rest: seq<Stmt>, tail: string)
    requires Reads(s) && Fits(sc, s) && IsProxy(s) && WellFormed(Enter(sc, s), rest, tail)
    ensures WellFormed(sc, HeadedProxy(b, s) + rest, tail)
    ensures Items(HeadedProxy(b, s) + rest)
         == [HeaderItem(REAL_IP_WORDS, s.chain), HeaderItem(FORWARDED_FOR_WORDS, s.chain)] + ([View(s)] + Items(rest))
  {
    hide Reads, Fits, Enter, LexesAs, GapText, Phrase, IsProxy, HeaderIndent, HeaderGap, HeaderStmt, View, WellFormed,
      Items;
    var i := HeaderIndent(b, s);
    HeaderGapsAreGaps(b, s);
    HeaderFits(sc, s, HeaderGap(b, s), REAL_IP_WORDS);
    HeaderFits(sc, s, "\n" + i, FORWARDED_FOR_WORDS);
    KeptStmtFits(sc, s, "\n" + i);
    var x, y := HeaderStmt(HeaderGap(b, s), REAL_IP_WORDS, s), HeaderStmt("\n" + i, FORWARDED_FOR_WORDS, s);
    var z := s.(gap := "\n" + i);
    assert HeadedProxy(b, s) + rest == [x] + ([y] + ([z] + rest));
    WellFormedCons(sc, z, rest, tail);
    WellFormedCons(sc, y, [z] + rest, tail);
    WellFormedCons(sc, x, [y] + ([z] + rest), tail);
    ItemsFirst(z, rest);
    ItemsFirst(y, [z] + rest);
    ItemsFirst(x, [y] + ([z] + rest));
    assert [View(x)] + ([View(y)] + ([View(z)] + Items(rest))) == [View(x), View(y)] + ([View(z)] + Items(rest));
  }

  lemma {:induction false} AddHeadersMeaning(sc: Scope, b: string, ss: seq<Stmt>, tail: string)
    requires WellFormed(sc, ss, tail)
    ensures WellFormed(sc, AddHeaders(b, ss), tail)
    ensures Items(AddHeaders(b, ss)) == AddHeaderItems(Items(ss))
    decreases |ss|
  {
    hide Reads, Fits, Enter, TailOk, HeadedProxy, IsProxy, ProxyItem, HeaderItem;
    if ss != [] {
      var s, rest := ss[0], ss[1..];
      assert Items(ss)[0] == View(s) && Items(ss)[1..] == Items(rest);
      ProxyItemIs(s);
      if IsProxy(s) {
        HeadedProxyMeaning(sc, b, s, rest, tail);
      } else {
        AddHeadersMeaning(Enter(sc, s), b + s.gap + s.raw, rest, tail);
        assert ([s] + AddHeaders(b + s.gap + s.raw, rest))[1..] == AddHeaders(b + s.gap + s.raw, rest);
      }
    }
  }

  lemma ProxyItemIs(s: Stmt)
    ensures ProxyItem(View(s)) <==> IsProxy(s)
  {
    ChosenIsPicked(s, AstraProxy);
  }
}
