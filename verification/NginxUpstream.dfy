/** The Astra upstream: finding its proxy directive, and pointing it at the other port. */
module NginxUpstream {
  import opened PythonText
  import opened NginxText
  import opened NginxLexer
  import opened NginxParser
  import opened NginxDocument
  import opened NginxRemoval
  import opened NginxPhrases

  datatype Port = P3008 | P3009

  function Digits(p: Port): string { if p == P3008 then "3008" else "3009" }

  function Other(p: Port): Port { if p == P3008 then P3009 else P3008 }

  const UPSTREAM := "http://127.0.0.1:"

  function Upstream(p: Port): string { UPSTREAM + Digits(p) }

  /** A `proxy_pass` with this upstream as its only argument. */
  predicate ProxyTo(p: Port, d: Shape) { d.name == "proxy_pass" && d.arguments == [Upstream(p)] }

  predicate AstraProxy(d: Shape) { ProxyTo(P3008, d) || ProxyTo(P3009, d) }

  /** `ProxyTo` as a selection rule. */
  function ToPort(p: Port): Shape -> bool { (d: Shape) => ProxyTo(p, d) }

  lemma UpstreamFacts()
    ensures Upstream(P3008) != Upstream(P3009)
    ensures forall p :: |Upstream(p)| == |UPSTREAM| + 4 && Plain(Upstream(p)) && Upstream(p) != ""
    ensures forall p :: Upstream(p)[..|UPSTREAM| + 3] == UPSTREAM + "300"
    ensures forall p :: Upstream(p)[|UPSTREAM| + 3] == if p == P3008 then '8' else '9'
  {
    GraphicIsPlain(UPSTREAM);
    GraphicIsPlain("3008");
    GraphicIsPlain("3009");
    forall p
      ensures Upstream(p)[|UPSTREAM| + 3] == (if p == P3008 then '8' else '9') && Plain(Upstream(p))
      ensures Upstream(p)[..|UPSTREAM| + 3] == UPSTREAM + "300"
    {
      assert Upstream(p)[|UPSTREAM| + 3] == Digits(p)[3];
      assert Digits(p)[..3] == "300";
    }
  }

  // ----- The directives a rule selects in a document

  function CountPicked(ss: seq<Stmt>, p: Shape -> bool): nat {
    if ss == [] then 0 else (if Picked(ss[0], p) then 1 else 0) + CountPicked(ss[1..], p)
  }

  /** The offset of the first picked statement's gap, and the statement. */
  function FirstPicked(ss: seq<Stmt>, at: int, p: Shape -> bool): (int, Stmt)
    requires CountPicked(ss, p) > 0
  {
    if Picked(ss[0], p) then (at, ss[0]) else FirstPicked(ss[1..], at + |ss[0].gap| + |ss[0].raw|, p)
  }

  lemma {:induction false} SelectedOfDocument(ss: seq<Stmt>, at: int, p: Shape -> bool)
    requires Readable(ss)
    ensures var ds := Select(DocDirectives(ss, at), p); |ds| == CountPicked(ss, p)
    ensures CountPicked(ss, p) > 0 ==>
      var (here, s) := FirstPicked(ss, at, p);
      Reads(s) && Picked(s, p) && Select(DocDirectives(ss, at), p)[0] == DirectiveAt(s, here)
    decreases |ss|
  {
    hide Reads, DirectiveAt, Select, Picked, ShapeOf;
    if ss == [] {
      SelectNothing(at, p);
    } else {
      var rest := ss[1..];
      var here := at + |ss[0].gap| + |ss[0].raw|;
      SelectFirst(ss, at, p);
      SelectedOfDocument(rest, here, p);
    }
  }

  lemma SelectNothing(at: int, p: Shape -> bool)
    ensures Select(DocDirectives([], at), p) == []
  {}

  lemma SelectFirst(ss: seq<Stmt>, at: int, p: Shape -> bool)
    requires ss != [] && Readable(ss)
    ensures var more := Select(DocDirectives(ss[1..], at + |ss[0].gap| + |ss[0].raw|), p);
      Select(DocDirectives(ss, at), p) == if Picked(ss[0], p) then [DirectiveAt(ss[0], at)] + more else more
  {
    hide Reads, DirectiveAt, Select, ShapeOf;
    var s := ss[0];
    var ds := DocDirectives(ss[1..], at + |s.gap| + |s.raw|);
    if IsDirective(s) {
      ShapeOfDirective(s, at);
      SelectCons(DirectiveAt(s, at), ds, p);
    } else {
      assert DocDirectives(ss, at) == [] + ds == ds;
    }
  }

  // ----- Replacing the upstream

  predicate IsProxy(s: Stmt) { Picked(s, AstraProxy) }

  /** The text of a statement with its only argument replaced. */
  function ReplaceArgument(raw: string, value: string): string {
    var ts := Run(START, raw).tokens;
    if |ts| < 2 then raw else Upto(raw, ts[1].start) + value + From(raw, ts[1].end)
  }

  function PointTo(s: Stmt, p: Port): Stmt {
    if IsProxy(s) then s.(raw := ReplaceArgument(s.raw, Upstream(p)), words := [s.words[0], Upstream(p)]) else s
  }

  /** The document with its Astra proxies pointed at a port. */
  function Reroute(ss: seq<Stmt>, p: Port): seq<Stmt> {
    if ss == [] then [] else [PointTo(ss[0], p)] + Reroute(ss[1..], p)
  }

  lemma ProxyWords(s: Stmt)
    ensures IsProxy(s) <==>
      (&& s.term == ';' && |s.words| == 2 && s.name == "proxy_pass"
       && (s.words[1] == Upstream(P3008) || s.words[1] == Upstream(P3009)))
  {
    hide Upstream;
    if |s.words| == 2 {
      assert s.words[1..] == [s.words[1]];
    }
    if IsDirective(s) && |s.words| != 2 {
      assert |s.words[1..]| != 1;
    }
  }

  lemma BeginTokens(ts: seq<Token>, at: int, c: char)
    ensures Begin(ts, at, c) == Rebase(ts, 0, Begin([], at, c))
  {
    hide IsSpace;
    assert ts + Shift([], 0) == ts;
    var k := Token([c], at, at + 1);
    assert [] + [k] == [k];
    assert ts + Shift([k], 0) == ts + [k];
  }

  /** Only the text of the finished tokens depends on them. */
  lemma RunAfterDelimiter(ts: seq<Token>, at: int, c: char, more: string)
    ensures Run(Begin(ts, at, c), more) == Rebase(ts, 0, Run(Begin([], at, c), more))
  {
    hide Begin;
    BeginTokens(ts, at, c);
    RunRebase(ts, 0, Begin([], at, c), more);
  }

  /** Where an unquoted argument sits in a statement's text. */
  lemma ArgumentCut(raw: string, words: seq<string>)
    requires LexesAs(raw, words, ';') && |words| == 2 && words[1] != "" && Plain(words[1])
    ensures var ts := Run(START, raw).tokens; var k := ts[1];
      && |ts| == 3 && k.value == words[1] && 0 < k.start < k.end < |raw| && raw[k.start..k.end] == words[1]
      && ts[0].value == words[0] && ts[0].start == 0
      && Run(START, raw[..k.start]) == Lex([ts[0]], Gap, "", k.start)
      && IsDelimiter(raw[k.end])
      && k.end == k.start + |words[1]|
  {
    hide Step;
    var ts := Run(START, raw).tokens;
    TokenCut(raw, 1);
    RunSlices(raw);
    ValuesIndex(ts[..2]);
    assert ts[..1] == [ts[0]];
    assert ts[..2][0] == ts[0] && ts[..2][1] == ts[1];
    assert words[1][0] in words[1];
    assert raw[ts[1].start..ts[1].end] == words[1];
  }

  lemma ReplacedLexes(raw: string, words: seq<string>, value: string)
    requires LexesAs(raw, words, ';') && |words| == 2
    requires words[1] != "" && Plain(words[1]) && value != "" && Plain(value) && |value| == |words[1]|
    ensures LexesAs(ReplaceArgument(raw, value), [words[0], value], ';')
    ensures |ReplaceArgument(raw, value)| == |raw|
    ensures value == words[1] ==> ReplaceArgument(raw, value) == raw
    ensures |Run(START, raw).tokens| == 3
    ensures var k := Run(START, raw).tokens[1];
      Run(START, ReplaceArgument(raw, value)).tokens[1..2] == [Token(value, k.start, k.end)]
  {
    hide Run, Step, Begin, LexesAs, Plain;
    var ts := Run(START, raw).tokens;
    ArgumentCut(raw, words);
    var k := ts[1];
    var a, c, more := raw[..k.start], raw[k.end], raw[k.end + 1..];
    assert raw == a + words[1] + [c] + more;
    var made := a + value + [c] + more;
    assert ReplaceArgument(raw, value) == made by {
      assert [c] + more == raw[k.end..];
      assert a + value + ([c] + more) == made;
    }
    ReadThroughArgument(a, words[1], c, more, ts[0], k.start);
    ReadThroughArgument(a, value, c, more, ts[0], k.start);
    ReplacedShape(raw, words, value, made, k, Run(Begin([], k.end, c), more));
  }

  lemma ReadThroughArgument(a: string, w: string, c: char, more: string, t: Token, start: int)
    requires Run(START, a) == Lex([t], Gap, "", start) && w != "" && Plain(w) && IsDelimiter(c)
    ensures var end := start + |w|;
      Run(START, a + w + [c] + more) == Rebase([t] + [Token(w, start, end)], 0, Run(Begin([], end, c), more))
  {
    hide Begin, Rebase;
    RunConcat(START, a, w);
    RunPlain([t], start, w);
    RunSnoc(START, a + w, c);
    RunConcat(START, a + w + [c], more);
    RunAfterDelimiter([t] + [Token(w, start, start + |w|)], start + |w|, c, more);
    DelimiterEndsWord([t], w, start + |w|, c);
  }

  lemma DelimiterEndsWord(ts: seq<Token>, w: string, at: int, c: char)
    requires IsDelimiter(c)
    ensures Step(Lex(ts, Word(false), w, at), c) == Begin(ts + [Token(w, at - |w|, at)], at, c)
  {
    hide IsSpace, Begin;
    DelimiterIsNoEscape(c);
  }

  lemma DelimiterIsNoEscape(c: char)
    requires IsDelimiter(c)
    ensures c != '\\'
  {}

  lemma ReplacedShape(raw: string, words: seq<string>, value: string, made: string, k: Token, after: Lex)
    requires LexesAs(raw, words, ';') && |words| == 2 && value != "" && Plain(value) && |value| == |words[1]|
    requires var ts := Run(START, raw).tokens;
      && k == ts[1] && k.value == words[1] && ts[0].value == words[0] && ts[0].start == 0
      && 0 < k.start < k.end < |raw| && k.end == k.start + |value|
    requires made == raw[..k.start] + value + raw[k.end..]
    requires Run(START, raw) == Rebase([Run(START, raw).tokens[0]] + [k], 0, after)
    requires Run(START, made) == Rebase([Run(START, raw).tokens[0]] + [Token(value, k.start, k.end)], 0, after)
    ensures LexesAs(made, [words[0], value], ';') && |made| == |raw|
    ensures |Run(START, raw).tokens| == 3 && Run(START, made).tokens[1..2] == [Token(value, k.start, k.end)]
    ensures value == words[1] && raw[k.start..k.end] == words[1] ==> made == raw
  {
    hide Run, Plain;
    var ts, us := Run(START, raw).tokens, Run(START, made).tokens;
    assert us == [ts[0], Token(value, k.start, k.end), ts[2]] by {
      assert ts == [ts[0]] + [k] + Shift(after.tokens, 0);
      assert |Shift(after.tokens, 0)| == 1;
      assert Shift(after.tokens, 0)[0] == ts[2];
    }
    assert Values(us[..2]) == [words[0], value] by { ValuesIndex(us[..2]); }
    PlainIsNoMark(value);
    assert NoMarks(us[..2]) by {
      assert ts[..2][0] in ts[..2];
      forall x | x in us[..2] ensures !IsMark(x.value) {}
    }
    assert made[0] == raw[0] && made[|made| - 1] == raw[|raw| - 1];
    if value == words[1] && raw[k.start..k.end] == words[1] {
      assert made == raw;
    }
  }

  lemma PlainIsNoMark(w: string)
    requires w != "" && Plain(w)
    ensures !IsMark(w)
  {
    assert w[0] in w;
  }

  /** A proxy pointed elsewhere is still one statement; pointed where it points already, it is unchanged. */
  lemma PointToReads(s: Stmt, p: Port)
    requires Reads(s)
    ensures Reads(PointTo(s, p)) && |PointTo(s, p).raw| == |s.raw| && PointTo(s, p).gap == s.gap
    ensures IsProxy(PointTo(s, p)) <==> IsProxy(s)
    ensures IsProxy(s) && s.words[1] == Upstream(p) ==> PointTo(s, p) == s
  {
    hide Run, Plain, LexesAs, GapText, Upstream, IsProxy, ReplaceArgument;
    ProxyWords(s);
    ProxyWords(PointTo(s, p));
    UpstreamFacts();
    if IsProxy(s) {
      ReplacedLexes(s.raw, s.words, Upstream(p));
      if s.words[1] == Upstream(p) {
        assert s.words == [s.words[0], Upstream(p)];
      }
    }
  }

  lemma PointToFits(sc: Scope, s: Stmt, p: Port)
    requires Fits(sc, s)
    ensures Fits(sc, PointTo(s, p)) && Enter(sc, PointTo(s, p)) == Enter(sc, s)
    ensures PointTo(s, p).name == s.name && PointTo(s, p).chain == s.chain && PointTo(s, p).id == s.id
    ensures PointTo(s, p).term == s.term
  {
    hide Upstream, IsProxy, ReplaceArgument;
    ProxyWords(s);
  }

  lemma {:induction false} RerouteWellFormed(sc: Scope, ss: seq<Stmt>, tail: string, p: Port)
    requires WellFormed(sc, ss, tail)
    ensures WellFormed(sc, Reroute(ss, p), tail)
    ensures Readable(ss) && Readable(Reroute(ss, p))
    decreases |ss|
  {
    hide Reads, Fits, Enter, PointTo;
    if ss != [] {
      PointToReads(ss[0], p);
      PointToFits(sc, ss[0], p);
      RerouteWellFormed(Enter(sc, ss[0]), ss[1..], tail, p);
      assert Reroute(ss, p)[1..] == Reroute(ss[1..], p);
    }
  }

  lemma {:induction false} RerouteNothing(ss: seq<Stmt>, p: Port)
    requires Readable(ss) && CountPicked(ss, ToPort(Other(p))) == 0
    ensures Reroute(ss, p) == ss
  {
    hide Reads, PointTo, ProxyTo, Upstream;
    if ss != [] {
      var s := ss[0];
      RerouteNothing(ss[1..], p);
      PointToReads(s, p);
      ProxyEither(s, p);
      assert ss == [s] + ss[1..];
      if !IsProxy(s) { assert PointTo(s, p) == s by { NotProxyKept(s, p); } }
    }
  }

  lemma NotProxyKept(s: Stmt, p: Port)
    requires !IsProxy(s)
    ensures PointTo(s, p) == s
  {}

  lemma ProxyEither(s: Stmt, p: Port)
    ensures IsProxy(s) <==> Picked(s, ToPort(p)) || Picked(s, ToPort(Other(p)))
    ensures Picked(s, ToPort(p)) ==> |s.words| == 2 && s.words[1] == Upstream(p)
    ensures Picked(s, ToPort(p)) ==> !Picked(s, ToPort(Other(p)))
  {
    hide Upstream;
    UpstreamFacts();
  }

  // ----- The replacement in the text

  /** The text with a directive's first argument replaced. */
  function SwapArgument(text: string, d: Directive, value: string): string {
    if d.arguments == [] then text else Upto(text, d.arguments[0].start) + value + From(text, d.arguments[0].end)
  }

  lemma ArgumentAt(s: Stmt, at: int)
    requires Reads(s) && IsProxy(s)
    ensures |Run(START, s.raw).tokens| == 3
    ensures var ks, k := DirectiveAt(s, at).arguments, Run(START, s.raw).tokens[1];
      && ks != [] && ks[0] == Token(k.value, at + |s.gap| + k.start, at + |s.gap| + k.end)
  {
    hide Run, GapText, Upstream, Plain, IsProxy;
    ProxyWords(s);
    assert StmtTokens(s, at)[1..2][0] == StmtTokens(s, at)[1];
  }

  lemma ReplacedParts(s: Stmt, p: Port)
    requires Reads(s) && IsProxy(s)
    ensures var k := Run(START, s.raw).tokens[1];
      && 0 < k.start < k.end < |s.raw|
      && PointTo(s, p).raw == s.raw[..k.start] + Upstream(p) + s.raw[k.end..]
  {
    hide Run, GapText, Upstream, Plain, Upto, From, IsProxy;
    ProxyWords(s);
    UpstreamFacts();
    ArgumentCut(s.raw, s.words);
    var k := Run(START, s.raw).tokens[1];
    var x, y, z := s.raw[..k.start], s.raw[k.start..k.end], s.raw[k.end..];
    assert s.raw == x + y + z;
    SliceOfConcat(x, y, z);
  }

  lemma SwapInStmt(b: string, s: Stmt, after: string, p: Port)
    requires Reads(s) && IsProxy(s)
    ensures DirectiveAt(s, |b|).arguments != []
    ensures SwapArgument(b + s.gap + s.raw + after, DirectiveAt(s, |b|), Upstream(p))
         == b + s.gap + PointTo(s, p).raw + after
  {
    hide Run, Reads, Upstream, Upto, From, IsProxy, PointTo, DirectiveAt;
    ArgumentAt(s, |b|);
    ReplacedParts(s, p);
    var k := Run(START, s.raw).tokens[1];
    SwapPieces(b + s.gap, s.raw, after, k.start, k.end, Upstream(p));
  }

  lemma SwapPieces(head: string, raw: string, after: string, i: int, j: int, value: string)
    requires 0 <= i <= j <= |raw|
    ensures var text := head + raw + after;
      Upto(text, |head| + i) + value + From(text, |head| + j) == head + (raw[..i] + value + raw[j..]) + after
  {
    hide Upto, From;
    var x, y, z := raw[..i], raw[i..j], raw[j..];
    assert raw == x + y + z;
    assert head + raw + after == (head + x) + y + (z + after);
    SliceOfConcat(head + x, y, z + after);
    assert head + x + value + (z + after) == head + (x + value + z) + after;
  }

  /** Pointing the only old upstream at the other port, in the text and in the document. */
  lemma {:induction false} SwapIsReroute(b: string, ss: seq<Stmt>, tail: string, p: Port)
    requires Readable(ss)
    requires CountPicked(ss, ToPort(Other(p))) == 1 && CountPicked(ss, ToPort(p)) == 0
    ensures var (at, s) := FirstPicked(ss, |b|, ToPort(Other(p)));
      && Reads(s) && IsProxy(s) && DirectiveAt(s, at).arguments != []
      && SwapArgument(b + (Render(ss) + tail), DirectiveAt(s, at), Upstream(p)) == b + (Render(Reroute(ss, p)) + tail)
    decreases |ss|
  {
    hide Reads, PointTo, Upstream, DirectiveAt, SwapArgument, Picked, IsProxy, ToPort;
    var s, rest := ss[0], ss[1..];
    var after := Render(rest) + tail;
    assert ss == [s] + rest;
    TextAround(b, s, rest, tail);
    ProxyEither(s, p);
    PointToReads(s, p);
    RerouteFirst(s, rest, tail, p);
    if Picked(s, ToPort(Other(p))) {
      RerouteNothing(rest, p);
      SwapInStmt(b, s, after, p);
      assert b + (s.gap + PointTo(s, p).raw + after) == b + s.gap + PointTo(s, p).raw + after;
    } else {
      var next := b + s.gap + s.raw;
      assert PointTo(s, p) == s by { NotProxyKept(s, p); }
      SwapIsReroute(next, rest, tail, p);
      assert next + (Render(rest) + tail) == b + (Render(ss) + tail);
      assert next + (Render(Reroute(rest, p)) + tail) == b + (s.gap + s.raw + (Render(Reroute(rest, p)) + tail));
    }
  }

  lemma RerouteFirst(s: Stmt, rest: seq<Stmt>, tail: string, p: Port)
    requires Reads(s)
    ensures Render(Reroute([s] + rest, p)) + tail == s.gap + PointTo(s, p).raw + (Render(Reroute(rest, p)) + tail)
  {
    hide Reads, PointTo;
    PointToReads(s, p);
    assert ([s] + rest)[1..] == rest;
    assert ([PointTo(s, p)] + Reroute(rest, p))[1..] == Reroute(rest, p);
  }
}
