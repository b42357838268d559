module NginxDocument {

  // A configuration text cut into statements: every parsed text is such a document, and every such document parses to
  // its own statements. The surgery on texts is understood as list operations on documents.

  import opened PythonText
  import opened NginxText
  import opened NginxLexer
  import opened NginxParser

  /** `gap` is the whitespace and comments before the statement, `raw` its text from first token to terminator. */
  datatype Stmt = Stmt(gap: string, raw: string, words: seq<string>, term: char,
                       name: string, chain: seq<nat>, id: nat)

  datatype Scope = Scope(stack: seq<Frame>, count: nat)

  const OUTSIDE := Scope([], 0)

  function Render(ss: seq<Stmt>): string {
    if ss == [] then "" else ss[0].gap + ss[0].raw + Render(ss[1..])
  }

  predicate NoMarks(tokens: seq<Token>) { forall k <- tokens :: !IsMark(k.value) }

  /** `raw` is exactly one statement with these words and this terminator. */
  predicate LexesAs(raw: string, words: seq<string>, term: char) {
    var s := Run(START, raw);
    && raw != "" && IsPunct(term) && raw[|raw| - 1] == term && !IsSpace(raw[0]) && raw[0] != '#'
    && s.mode == Gap
    && |s.tokens| == |words| + 1
    && Values(s.tokens[..|words|]) == words
    && NoMarks(s.tokens[..|words|])
    && s.tokens[|words|] == Token([term], |raw| - 1, |raw|)
    && s.tokens[0].start == 0
  }

  predicate Reads(s: Stmt) { GapText(s.gap) && LexesAs(s.raw, s.words, s.term) }

  predicate Readable(ss: seq<Stmt>) { ss == [] || (Reads(ss[0]) && Readable(ss[1..])) }

  predicate Fits(sc: Scope, s: Stmt) {
    && s.chain == Ids(sc.stack)
    && if s.term == ';' then s.words != [] && StatementName(s.words[0], sc.stack) == Ok(s.name) && s.id == 0
       else if s.term == '{' then s.words != [] && BlockName(s.words[0], sc.stack) == Ok(s.name) && s.id == sc.count + 1
       else s.words == [] && sc.stack != [] && s.name == "}" && s.id == 0
  }

  function Enter(sc: Scope, s: Stmt): Scope {
    if s.term == '{' then Scope(sc.stack + [Frame(s.id, s.name)], s.id)
    else if s.term == '}' && sc.stack != [] then Scope(sc.stack[..|sc.stack| - 1], sc.count)
    else sc
  }

  predicate TailOk(tail: string) {
    var s := Run(START, tail);
    Finish(s).Ok? && NoMarks(Finish(s).value) && !SecurityRelevant(Finish(s).value)
  }

  predicate WellFormed(sc: Scope, ss: seq<Stmt>, tail: string)
    decreases |ss|
  {
    if ss == [] then sc.stack == [] && TailOk(tail)
    else Reads(ss[0]) && Fits(sc, ss[0]) && WellFormed(Enter(sc, ss[0]), ss[1..], tail)
  }

  /** The statement's tokens when it is placed at offset `at`. */
  function StmtTokens(s: Stmt, at: int): seq<Token> { Shift(Run(START, s.raw).tokens, at + |s.gap|) }

  function NodeOf(s: Stmt, at: int): Node
    requires Reads(s)
  {
    var ts := StmtTokens(s, at);
    Node(ts[..|s.words|], ts[|s.words|], s.name, s.chain, s.id)
  }

  function NodesOf(ss: seq<Stmt>, at: int): seq<Node>
    requires Readable(ss)
  {
    if ss == [] then [] else [NodeOf(ss[0], at)] + NodesOf(ss[1..], at + |ss[0].gap| + |ss[0].raw|)
  }

  function TokensOf(ss: seq<Stmt>, at: int): seq<Token> {
    if ss == [] then [] else StmtTokens(ss[0], at) + TokensOf(ss[1..], at + |ss[0].gap| + |ss[0].raw|)
  }

  lemma {:induction false} AllRead(sc: Scope, ss: seq<Stmt>, tail: string)
    requires WellFormed(sc, ss, tail)
    ensures Readable(ss)
    ensures TailOk(tail)
    decreases |ss|
  {
    if ss != [] { AllRead(Enter(sc, ss[0]), ss[1..], tail); }
  }

  lemma {:induction false} RenderConcat(a: seq<Stmt>, b: seq<Stmt>)
    ensures Render(a + b) == Render(a) + Render(b)
  {
    if a == [] {
      assert a + b == b;
    } else {
      assert (a + b)[1..] == a[1..] + b;
      RenderConcat(a[1..], b);
    }
  }

  lemma Assoc<T>(a: seq<T>, b: seq<T>, c: seq<T>)
    ensures a + b + c == a + (b + c)
  {}

  // ----- Documents parse to their own statements

  lemma LexStmt(ts: seq<Token>, s: Stmt, at: int)
    requires Reads(s)
    ensures Run(Lex(ts, Gap, "", at), s.gap + s.raw)
         == Lex(ts + StmtTokens(s, at), Gap, "", at + |s.gap| + |s.raw|)
  {
    hide Step;
    var a := Lex(ts, Gap, "", at);
    RunConcat(a, s.gap, s.raw);
    RebaseStart(ts, at);
    RunRebase(ts, at, START, s.gap);
    RunAt(START, s.gap);
    GapHasNoWord(START, s.gap);
    assert ts + Shift([], at) == ts;
    RebaseStart(ts, at + |s.gap|);
    RunRebase(ts, at + |s.gap|, START, s.raw);
    RunAt(START, s.raw);
    GapHasNoWord(START, s.raw);
  }

  lemma {:induction false} LexRender(ts: seq<Token>, ss: seq<Stmt>, at: int)
    requires Readable(ss)
    ensures Run(Lex(ts, Gap, "", at), Render(ss)) == Lex(ts + TokensOf(ss, at), Gap, "", at + |Render(ss)|)
    decreases |ss|
  {
    hide Step, Reads;
    if ss == [] {
      assert Render(ss) == "" && TokensOf(ss, at) == [] && ts + [] == ts;
    } else {
      hide Run, StmtTokens;
      var s, here := ss[0], at + |ss[0].gap| + |ss[0].raw|;
      RunConcat(Lex(ts, Gap, "", at), s.gap + s.raw, Render(ss[1..]));
      LexStmt(ts, s, at);
      LexRender(ts + StmtTokens(s, at), ss[1..], here);
      assert Run(Lex(ts, Gap, "", at), Render(ss))
          == Lex(ts + StmtTokens(s, at) + TokensOf(ss[1..], here), Gap, "", here + |Render(ss[1..])|);
      Assoc(ts, StmtTokens(s, at), TokensOf(ss[1..], here));
    }
  }

  lemma LexDocument(ss: seq<Stmt>, tail: string)
    requires Readable(ss)
    ensures var f := Finish(Run(START, tail)); var r := Tokens(Render(ss) + tail);
      && (r.Ok? <==> f.Ok?)
      && (f.Ok? ==> r.value == TokensOf(ss, 0) + Shift(f.value, |Render(ss)|))
  {
    hide Step, Reads;
    LexRender([], ss, 0);
    assert [] + TokensOf(ss, 0) == TokensOf(ss, 0);
    RunSplice(Render(ss), tail);
    FinishRebase(TokensOf(ss, 0), |Render(ss)|, Run(START, tail));
  }

  lemma SplitStmt(s: Stmt, at: int)
    requires Reads(s)
    ensures var ts, n := StmtTokens(s, at), |s.words|;
      && |ts| == n + 1 && ts == ts[..n] + [ts[n]] && ts[n].value == [s.term] && IsPunct(s.term)
      && (forall k <- ts[..n] :: !IsMark(k.value))
      && (n > 0 ==> ts[0].value == s.words[0])
  {
    hide Run;
    var ts, n, own := StmtTokens(s, at), |s.words|, Run(START, s.raw).tokens;
    ValuesIndex(own[..n]);
    forall k | k in ts[..n] ensures !IsMark(k.value) {
      var i :| 0 <= i < n && ts[i] == k;
      assert own[i] in own[..n];
    }
  }

  /** Reading the terminator succeeds exactly when the statement fits. */
  lemma ReadTerm(p: Parse, s: Stmt, k: Token)
    requires k.value == [s.term] && IsPunct(s.term) && |p.pending| == |s.words|
    requires s.words != [] ==> p.pending[0].value == s.words[0]
    ensures Fits(Scope(p.stack, p.count), s) ==>
      var sc := Enter(Scope(p.stack, p.count), s);
      Read(p, k) == Ok(Parse(p.nodes + [Node(p.pending, k, s.name, s.chain, s.id)], sc.stack, sc.count, []))
    ensures Read(p, k).Ok? ==> Fits(Scope(p.stack, p.count), Annotate(Scope(p.stack, p.count), s))
  {
    hide StatementName, BlockName, Ids;
    MarkOf(s.term);
    if s.term == ';' {
    } else if s.term == '{' {
    } else {
    }
  }

  /** Reading one statement succeeds exactly when it fits. */
  lemma ReadStmt(p: Parse, s: Stmt, at: int)
    requires p.pending == [] && Reads(s)
    ensures Fits(Scope(p.stack, p.count), s) ==>
      var sc := Enter(Scope(p.stack, p.count), s);
      ReadAll(Ok(p), StmtTokens(s, at)) == Ok(Parse(p.nodes + [NodeOf(s, at)], sc.stack, sc.count, []))
    ensures ReadAll(Ok(p), StmtTokens(s, at)).Ok? ==> Fits(Scope(p.stack, p.count), Annotate(Scope(p.stack, p.count), s))
  {
    hide Run, Read, Fits, Annotate, Enter, LexesAs, GapText, StmtTokens;
    var ts := StmtTokens(s, at);
    var n := |s.words|;
    SplitStmt(s, at);
    ReadWords(p, ts[..n]);
    ReadOnto(Ok(p), ts[..n], ts[n]);
    assert [] + ts[..n] == ts[..n];
    ReadTerm(p.(pending := ts[..n]), s, ts[n]);
  }

  lemma MarkOf(c: char)
    ensures [c] == ";" <==> c == ';'
    ensures [c] == "{" <==> c == '{'
    ensures [c] == "}" <==> c == '}'
  {
    assert [c][0] == c && ";"[0] == ';' && "{"[0] == '{' && "}"[0] == '}';
  }

  /** The statement with the name, block chain and identifier that the scope gives it. */
  function Annotate(sc: Scope, s: Stmt): Stmt {
    var named := s.(chain := Ids(sc.stack));
    if s.words == [] then named.(name := "}", id := 0)
    else if s.term == '{' then
      var r := BlockName(s.words[0], sc.stack);
      named.(name := if r.Ok? then r.value else "", id := sc.count + 1)
    else
      var r := StatementName(s.words[0], sc.stack);
      named.(name := if r.Ok? then r.value else "", id := 0)
  }

  lemma {:induction false} ReadDocument(p: Parse, ss: seq<Stmt>, tail: string, at: int)
    requires p.pending == [] && WellFormed(Scope(p.stack, p.count), ss, tail)
    requires Readable(ss)
    ensures var r := ReadAll(Ok(p), TokensOf(ss, at));
      && r.Ok? && r.value.nodes == p.nodes + NodesOf(ss, at) && r.value.stack == [] && r.value.pending == []
    decreases |ss|
  {
    hide Reads, Fits, StmtTokens, NodeOf, Read;
    if ss == [] {
      assert p.nodes + [] == p.nodes;
    } else {
      hide ReadAll, Enter, Annotate;
      var s, here := ss[0], at + |ss[0].gap| + |ss[0].raw|;
      ReadConcat(Ok(p), StmtTokens(s, at), TokensOf(ss[1..], here));
      ReadStmt(p, s, at);
      var q := ReadAll(Ok(p), StmtTokens(s, at)).value;
      ReadDocument(q, ss[1..], tail, here);
      Assoc(p.nodes, [NodeOf(s, at)], NodesOf(ss[1..], here));
    }
  }

  lemma ReadTail(p: Parse, tail: string, delta: int)
    requires TailOk(tail) && p.pending == []
    ensures ReadAll(Ok(p), Shift(Finish(Run(START, tail)).value, delta))
         == Ok(p.(pending := Shift(Finish(Run(START, tail)).value, delta)))
    ensures !SecurityRelevant(Shift(Finish(Run(START, tail)).value, delta))
  {
    hide Run;
    var ts := Finish(Run(START, tail)).value;
    var us := Shift(ts, delta);
    forall k | k in us
      ensures !IsMark(k.value) && !(k.value == "server" || k.value == "access_log" || k.value == "include")
    {
      var i :| 0 <= i < |us| && us[i] == k;
      assert ts[i] in ts;
    }
    ReadWords(p, us);
    assert p.pending + us == us;
  }

  /** A well-formed document parses to its own statements. */
  lemma ParseDocument(ss: seq<Stmt>, tail: string)
    requires WellFormed(OUTSIDE, ss, tail)
    ensures Readable(ss)
    ensures Nodes(Render(ss) + tail) == Ok(NodesOf(ss, 0))
  {
    hide Reads, Fits;
    AllRead(OUTSIDE, ss, tail);
    LexDocument(ss, tail);
    ReadDocument(ROOT, ss, tail, 0);
    var p := ReadAll(Ok(ROOT), TokensOf(ss, 0)).value;
    var rest := Shift(Finish(Run(START, tail)).value, |Render(ss)|);
    ReadConcat(Ok(ROOT), TokensOf(ss, 0), rest);
    ReadTail(p, tail, |Render(ss)|);
    assert [] + NodesOf(ss, 0) == NodesOf(ss, 0);
  }
}
