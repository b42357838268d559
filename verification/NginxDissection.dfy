module NginxDissection {

  // Cutting a text into a document: every text that parses is the rendering of a well-formed document.

  import opened PythonText
  import opened NginxText
  import opened NginxLexer
  import opened NginxParser
  import opened NginxDocument

  /** Finished statements, the gap read since, and the unfinished statement. */
  datatype Draft = Draft(stmts: seq<Stmt>, gap: string, raw: string)

  predicate EndsWithMark(s: Lex) {
    s.mode == Gap && s.tokens != [] && IsMark(s.tokens[|s.tokens| - 1].value)
  }

  function CloseStmt(gap: string, raw: string): Stmt
    requires raw != ""
  {
    var ts := Run(START, raw).tokens;
    Stmt(gap, raw, if ts == [] then [] else Values(ts[..|ts| - 1]), raw[|raw| - 1], "", [], 0)
  }

  function Extend(d: Draft, c: char): Draft {
    if d.raw == "" && Loose(Run(START, d.gap + [c])) then d.(gap := d.gap + [c])
    else
      var raw := d.raw + [c];
      if EndsWithMark(Run(START, raw)) then Draft(d.stmts + [CloseStmt(d.gap, raw)], "", "")
      else d.(raw := raw)
  }

  function Chop(text: string): Draft {
    if text == "" then Draft([], "", "") else Extend(Chop(text[..|text| - 1]), text[|text| - 1])
  }

  /** An unfinished statement: its first token starts it, and it holds no punctuation mark yet. */
  predicate Partial(raw: string) {
    var s := Run(START, raw);
    && raw != "" && !IsSpace(raw[0]) && raw[0] != '#'
    && NoMarks(s.tokens)
    && if s.tokens == [] then IsOpen(s) && |s.word| == |raw| else s.tokens[0].start == 0
  }

  predicate Drafted(d: Draft) {
    && Readable(d.stmts)
    && if d.raw == "" then Loose(Run(START, d.gap)) else GapText(d.gap) && Partial(d.raw)
  }

  lemma {:induction false} ReadableSnoc(ss: seq<Stmt>, s: Stmt)
    requires Readable(ss) && Reads(s)
    ensures Readable(ss + [s])
  {
    hide Reads;
    if ss == [] {
      assert ss + [s] == [s];
    } else {
      ReadableSnoc(ss[1..], s);
      assert (ss + [s])[1..] == ss[1..] + [s];
    }
  }

  /** Which marks one more character can bring. */
  lemma MarkShape(s: Lex, c: char)
    requires s.mode.Quoted? ==> s.word != "" && IsQuote(s.word[0])
    requires s.mode.Word? ==> s.word != "" && !IsPunct(s.word[0])
    requires !IsOpen(s) ==> s.word == ""
    ensures var r := Step(s, c); var n := |s.tokens|;
      && n <= |r.tokens| && r.tokens[..n] == s.tokens
      && (forall i :: n <= i < |r.tokens| && IsMark(r.tokens[i].value) ==>
            && i == |r.tokens| - 1 && r.tokens[i] == Token([c], s.at, s.at + 1) && IsPunct(c) && r.mode == Gap
            && r.word == "")
      && (n < |r.tokens| && IsOpen(s) ==> r.tokens[n].start == s.at - |s.word|)
  {
    hide IsSpace;
    MarkOf(c);
    if s.mode.Quoted? {
      assert (s.word + [c])[0] == s.word[0];
    }
  }

  /** The first character of a statement. */
  lemma FirstCharacter(c: char)
    requires !IsSpace(c) && c != '#'
    ensures if IsPunct(c) then Run(START, [c]) == Lex([Token([c], 0, 1)], Gap, "", 1)
            else Run(START, [c]).tokens == [] && IsOpen(Run(START, [c])) && Run(START, [c]).word == [c]
  {
    RunOne(START, c);
  }

  lemma NoMarkBefore(before: seq<Token>, after: seq<Token>)
    requires NoMarks(before) && |before| <= |after| && after[..|before|] == before
    requires after != [] && IsMark(after[|after| - 1].value)
    ensures |before| < |after|
  {
    if before != [] { assert before[|before| - 1] in before; }
  }

  /** What one more character leaves of the marks and the first token. */
  lemma PartialTokens(raw: string, c: char)
    requires Partial(raw)
    ensures var s, r := Run(START, raw), Run(START, raw + [c]);
      && r == Step(s, c)
      && |s.tokens| <= |r.tokens| && r.tokens[..|s.tokens|] == s.tokens
      && (forall i :: 0 <= i < |r.tokens| && (i < |r.tokens| - 1 || !EndsWithMark(r)) ==> !IsMark(r.tokens[i].value))
      && (EndsWithMark(r) ==>
            |s.tokens| < |r.tokens| && IsPunct(c) && r.tokens[|r.tokens| - 1] == Token([c], |raw|, |raw| + 1))
  {
    hide Run, Step, IsSpace, IsPunct;
    var s, t := Run(START, raw), raw + [c];
    RunSnoc(START, raw, c);
    OpenToken(raw);
    OpenTokenStart(raw);
    MarkShape(s, c);
    var r := Run(START, t);
    forall i | 0 <= i < |r.tokens| && (i < |r.tokens| - 1 || !EndsWithMark(r))
      ensures !IsMark(r.tokens[i].value)
    {
      if i < |s.tokens| { assert r.tokens[i] == s.tokens[i] && s.tokens[i] in s.tokens; }
    }
    if EndsWithMark(r) { NoMarkBefore(s.tokens, r.tokens); }
  }

  /** One more character closes the statement or leaves it unfinished. */
  lemma PartialStep(raw: string, c: char)
    requires Partial(raw)
    ensures if EndsWithMark(Run(START, raw + [c]))
            then LexesAs(raw + [c], CloseStmt("", raw + [c]).words, c) else Partial(raw + [c])
  {
    hide Run, Step, IsSpace, IsPunct, IsMark;
    var s, t := Run(START, raw), raw + [c];
    PartialTokens(raw, c);
    OpenToken(raw);
    StepShape(s, c);
    MarkShapeHere(raw, c);
    var r := Run(START, t);
    assert t[0] == raw[0];
    if |s.tokens| > 0 { assert r.tokens[0] == s.tokens[0]; }
    if EndsWithMark(r) { ValuesIndex(r.tokens[..|r.tokens| - 1]); }
  }

  /** The token that ends the first open one begins where the statement does. */
  lemma MarkShapeHere(raw: string, c: char)
    requires Partial(raw)
    ensures var s := Run(START, raw); var r := Step(s, c); var n := |s.tokens|;
      && (IsMark([c]) ==> IsPunct(c))
      && (n < |r.tokens| && IsOpen(s) ==> r.tokens[n].start == s.at - |s.word|)
  {
    hide Run, Step, IsSpace;
    OpenToken(raw);
    OpenTokenStart(raw);
    MarkShape(Run(START, raw), c);
    MarkOf(c);
  }

  lemma FirstStep(c: char)
    requires !IsSpace(c) && c != '#'
    ensures if EndsWithMark(Run(START, [c]))
            then LexesAs([c], CloseStmt("", [c]).words, c) else Partial([c])
  {
    hide Step;
    FirstCharacter(c);
    MarkOf(c);
    if IsPunct(c) {
      var ts := Run(START, [c]).tokens;
      assert ts[..0] == [];
    }
  }

  /** A character that begins a statement comes where no token is open. */
  lemma GapEnds(gap: string, c: char)
    requires Loose(Run(START, gap)) && !Loose(Run(START, gap + [c]))
    ensures GapText(gap) && !IsSpace(c) && c != '#'
  {
    RunSnoc(START, gap, c);
  }

  /** The draft holds exactly the text read. */
  ghost predicate Cuts(d: Draft, text: string) {
    Drafted(d) && Render(d.stmts) + (d.gap + d.raw) == text
  }

  lemma RenderOne(s: Stmt)
    ensures Render([s]) == s.gap + s.raw
  {
    assert [s][1..] == [];
    assert s.gap + s.raw + "" == s.gap + s.raw;
  }

  lemma CutsStep(d: Draft, text: string, c: char)
    requires Cuts(d, text)
    ensures Cuts(Extend(d, c), text + [c])
  {
    hide LexesAs, Partial, Run, GapText;
    var raw := d.raw + [c];
    Assoc(Render(d.stmts), d.gap + d.raw, [c]);
    Assoc(d.gap, d.raw, [c]);
    if d.raw == "" && Loose(Run(START, d.gap + [c])) {
      assert d.gap + [c] + "" == d.gap + raw;
    } else {
      if d.raw == "" {
        GapEnds(d.gap, c);
        FirstStep(c);
        assert raw == [c];
      } else {
        PartialStep(d.raw, c);
      }
      if EndsWithMark(Run(START, raw)) {
        var s := CloseStmt(d.gap, raw);
        assert s.words == CloseStmt("", raw).words && s.term == c;
        ReadableSnoc(d.stmts, s);
        RenderConcat(d.stmts, [s]);
        RenderOne(s);
        CutsNothing();
        assert Render(d.stmts) + (d.gap + raw) + ("" + "") == text + [c];
      }
    }
  }

  lemma CutsNothing()
    ensures Cuts(Draft([], "", ""), "")
  {
    assert Run(START, "") == START;
  }

  lemma {:induction false} ChopText(text: string)
    ensures Cuts(Chop(text), text)
  {
    hide Extend, Cuts;
    if text == "" {
      CutsNothing();
    } else {
      ChopText(text[..|text| - 1]);
      CutsStep(Chop(text[..|text| - 1]), text[..|text| - 1], text[|text| - 1]);
      assert text == text[..|text| - 1] + [text[|text| - 1]];
    }
  }

  // ----- Giving the statements their names

  function AnnotateAll(sc: Scope, ss: seq<Stmt>): seq<Stmt>
    decreases |ss|
  {
    if ss == [] then []
    else
      var s := Annotate(sc, ss[0]);
      [s] + AnnotateAll(Enter(sc, s), ss[1..])
  }

  /** Two statement lists that differ only in their annotations. */
  predicate SameText(a: seq<Stmt>, b: seq<Stmt>) {
    if a == [] || b == [] then a == b
    else
      && a[0].gap == b[0].gap && a[0].raw == b[0].raw && a[0].words == b[0].words && a[0].term == b[0].term
      && SameText(a[1..], b[1..])
  }

  lemma {:induction false} AnnotateSameText(sc: Scope, ss: seq<Stmt>)
    ensures SameText(AnnotateAll(sc, ss), ss)
    decreases |ss|
  {
    if ss != [] {
      hide Annotate, Enter;
      var s := Annotate(sc, ss[0]);
      AnnotatedText(sc, ss[0]);
      AnnotateSameText(Enter(sc, s), ss[1..]);
      assert AnnotateAll(sc, ss)[1..] == AnnotateAll(Enter(sc, s), ss[1..]);
    }
  }

  lemma AnnotatedText(sc: Scope, s: Stmt)
    ensures var t := Annotate(sc, s); t.gap == s.gap && t.raw == s.raw && t.words == s.words && t.term == s.term
  {}

  lemma {:induction false} SameTextRender(a: seq<Stmt>, b: seq<Stmt>)
    requires SameText(a, b)
    ensures Render(a) == Render(b)
  {
    if a != [] && b != [] { SameTextRender(a[1..], b[1..]); }
  }

  /** The statements are read to the end of the outermost block. */
  ghost predicate ReadsThrough(p: Parse, ss: seq<Stmt>, at: int) {
    && p.pending == [] && Readable(ss)
    && var r := ReadAll(Ok(p), TokensOf(ss, at)); r.Ok? && r.value.stack == []
  }

  /** Reading the first of several statements. */
  lemma ReadFirst(p: Parse, ss: seq<Stmt>, at: int)
    requires p.pending == [] && ss != [] && Readable(ss) && ReadAll(Ok(p), TokensOf(ss, at)).Ok?
    ensures var sc, q := Scope(p.stack, p.count), ReadAll(Ok(p), StmtTokens(ss[0], at));
      && Reads(Annotate(sc, ss[0])) && Fits(sc, Annotate(sc, ss[0]))
      && q.Ok? && q.value.pending == []
      && Scope(q.value.stack, q.value.count) == Enter(sc, Annotate(sc, ss[0]))
      && ReadAll(Ok(p), TokensOf(ss, at)) == ReadAll(q, TokensOf(ss[1..], at + |ss[0].gap| + |ss[0].raw|))
  {
    hide ReadAll, Reads, Fits, Enter, Annotate, StmtTokens, NodeOf;
    var sc := Scope(p.stack, p.count);
    var a, b := StmtTokens(ss[0], at), TokensOf(ss[1..], at + |ss[0].gap| + |ss[0].raw|);
    ReadConcat(Ok(p), a, b);
    ReadErrAll(p, a, b);
    AnnotatedReads(sc, ss[0], at);
    ReadStmt(p, ss[0], at);
    ReadStmt(p, Annotate(sc, ss[0]), at);
  }

  lemma ReadsThroughFirst(p: Parse, ss: seq<Stmt>, at: int) returns (q: Parse)
    requires ss != [] && ReadsThrough(p, ss, at)
    ensures var sc := Scope(p.stack, p.count); var s := Annotate(sc, ss[0]);
      Reads(s) && Fits(sc, s) && Scope(q.stack, q.count) == Enter(sc, s)
    ensures ReadsThrough(q, ss[1..], at + |ss[0].gap| + |ss[0].raw|)
  {
    hide ReadAll, Reads, Fits, Enter, Annotate, StmtTokens, TokensOf;
    ReadFirst(p, ss, at);
    q := ReadAll(Ok(p), StmtTokens(ss[0], at)).value;
  }

  lemma ReadsThroughNothing(p: Parse, at: int)
    requires ReadsThrough(p, [], at)
    ensures p.stack == []
  {
    assert ReadAll(Ok(p), []) == Ok(p);
  }

  /** Statements that can all be read fit, once annotated. */
  lemma {:induction false} ReadingFits(p: Parse, ss: seq<Stmt>, tail: string, at: int)
    requires ReadsThrough(p, ss, at) && TailOk(tail)
    ensures WellFormed(Scope(p.stack, p.count), AnnotateAll(Scope(p.stack, p.count), ss), tail)
    decreases |ss|
  {
    hide ReadsThrough, Reads, Fits, Enter, Annotate, TailOk;
    if ss == [] {
      ReadsThroughNothing(p, at);
    } else {
      var q := ReadsThroughFirst(p, ss, at);
      ReadingFits(q, ss[1..], tail, at + |ss[0].gap| + |ss[0].raw|);
      var sc := Scope(p.stack, p.count);
      assert AnnotateAll(sc, ss)[1..] == AnnotateAll(Enter(sc, Annotate(sc, ss[0])), ss[1..]);
    }
  }

  lemma AnnotatedReads(sc: Scope, s: Stmt, at: int)
    requires Reads(s)
    ensures Reads(Annotate(sc, s)) && StmtTokens(Annotate(sc, s), at) == StmtTokens(s, at)
    ensures Annotate(sc, Annotate(sc, s)) == Annotate(sc, s)
    ensures Annotate(sc, s).gap == s.gap && Annotate(sc, s).raw == s.raw
  {
    hide Run, Shift;
  }

  lemma ReadErrAll(p: Parse, a: seq<Token>, b: seq<Token>)
    requires ReadAll(ReadAll(Ok(p), a), b).Ok?
    ensures ReadAll(Ok(p), a).Ok?
  {
    hide Read;
    if ReadAll(Ok(p), a).Err? { ReadErr(ReadAll(Ok(p), a).error, b); }
  }

  /** The tail holds only words, and reading it succeeds whenever the whole text parses. */
  lemma TailReads(d: Draft)
    requires Drafted(d)
    ensures var s := Run(START, d.gap + d.raw); NoMarks(s.tokens)
    ensures var s := Run(START, d.gap + d.raw); Finish(s).Ok? ==> NoMarks(Finish(s).value)
  {
    hide Step;
    var g := d.gap + d.raw;
    if d.raw == "" {
      assert g == d.gap;
    } else {
      RunSplice(d.gap, d.raw);
      var ts := Run(START, d.raw).tokens;
      assert [] + Shift(ts, |d.gap|) == Shift(ts, |d.gap|);
      forall k | k in Shift(ts, |d.gap|) ensures !IsMark(k.value) {
        var i :| 0 <= i < |ts| && Shift(ts, |d.gap|)[i] == k;
        assert ts[i] in ts;
      }
    }
    OpenTokenStart(g);
    var w := Run(START, g).word;
    if w != "" {
      MarkOf(w[0]);
      assert IsMark(w) ==> w == [w[0]];
    }
  }

  /** The document of a text. */
  function Document(text: string): (seq<Stmt>, string) {
    var d := Chop(text);
    (AnnotateAll(OUTSIDE, d.stmts), d.gap + d.raw)
  }

  /** Every text that parses is the rendering of a well-formed document. */
  lemma DissectText(text: string)
    requires Nodes(text).Ok?
    ensures var (ss, tail) := Document(text);
      WellFormed(OUTSIDE, ss, tail) && Render(ss) + tail == text
  {
    hide Drafted, Step, Run, Finish;
    var d := Chop(text);
    var tail := d.gap + d.raw;
    ChopText(text);
    TailReads(d);
    DraftedReads(d);
    LexDocument(d.stmts, tail);
    assert Render(d.stmts) + tail == text;
    var rest := Shift(Finish(Run(START, tail)).value, |Render(d.stmts)|);
    ReadConcat(Ok(ROOT), TokensOf(d.stmts, 0), rest);
    ReadErrAll(ROOT, TokensOf(d.stmts, 0), rest);
    var p := ReadAll(Ok(ROOT), TokensOf(d.stmts, 0)).value;
    PendingNothing(ROOT, d.stmts, 0);
    TailRest(p, tail, |Render(d.stmts)|);
    ReadingFits(ROOT, d.stmts, tail, 0);
    AnnotateSameText(OUTSIDE, d.stmts);
    SameTextRender(AnnotateAll(OUTSIDE, d.stmts), d.stmts);
  }

  lemma DraftedReads(d: Draft)
    requires Drafted(d)
    ensures Readable(d.stmts)
  {}

  lemma ReadNoStmts(p: Parse, at: int)
    ensures ReadAll(Ok(p), TokensOf([], at)) == Ok(p)
  {
    assert TokensOf([], at) == [];
  }

  lemma {:induction false} PendingNothing(p: Parse, ss: seq<Stmt>, at: int)
    requires p.pending == [] && Readable(ss)
    requires ReadAll(Ok(p), TokensOf(ss, at)).Ok?
    ensures ReadAll(Ok(p), TokensOf(ss, at)).value.pending == []
    decreases |ss|
  {
    hide ReadAll, Reads, Fits, Enter, Annotate, StmtTokens, TokensOf;
    if ss == [] {
      ReadNoStmts(p, at);
    } else {
      ReadFirst(p, ss, at);
      PendingNothing(ReadAll(Ok(p), StmtTokens(ss[0], at)).value, ss[1..], at + |ss[0].gap| + |ss[0].raw|);
    }
  }

  lemma TailRest(p: Parse, tail: string, delta: int)
    requires p.pending == [] && Finish(Run(START, tail)).Ok? && NoMarks(Finish(Run(START, tail)).value)
    requires var r := ReadAll(Ok(p), Shift(Finish(Run(START, tail)).value, delta));
      r.Ok? && r.value.stack == [] && !SecurityRelevant(r.value.pending)
    ensures p.stack == [] && TailOk(tail)
  {
    hide Run, Finish;
    var ts := Finish(Run(START, tail)).value;
    var us := Shift(ts, delta);
    forall k | k in us ensures !IsMark(k.value) {
      var i :| 0 <= i < |us| && us[i] == k;
      assert ts[i] in ts;
    }
    ReadWords(p, us);
    assert p.pending + us == us;
    forall k | k in ts
      ensures !(k.value == "server" || k.value == "access_log" || k.value == "include")
    {
      var i :| 0 <= i < |ts| && ts[i] == k;
      assert us[i] in us;
    }
  }
}
