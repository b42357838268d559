module NginxShapes {

  // What one token looks like, in literal characters, and which texts have no tokens.

  import opened PythonText
  import opened NginxText
  import opened NginxLexer
  import opened NginxTokens

  /** The whitespace of Unicode, one character at a time. */
  const WHITESPACE := "\t\n\U{0B}\U{0C}\r\U{1C}\U{1D}\U{1E}\U{1F} \U{85}\U{A0}\U{1680}\U{2000}\U{2001}\U{2002}\U{2003}"
    + "\U{2004}\U{2005}\U{2006}\U{2007}\U{2008}\U{2009}\U{200A}\U{2028}\U{2029}\U{202F}\U{205F}\U{3000}"

  predicate Stops(c: char) { c in WHITESPACE || c == '{' || c == '}' || c == ';' || c == '#' }

  /** The character at `j` stands behind an odd number of backslashes. */
  predicate Escaped(v: string, j: int)
    requires j <= |v|
    decreases j
  {
    0 < j && v[j - 1] == '\\' && !Escaped(v, j - 1)
  }

  /** A quote, closed by its first later twin that is not escaped. */
  predicate IsQuotation(v: string) {
    && |v| >= 2 && (v[0] == '\'' || v[0] == '"') && v[|v| - 1] == v[0] && !Escaped(v, |v| - 1)
    && forall j :: 0 < j < |v| - 1 && v[j] == v[0] ==> Escaped(v, j)
  }

  /** A text that starts neither a quotation nor a comment and holds no stop that is not escaped. */
  predicate IsWord(v: string) {
    && v != "" && !Stops(v[0]) && v[0] != '\'' && v[0] != '"'
    && forall j :: 0 < j < |v| && Stops(v[j]) ==> Escaped(v, j)
  }

  /** A mark, a quotation, or a word with an unescaped stop or the end of the text behind it. */
  predicate HasShape(k: Token, t: string) {
    || k.value == "{" || k.value == "}" || k.value == ";"
    || IsQuotation(k.value)
    || (IsWord(k.value)
        && (k.end == |t| || (0 <= k.end < |t| && Stops(t[k.end]) && !Escaped(k.value, |k.value|))))
  }

  lemma WhitespaceIsSpace(c: char)
    ensures c in WHITESPACE <==> IsSpace(c)
  {
    var n := c as int;
    var codes := [9, 10, 11, 12, 13, 28, 29, 30, 31, 32, 0x85, 0xa0, 0x1680, 0x2000, 0x2001, 0x2002, 0x2003, 0x2004,
                  0x2005, 0x2006, 0x2007, 0x2008, 0x2009, 0x200a, 0x2028, 0x2029, 0x202f, 0x205f, 0x3000];
    assert |WHITESPACE| == |codes|;
    assert forall i :: 0 <= i < |codes| ==> WHITESPACE[i] as int == codes[i];
    if IsSpace(c) {
      assert n in codes;
      var i :| 0 <= i < |codes| && codes[i] == n;
      assert WHITESPACE[i] == c;
    }
  }

  lemma StopsAreDelimiters(c: char)
    ensures Stops(c) <==> IsDelimiter(c)
  {
    hide IsSpace;
    WhitespaceIsSpace(c);
  }

  // ----- The open token

  /** What is known of an unfinished token. */
  predicate OpenShape(s: Lex) {
    match s.mode
    case Gap => true
    case Comment => true
    case Quoted(q, escaped) =>
      && s.word != "" && s.word[0] == q && (q == '\'' || q == '"') && escaped == Escaped(s.word, |s.word|)
      && forall j :: 0 < j < |s.word| && s.word[j] == q ==> Escaped(s.word, j)
    case Word(escaped) => IsWord(s.word) && escaped == Escaped(s.word, |s.word|)
  }

  lemma {:induction false} EscapedInPrefix(v: string, c: char, j: int)
    requires j <= |v|
    ensures Escaped(v + [c], j) == Escaped(v, j)
    decreases j
  {
    if 0 < j { EscapedInPrefix(v, c, j - 1); }
  }

  /** One more character of a token. */
  lemma LongerToken(v: string, c: char)
    ensures forall j :: 0 <= j <= |v| ==> Escaped(v + [c], j) == Escaped(v, j)
    ensures Escaped(v + [c], |v| + 1) <==> c == '\\' && !Escaped(v, |v|)
  {
    forall j | 0 <= j <= |v| ensures Escaped(v + [c], j) == Escaped(v, j) { EscapedInPrefix(v, c, j); }
  }

  lemma LongerWord(v: string, c: char)
    requires IsWord(v) && (Stops(c) ==> Escaped(v, |v|))
    ensures IsWord(v + [c])
  {
    hide Stops;
    LongerToken(v, c);
  }

  lemma BeginShape(tokens: seq<Token>, at: int, c: char)
    ensures var r := Begin(tokens, at, c);
      && OpenShape(r) && tokens <= r.tokens
      && (r.tokens != tokens ==> r.tokens == tokens + [Token([c], at, at + 1)] && (c == '{' || c == '}' || c == ';'))
  {
    hide IsSpace, Stops;
    StopsAreDelimiters(c);
    assert Escaped([c], 1) == (c == '\\' && !Escaped([c], 0));
  }

  lemma QuotedStep(s: Lex, c: char)
    requires s.mode.Quoted? && OpenShape(s)
    ensures var r := Step(s, c);
      && OpenShape(r) && (r.tokens == s.tokens || r.tokens == s.tokens + [Token(s.word + [c], s.at - |s.word|, s.at + 1)])
      && (r.tokens != s.tokens ==> IsQuotation(s.word + [c]))
  {
    LongerToken(s.word, c);
  }

  lemma WordStep(s: Lex, c: char)
    requires s.mode.Word? && OpenShape(s)
    ensures var r := Step(s, c);
      && OpenShape(r)
      && (r.tokens == s.tokens || (Stops(c) && !Escaped(s.word, |s.word|)
                                   && WordEnded(s, c, r.tokens)))
  {
    hide Begin, Stops, IsDelimiter;
    StopsAreDelimiters(c);
    LongerToken(s.word, c);
    if s.mode.escaped || c == '\\' || !IsDelimiter(c) {
      BackslashGoesOn();
      LongerWord(s.word, c);
    } else {
      BeginShape(s.tokens + [Token(s.word, s.at - |s.word|, s.at)], s.at, c);
    }
  }

  lemma BackslashGoesOn()
    ensures !Stops('\\')
  {}

  /** The word is finished, and so is the mark behind it when there is one. */
  predicate WordEnded(s: Lex, c: char, tokens: seq<Token>) {
    var ended := s.tokens + [Token(s.word, s.at - |s.word|, s.at)];
    tokens == ended || (tokens == ended + [Token([c], s.at, s.at + 1)] && (c == '{' || c == '}' || c == ';'))
  }

  // ----- All tokens

  /** Every finished token has its shape, with a stop behind each word. */
  ghost predicate ShapesSoFar(t: string) {
    var s := Run(START, t);
    && OpenShape(s)
    && forall k <- s.tokens :: HasShape(k, t) && (IsWord(k.value) ==> k.end < |t|)
  }

  lemma ShapeKept(k: Token, u: string, c: char)
    requires HasShape(k, u) && (IsWord(k.value) ==> k.end < |u|)
    ensures HasShape(k, u + [c]) && (IsWord(k.value) ==> k.end < |u + [c]|)
  {
    hide Stops, IsQuotation;
  }

  lemma MarksAndQuotations(v: string)
    requires v == "{" || v == "}" || v == ";" || IsQuotation(v)
    ensures !IsWord(v)
  {}

  lemma {:induction false} RunShapes(t: string)
    ensures ShapesSoFar(t)
  {
    if t != "" {
      hide ShapesSoFar;
      RunShapes(t[..|t| - 1]);
      ShapesStep(t[..|t| - 1], t[|t| - 1]);
      assert t == t[..|t| - 1] + [t[|t| - 1]];
    }
  }

  lemma ShapesStep(u: string, c: char)
    requires ShapesSoFar(u)
    ensures ShapesSoFar(u + [c])
  {
    hide Run, Step, Begin, OpenShape, HasShape, IsWord, Stops, IsQuotation;
    var b, t := Run(START, u), u + [c];
    RunSnoc(START, u, c);
    RunAt(START, u);
    forall k | k in b.tokens ensures HasShape(k, t) && (IsWord(k.value) ==> k.end < |t|) { ShapeKept(k, u, c); }
    NewShapes(b, u, c);
    forall k | k in Step(b, c).tokens && k !in b.tokens ensures HasShape(k, t) && (IsWord(k.value) ==> k.end < |t|) {}
  }

  lemma MarkShape(c: char, at: int, t: string)
    requires c == '{' || c == '}' || c == ';'
    ensures HasShape(Token([c], at, at + 1), t) && !IsWord([c])
  {
    hide Stops;
    assert [c] == "{" || [c] == "}" || [c] == ";";
    MarksAndQuotations([c]);
  }

  lemma NewShapes(b: Lex, u: string, c: char)
    requires b == Run(START, u) && OpenShape(b) && b.at == |u|
    ensures OpenShape(Step(b, c))
    ensures forall k <- Step(b, c).tokens ::
      k in b.tokens || (HasShape(k, u + [c]) && (IsWord(k.value) ==> k.end < |u + [c]|))
  {
    hide Run, Begin, Step, OpenShape, IsWord, Stops, IsQuotation;
    var t := u + [c];
    if c == '{' || c == '}' || c == ';' { MarkShape(c, |u|, t); }
    match b.mode
    case Gap =>
      GapSteps(b, c);
      BeginShape(b.tokens, b.at, c);
    case Comment => CommentSteps(b, c);
    case Quoted(_, _) =>
      QuotedStep(b, c);
      if IsQuotation(b.word + [c]) { MarksAndQuotations(b.word + [c]); }
    case Word(_) =>
      WordStep(b, c);
      WordIsWord(b);
      assert t[|u|] == c;
  }

  lemma WordIsWord(b: Lex)
    requires OpenShape(b) && b.mode.Word?
    ensures IsWord(b.word)
  {}

  lemma GapSteps(b: Lex, c: char)
    requires b.mode == Gap
    ensures Step(b, c) == Begin(b.tokens, b.at, c)
  {}

  lemma CommentSteps(b: Lex, c: char)
    requires b.mode == Comment
    ensures Step(b, c).tokens == b.tokens && OpenShape(Step(b, c))
  {}

  /** Each token of a text is a mark, a quotation that reaches to the first closing quote, or a word that reaches to the
      first stop. */
  lemma TokenShapes(t: string, i: nat)
    requires Tokens(t).Ok? && i < |Tokens(t).value|
    ensures HasShape(Tokens(t).value[i], t)
  {
    hide Run, OpenShape, HasShape, Tokens;
    LastWord(t);
    RunShapes(t);
    var s := Run(START, t);
    if IsOpen(s) && i == |s.tokens| {
      LastIsWord(t);
      LastShape(s, Token(s.word, |t| - |s.word|, |t|), t);
    }
  }

  lemma LastIsWord(t: string)
    requires Tokens(t).Ok? && IsOpen(Run(START, t))
    ensures Run(START, t).mode.Word?
  {}

  lemma LastShape(s: Lex, k: Token, t: string)
    requires OpenShape(s) && s.mode.Word? && k.value == s.word && k.end == |t|
    ensures HasShape(k, t)
  {}

  // ----- Texts without tokens

  /** A quote at `n`, where no token is open, that is never closed. */
  ghost predicate NeverCloses(t: string, n: nat)
    requires n < |t|
  {
    && Run(START, t[..n]).mode == Gap && (t[n] == '\'' || t[n] == '"')
    && forall j :: n < j < |t| && t[j] == t[n] ==> Escaped(t[n..], j - n)
  }

  /** A text has no tokens exactly when a quotation in it is never closed. */
  lemma TokensFail(t: string)
    ensures Tokens(t).Err? ==> Tokens(t) == Err(UnterminatedQuote) && exists n :: 0 <= n < |t| && NeverCloses(t, n)
    ensures (exists n :: 0 <= n < |t| && NeverCloses(t, n)) ==> Tokens(t).Err?
  {
    hide Run;
    OpenToken(t);
    RunShapes(t);
    var s := Run(START, t);
    if Tokens(t).Err? {
      FailedOpen(t);
      var n := |t| - |s.word|;
      assert t[n..] == s.word && t[n] == s.word[0];
      assert NeverCloses(t, n);
    }
    if n :| 0 <= n < |t| && NeverCloses(t, n) { NeverClosed(t, n); }
  }

  lemma FailedOpen(t: string)
    requires Tokens(t).Err?
    ensures Run(START, t).mode.Quoted? && Tokens(t) == Err(UnterminatedQuote)
  {
    hide Run;
  }

  /** Behind a quote the machine stays in the quotation while no twin closes it. */
  lemma {:induction false} StaysQuoted(s: Lex, t: string, n: nat, m: nat)
    requires n < m <= |t| && NeverCloses(t, n) && s == Run(START, t[..n])
    ensures Run(START, t[..m]) == Lex(s.tokens, Quoted(t[n], Escaped(t[n..m], m - n)), t[n..m], m)
    decreases m
  {
    hide Run, Begin, Step;
    RunAt(START, t[..n]);
    assert t[..m] == t[..m - 1] + [t[m - 1]];
    RunSnoc(START, t[..m - 1], t[m - 1]);
    if m == n + 1 {
      assert t[n..m] == [t[n]];
      GapSteps(s, t[n]);
      QuoteBegins(s.tokens, s.at, t[n]);
    } else {
      StaysQuoted(s, t, n, m - 1);
      assert t[n..m] == t[n..m - 1] + [t[m - 1]];
      LongerToken(t[n..m - 1], t[m - 1]);
      EscapedInSlice(t[n..], m - 1 - n);
      assert t[n..][..m - 1 - n] == t[n..m - 1];
      GoesOn(Run(START, t[..m - 1]), t[m - 1]);
    }
  }

  lemma {:induction false} EscapedInSlice(v: string, j: int)
    requires 0 <= j <= |v|
    ensures Escaped(v[..j], j) == Escaped(v, j)
  {
    if 0 < j {
      EscapedInSlice(v, j - 1);
      assert v[..j] == v[..j - 1] + [v[j - 1]];
      LongerToken(v[..j - 1], v[j - 1]);
    }
  }

  lemma QuoteBegins(tokens: seq<Token>, at: int, c: char)
    requires c == '\'' || c == '"'
    ensures Begin(tokens, at, c) == Lex(tokens, Quoted(c, false), [c], at + 1)
  {}

  lemma GoesOn(s: Lex, c: char)
    requires s.mode.Quoted? && (c == s.mode.quote ==> s.mode.escaped) && (s.mode.quote == '\'' || s.mode.quote == '"')
    ensures Step(s, c) == Lex(s.tokens, Quoted(s.mode.quote, c == '\\' && !s.mode.escaped), s.word + [c], s.at + 1)
  {}

  lemma NeverClosed(t: string, n: nat)
    requires n < |t| && NeverCloses(t, n)
    ensures Tokens(t).Err?
  {
    hide Run;
    StaysQuoted(Run(START, t[..n]), t, n, |t|);
    assert t[..|t|] == t;
  }
}
