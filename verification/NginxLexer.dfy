module NginxLexer {

  // The tokenizer of active Nginx syntax: an index loop proved equal to a one-character-at-a-time machine.

  import opened PythonText
  import opened NginxText

  datatype Token = Token(value: string, start: int, end: int)

  datatype Mode = Gap | Comment | Quoted(quote: char, escaped: bool) | Word(escaped: bool)

  /** What is known after a prefix: finished tokens, mode, text of the unfinished token, length of the prefix. */
  datatype Lex = Lex(tokens: seq<Token>, mode: Mode, word: string, at: int)

  const START := Lex([], Gap, "", 0)

  /** Reads `c` at offset `at` when no token is open. */
  function Begin(tokens: seq<Token>, at: int, c: char): Lex {
    if IsSpace(c) then Lex(tokens, Gap, "", at + 1)
    else if c == '#' then Lex(tokens, Comment, "", at + 1)
    else if IsPunct(c) then Lex(tokens + [Token([c], at, at + 1)], Gap, "", at + 1)
    else if IsQuote(c) then Lex(tokens, Quoted(c, false), [c], at + 1)
    else Lex(tokens, Word(c == '\\'), [c], at + 1)
  }

  function Step(s: Lex, c: char): Lex {
    match s.mode
    case Gap => Begin(s.tokens, s.at, c)
    case Comment => Lex(s.tokens, if c == '\n' then Gap else Comment, "", s.at + 1)
    case Quoted(q, escaped) =>
      if escaped then Lex(s.tokens, Quoted(q, false), s.word + [c], s.at + 1)
      else if c == '\\' then Lex(s.tokens, Quoted(q, true), s.word + [c], s.at + 1)
      else if c == q then
        Lex(s.tokens + [Token(s.word + [c], s.at - |s.word|, s.at + 1)], Gap, "", s.at + 1)
      else Lex(s.tokens, Quoted(q, false), s.word + [c], s.at + 1)
    case Word(escaped) =>
      if escaped then Lex(s.tokens, Word(false), s.word + [c], s.at + 1)
      else if c == '\\' then Lex(s.tokens, Word(true), s.word + [c], s.at + 1)
      else if IsDelimiter(c) then Begin(s.tokens + [Token(s.word, s.at - |s.word|, s.at)], s.at, c)
      else Lex(s.tokens, Word(false), s.word + [c], s.at + 1)
  }

  function Run(s: Lex, t: string): Lex {
    if t == "" then s else Step(Run(s, t[..|t| - 1]), t[|t| - 1])
  }

  function Finish(s: Lex): Result<seq<Token>> {
    match s.mode
    case Gap => Ok(s.tokens)
    case Comment => Ok(s.tokens)
    case Quoted(_, _) => Err(UnterminatedQuote)
    case Word(_) => Ok(s.tokens + [Token(s.word, s.at - |s.word|, s.at)])
  }

  /** The tokens of a text, as the machine reads them. */
  function Tokens(text: string): Result<seq<Token>> { Finish(Run(START, text)) }

  function Values(tokens: seq<Token>): seq<string> {
    if tokens == [] then [] else [tokens[0].value] + Values(tokens[1..])
  }

  function Shift(tokens: seq<Token>, delta: int): (r: seq<Token>)
    ensures |r| == |tokens|
    ensures forall i :: 0 <= i < |r| ==> r[i] == Token(tokens[i].value, tokens[i].start + delta, tokens[i].end + delta)
  {
    seq(|tokens|, i requires 0 <= i < |tokens| => Token(tokens[i].value, tokens[i].start + delta, tokens[i].end + delta))
  }

  // ----- The machine on concatenated texts

  lemma {:induction false} RunConcat(s: Lex, a: string, b: string)
    ensures Run(s, a + b) == Run(Run(s, a), b)
  {
    if b == "" {
      assert a + b == a;
    } else {
      assert (a + b)[..|a + b| - 1] == a + b[..|b| - 1];
      RunConcat(s, a, b[..|b| - 1]);
    }
  }

  lemma RunOne(s: Lex, c: char)
    ensures Run(s, [c]) == Step(s, c)
  {
    assert [c][..0] == "";
    assert Run(s, [c][..0]) == s;
  }

  lemma RunSnoc(s: Lex, t: string, c: char)
    ensures Run(s, t + [c]) == Step(Run(s, t), c)
  {
    assert (t + [c])[..|t + [c]| - 1] == t;
  }

  /** A state moved by `delta` characters behind the tokens `before`. */
  function Rebase(before: seq<Token>, delta: int, s: Lex): Lex {
    Lex(before + Shift(s.tokens, delta), s.mode, s.word, s.at + delta)
  }

  lemma ShiftSnoc(before: seq<Token>, ts: seq<Token>, t: Token, delta: int)
    ensures before + Shift(ts + [t], delta) == before + Shift(ts, delta) + [Token(t.value, t.start + delta, t.end + delta)]
  {
    assert Shift(ts + [t], delta) == Shift(ts, delta) + [Token(t.value, t.start + delta, t.end + delta)];
  }

  lemma BeginRebase(before: seq<Token>, delta: int, ts: seq<Token>, at: int, c: char)
    ensures Begin(before + Shift(ts, delta), at + delta, c) == Rebase(before, delta, Begin(ts, at, c))
  {
    hide IsSpace;
    ShiftSnoc(before, ts, Token([c], at, at + 1), delta);
  }

  lemma QuotedRebase(before: seq<Token>, delta: int, s: Lex, c: char)
    requires s.mode.Quoted?
    ensures Step(Rebase(before, delta, s), c) == Rebase(before, delta, Step(s, c))
  {
    ShiftSnoc(before, s.tokens, Token(s.word + [c], s.at - |s.word|, s.at + 1), delta);
  }

  lemma WordRebase(before: seq<Token>, delta: int, s: Lex, c: char)
    requires s.mode.Word?
    ensures Step(Rebase(before, delta, s), c) == Rebase(before, delta, Step(s, c))
  {
    hide IsDelimiter, Begin;
    var ended := Token(s.word, s.at - |s.word|, s.at);
    ShiftSnoc(before, s.tokens, ended, delta);
    BeginRebase(before, delta, s.tokens + [ended], s.at, c);
  }

  lemma StepRebase(before: seq<Token>, delta: int, s: Lex, c: char)
    ensures Step(Rebase(before, delta, s), c) == Rebase(before, delta, Step(s, c))
  {
    hide Begin, IsDelimiter;
    match s.mode
    case Gap => GapRebase(before, delta, s, c);
    case Comment =>
    case Quoted(_, _) => QuotedRebase(before, delta, s, c);
    case Word(_) => WordRebase(before, delta, s, c);
  }

  lemma GapRebase(before: seq<Token>, delta: int, s: Lex, c: char)
    requires s.mode.Gap?
    ensures Step(Rebase(before, delta, s), c) == Rebase(before, delta, Step(s, c))
  {
    hide Begin;
    BeginRebase(before, delta, s.tokens, s.at, c);
  }

  lemma {:induction false} RunRebase(before: seq<Token>, delta: int, s: Lex, t: string)
    ensures Run(Rebase(before, delta, s), t) == Rebase(before, delta, Run(s, t))
  {
    hide Step;
    if t != "" {
      RunRebase(before, delta, s, t[..|t| - 1]);
      StepRebase(before, delta, Run(s, t[..|t| - 1]), t[|t| - 1]);
    }
  }

  lemma RebaseStart(before: seq<Token>, delta: int)
    ensures Rebase(before, delta, START) == Lex(before, Gap, "", delta)
  {
    assert before + Shift([], delta) == before;
  }

  /** The position counts the characters read. */
  lemma {:induction false} RunAt(s: Lex, t: string)
    ensures Run(s, t).at == s.at + |t|
  {
    hide IsSpace;
    if t != "" { RunAt(s, t[..|t| - 1]); }
  }

  lemma FinishRebase(before: seq<Token>, delta: int, s: Lex)
    ensures Finish(Rebase(before, delta, s)).Ok? <==> Finish(s).Ok?
    ensures Finish(s).Ok? ==> Finish(Rebase(before, delta, s)).value == before + Shift(Finish(s).value, delta)
  {
    ShiftSnoc(before, s.tokens, Token(s.word, s.at - |s.word|, s.at), delta);
  }

  /** From a place where no token is open the machine reads as if the text began there. */
  lemma RunSplice(a: string, b: string)
    requires Run(START, a).mode == Gap
    ensures Run(START, a + b) == Rebase(Run(START, a).tokens, |a|, Run(START, b))
  {
    var s := Run(START, a);
    RunConcat(START, a, b);
    RunAt(START, a);
    GapHasNoWord(START, a);
    RebaseStart(s.tokens, |a|);
    RunRebase(s.tokens, |a|, START, b);
  }

  /** Splice stability: where no token is open, the tokens of a concatenation are the tokens of the two parts,
      the second part's moved by the length of the first. */
  lemma SpliceTokens(a: string, b: string)
    requires Run(START, a).mode == Gap
    ensures Tokens(a).Ok? && (Tokens(a + b).Ok? <==> Tokens(b).Ok?)
    ensures Tokens(b).Ok? ==> Tokens(a + b).value == Tokens(a).value + Shift(Tokens(b).value, |a|)
  {
    RunSplice(a, b);
    FinishRebase(Run(START, a).tokens, |a|, Run(START, b));
  }

  lemma {:induction false} GapHasNoWord(s: Lex, t: string)
    requires s.mode == Gap || s.mode == Comment ==> s.word == ""
    ensures Run(s, t).mode == Gap || Run(s, t).mode == Comment ==> Run(s, t).word == ""
  {
    hide IsSpace;
    if t != "" { GapHasNoWord(s, t[..|t| - 1]); }
  }

  lemma {:induction false} ValuesIndex(a: seq<Token>)
    ensures |Values(a)| == |a|
    ensures forall i :: 0 <= i < |a| ==> Values(a)[i] == a[i].value
  {
    if a != [] { ValuesIndex(a[1..]); }
  }

  // ----- Where the tokens are

  predicate Loose(s: Lex) { s.tokens == [] && (s.mode == Gap || s.mode == Comment) }

  /** A text that holds only whitespace and finished comments. */
  predicate GapText(g: string) { Loose(Run(START, g)) && Run(START, g).mode == Gap }

  predicate IsOpen(s: Lex) { s.mode.Quoted? || s.mode.Word? }

  /** One step opens a token, extends the open one, or finishes up to two tokens; it never takes one back. */
  lemma StepShape(s: Lex, c: char)
    requires !IsOpen(s) ==> s.word == ""
    ensures var r := Step(s, c); var begun := s.at - |s.word|;
      && r.at == s.at + 1
      && (IsOpen(r) ==> r.tokens == s.tokens && r.word == s.word + [c] && (IsOpen(s) || s.mode == Gap))
      && (!IsOpen(r) ==> r.word == "" && (IsOpen(s) ==> |s.tokens| < |r.tokens|))
      && (|| r.tokens == s.tokens
          || (!IsOpen(s) && r.tokens == s.tokens + [Token([c], s.at, s.at + 1)])
          || (IsOpen(s) && r.tokens == s.tokens + [Token(s.word + [c], begun, s.at + 1)])
          || (IsOpen(s) && r.tokens == s.tokens + [Token(s.word, begun, s.at)])
          || (IsOpen(s) && r.tokens == s.tokens + [Token(s.word, begun, s.at)] + [Token([c], s.at, s.at + 1)]))
  {
    hide IsSpace;
    assert "" + [c] == [c];
  }

  /** The unfinished token is the end of the prefix, and it began where no token was open. */
  lemma {:induction false} OpenToken(t: string)
    ensures var s := Run(START, t);
      && s.at == |t|
      && (IsOpen(s) ==>
            && 0 < |s.word| <= |t|
            && s.word == t[|t| - |s.word|..]
            && Run(START, t[..|t| - |s.word|]) == Lex(s.tokens, Gap, "", |t| - |s.word|))
      && (!IsOpen(s) ==> s.word == "")
  {
    hide Step;
    if t != "" {
      var u, c := t[..|t| - 1], t[|t| - 1];
      OpenToken(u);
      var b, s := Run(START, u), Run(START, t);
      StepShape(b, c);
      if IsOpen(s) {
        assert t == u + [c];
        assert t[..|t| - |s.word|] == u[..|u| - |b.word|];
        assert u[..|u|] == u;
      }
    }
  }

  /** Tokens are increasing, disjoint slices of the text. */
  ghost predicate Slices(tokens: seq<Token>, t: string) {
    && (forall i :: 0 <= i < |tokens| ==>
          0 <= tokens[i].start < tokens[i].end <= |t| && tokens[i].value == t[tokens[i].start..tokens[i].end])
    && (forall i, j :: 0 <= i < j < |tokens| ==> tokens[i].end <= tokens[j].start)
  }

  ghost predicate SlicesUpto(tokens: seq<Token>, t: string, limit: int) {
    && Slices(tokens, t)
    && forall i :: 0 <= i < |tokens| ==> tokens[i].end <= limit
  }

  lemma SlicesExtend(tokens: seq<Token>, u: string, c: char, limit: int)
    requires SlicesUpto(tokens, u, limit)
    ensures SlicesUpto(tokens, u + [c], limit)
  {
    forall i | 0 <= i < |tokens|
      ensures tokens[i].value == (u + [c])[tokens[i].start..tokens[i].end]
    {
      assert (u + [c])[tokens[i].start..tokens[i].end] == u[tokens[i].start..tokens[i].end];
    }
  }

  lemma SlicesSnoc(tokens: seq<Token>, t: string, k: Token)
    requires SlicesUpto(tokens, t, k.start)
    requires 0 <= k.start < k.end <= |t| && k.value == t[k.start..k.end]
    ensures SlicesUpto(tokens + [k], t, k.end)
  {}

  /** The finished tokens are slices of the text, and end where the open one begins. */
  ghost predicate FinishedSlices(t: string) {
    var s := Run(START, t);
    SlicesUpto(s.tokens, t, |t| - |s.word|)
  }

  lemma {:induction false} RunSlices(t: string)
    ensures FinishedSlices(t)
  {
    if t != "" {
      hide FinishedSlices;
      RunSlices(t[..|t| - 1]);
      SlicesStep(t);
    }
  }

  lemma SlicesStep(t: string)
    requires t != "" && FinishedSlices(t[..|t| - 1])
    ensures FinishedSlices(t)
  {
    hide Step, Slices;
    var u, c := t[..|t| - 1], t[|t| - 1];
    assert u + [c] == t;
    OpenToken(u);
    OpenToken(t);
    var b := Run(START, u);
    StepShape(b, c);
    SlicesExtend(b.tokens, u, c, |u| - |b.word|);
    if IsOpen(b) {
      SlicesOfEnded(b, u, c);
    } else {
      assert [c] == t[|u|..|t|];
      SlicesSnoc(b.tokens, t, Token([c], |u|, |t|));
    }
  }

  lemma SlicesOfEnded(b: Lex, u: string, c: char)
    requires b == Run(START, u) && IsOpen(b) && SlicesUpto(b.tokens, u + [c], |u| - |b.word|)
    ensures var begun, t := |u| - |b.word|, u + [c];
      && SlicesUpto(b.tokens + [Token(b.word, begun, |u|)], t, |u|)
      && SlicesUpto(b.tokens + [Token(b.word + [c], begun, |t|)], t, |t|)
      && SlicesUpto(b.tokens + [Token(b.word, begun, |u|)] + [Token([c], |u|, |t|)], t, |t|)
  {
    hide Step;
    OpenToken(u);
    var begun, t := |u| - |b.word|, u + [c];
    assert b.word == t[begun..|u|];
    assert b.word + [c] == t[begun..|t|];
    SlicesSnoc(b.tokens, t, Token(b.word, begun, |u|));
    SlicesSnoc(b.tokens, t, Token(b.word + [c], begun, |t|));
    SlicesSnoc(b.tokens + [Token(b.word, begun, |u|)], t, Token([c], |u|, |t|));
  }

  /** A finished token seen from inside the text: an unquoted or quoted token began where none was open, an unquoted one
      stopped before a delimiter, and after a punctuation mark no token is open. */
  ghost predicate CutAt(tokens: seq<Token>, i: nat, t: string)
    requires i < |tokens|
  {
    var k := tokens[i];
    && 0 <= k.start < k.end <= |t|
    && k.value != ""
    && (IsPunct(k.value[0]) ==> Run(START, t[..k.end]) == Lex(tokens[..i + 1], Gap, "", k.end))
    && (!IsPunct(k.value[0]) ==> Run(START, t[..k.start]) == Lex(tokens[..i], Gap, "", k.start))
    && (Plain(k.value) ==>
          k.end < |t| && IsDelimiter(t[k.end]) && Run(START, t[..k.end]) == Lex(tokens[..i], Word(false), k.value, k.end))
  }

  lemma {:induction false} TokenCut(t: string, i: nat)
    requires i < |Run(START, t).tokens|
    ensures CutAt(Run(START, t).tokens, i, t)
  {
    hide Step;
    if t != "" {
      var u, c := t[..|t| - 1], t[|t| - 1];
      var b, s := Run(START, u), Run(START, t);
      assert t == u + [c];
      OpenToken(u);
      OpenToken(t);
      StepShape(b, c);
      if i < |b.tokens| {
        TokenCut(u, i);
        var k := b.tokens[i];
        assert t[..k.end] == u[..k.end] && t[..k.start] == u[..k.start];
        assert s.tokens[..i] == b.tokens[..i] && s.tokens[..i + 1] == b.tokens[..i + 1];
      } else {
        NewTokenCut(t, i);
      }
    }
  }

  lemma NewTokenCut(t: string, i: nat)
    requires t != "" && |Run(START, t[..|t| - 1]).tokens| <= i < |Run(START, t).tokens|
    ensures CutAt(Run(START, t).tokens, i, t)
  {
    hide Step;
    var u, c := t[..|t| - 1], t[|t| - 1];
    var b, s := Run(START, u), Run(START, t);
    OpenToken(u);
    OpenToken(t);
    StepShape(b, c);
    assert t[..|t|] == t;
    if i == |b.tokens| && IsOpen(b) {
      EndedTokenCut(t);
    } else {
      assert s.tokens[i] == Token([c], |u|, |t|) && c in s.tokens[i].value;
      assert s.tokens[..i + 1] == s.tokens;
      PunctOnly(b, c, i);
    }
  }

  /** A token of one step is the mark just read, or the open token. */
  lemma PunctOnly(s: Lex, c: char, i: nat)
    requires |s.tokens| <= i < |Step(s, c).tokens| && Step(s, c).tokens[i] == Token([c], s.at, s.at + 1)
    requires IsOpen(s) ==> 0 < |s.word|
    ensures IsPunct(c) && Step(s, c).mode == Gap && Step(s, c).word == ""
  {}

  lemma EndedShape(s: Lex, c: char)
    requires IsOpen(s) && |s.tokens| < |Step(s, c).tokens|
    ensures var k := Step(s, c).tokens[|s.tokens|];
      && k.start == s.at - |s.word|
      && Step(s, c).tokens[..|s.tokens|] == s.tokens
      && (s.mode.Quoted? ==> k.value == s.word + [c] && k.end == s.at + 1)
      && (s.mode.Word? ==> k.value == s.word && k.end == s.at && !s.mode.escaped && IsDelimiter(c))
  {}

  /** The part of `CutAt` that does not depend on the kind of token. */
  lemma EndedTokenStart(t: string)
    requires t != "" && IsOpen(Run(START, t[..|t| - 1]))
    requires |Run(START, t[..|t| - 1]).tokens| < |Run(START, t).tokens|
    ensures var b := Run(START, t[..|t| - 1]); var tokens := Run(START, t).tokens; var k := tokens[|b.tokens|];
      && 0 <= k.start < k.end <= |t| && k.value != "" && k.value[0] == b.word[0]
      && !IsPunct(k.value[0]) && (b.mode.Quoted? ==> IsQuote(k.value[0]))
      && Run(START, t[..k.start]) == Lex(tokens[..|b.tokens|], Gap, "", k.start)
  {
    hide IsSpace, Step;
    var u := t[..|t| - 1];
    OpenToken(u);
    OpenTokenStart(u);
    EndedShape(Run(START, u), t[|t| - 1]);
    assert t[..|u| - |Run(START, u).word|] == u[..|u| - |Run(START, u).word|];
  }

  lemma EndedTokenCut(t: string)
    requires t != "" && IsOpen(Run(START, t[..|t| - 1]))
    requires |Run(START, t[..|t| - 1]).tokens| < |Run(START, t).tokens|
    ensures CutAt(Run(START, t).tokens, |Run(START, t[..|t| - 1]).tokens|, t)
  {
    hide Step;
    var b := Run(START, t[..|t| - 1]);
    var tokens := Run(START, t).tokens;
    EndedTokenStart(t);
    OpenToken(t[..|t| - 1]);
    EndedShape(b, t[|t| - 1]);
    var k := tokens[|b.tokens|];
    assert k.value[0] in k.value;
    assert Plain(k.value) ==> b.mode.Word?;
    assert b.mode.Word? ==> t[..k.end] == t[..|t| - 1];
  }

  /** What the first character of an open token says about it. */
  lemma {:induction false} OpenTokenStart(t: string)
    ensures var s := Run(START, t); s.mode.Quoted? ==> s.word != "" && s.word[0] == s.mode.quote && IsQuote(s.word[0])
    ensures var s := Run(START, t); s.mode.Word? ==>
      && s.word != "" && !IsPunct(s.word[0]) && !IsQuote(s.word[0]) && !IsSpace(s.word[0]) && s.word[0] != '#'
      && (s.mode.escaped ==> '\\' in s.word)
  {
    hide IsSpace;
    if t != "" { OpenTokenStart(t[..|t| - 1]); }
  }

  /** A character after which no token is open is the end of a token, a comment character or whitespace. */
  lemma LastCharacter(s: Lex, c: char)
    requires !IsOpen(Step(s, c))
    ensures var r := Step(s, c);
      || s.mode == Comment || IsSpace(c) || c == '#'
      || (|s.tokens| < |r.tokens| && r.tokens[|r.tokens| - 1].start <= s.at < r.tokens[|r.tokens| - 1].end)
  {}

  ghost predicate Outside(tokens: seq<Token>, k: int) {
    forall t <- tokens :: !(t.start <= k < t.end)
  }

  /** Outside the tokens a text holds only whitespace and comments. */
  lemma {:induction false} SilentOutsideTokens(t: string, k: int)
    requires 0 <= k < |t| && !IsOpen(Run(START, t))
    requires Outside(Run(START, t).tokens, k)
    ensures !IsOpen(Run(START, t[..k + 1]))
    ensures Run(START, t[..k]).mode == Comment || IsSpace(t[k]) || t[k] == '#'
    decreases |t|
  {
    hide IsSpace;
    hide Step;
    var u := t[..|t| - 1];
    var b, s := Run(START, u), Run(START, t);
    OpenToken(u);
    if k < |u| {
      // The last stretch of the text, which cannot hold offset k, is dropped.
      var n := |u| - |b.word|;
      SilentBeforeOpenToken(t, k, n);
      assert Run(START, t[..n]).tokens == b.tokens;
      SilentOutsideTokens(t[..n], k);
      assert t[..n][..k + 1] == t[..k + 1] && t[..n][..k] == t[..k];
    } else {
      LastCharacter(b, t[|t| - 1]);
      assert t[..|t|] == t && t[..k] == u;
      assert |b.tokens| < |s.tokens| ==> s.tokens[|s.tokens| - 1] in s.tokens;
    }
  }

  lemma SilentBeforeOpenToken(t: string, k: int, n: int)
    requires 0 <= k < |t| - 1 && !IsOpen(Run(START, t)) && Outside(Run(START, t).tokens, k)
    requires n == |t| - 1 - |Run(START, t[..|t| - 1]).word|
    ensures k < n && !IsOpen(Run(START, t[..n]))
    ensures Run(START, t[..n]).tokens == Run(START, t[..|t| - 1]).tokens
    ensures Outside(Run(START, t[..n]).tokens, k)
  {
    hide Step;
    var u := t[..|t| - 1];
    var b, s := Run(START, u), Run(START, t);
    OpenToken(u);
    StepShape(b, t[|t| - 1]);
    assert u[..n] == t[..n];
    forall x | x in b.tokens ensures x in s.tokens {}
    if IsOpen(b) {
      assert s.tokens[|b.tokens|] in s.tokens;
    } else {
      assert t[..n] == u;
    }
  }

  // ----- The tokenizer loop

  /** The state at the top of the tokenizer's outer loop: the next character is read as if no token were open. */
  ghost predicate Settled(text: string, index: nat, tokens: seq<Token>)
    requires index <= |text|
  {
    if index < |text| then Run(START, text[..index + 1]) == Begin(tokens, index, text[index])
    else Finish(Run(START, text)) == Ok(tokens)
  }

  lemma SettledAfter(text: string, index: nat, tokens: seq<Token>)
    requires index <= |text|
    requires var s := Run(START, text[..index]);
      || s == Lex(tokens, Gap, "", index)
      || (index == |text| && s == Lex(tokens, Comment, "", index))
      || (s.mode.Word? && (index == |text| || (IsDelimiter(text[index]) && !s.mode.escaped))
          && tokens == s.tokens + [Token(s.word, index - |s.word|, index)] && s.at == index)
    ensures Settled(text, index, tokens)
  {
    if index < |text| {
      assert text[..index + 1] == text[..index] + [text[index]];
      RunSnoc(START, text[..index], text[index]);
    } else {
      assert text[..index] == text;
    }
  }

  /** A comment is silent up to its newline. */
  lemma {:induction false} RunComment(s: Lex, u: string)
    requires s.mode == Comment && s.word == "" && !HasNewline(u)
    ensures Run(s, u) == Lex(s.tokens, Comment, "", s.at + |u|)
  {
    if u != "" {
      var v := u[..|u| - 1];
      assert forall c :: c in v ==> c in u;
      RunComment(s, v);
      assert u[|u| - 1] in u;
    }
  }

  /** `text.find("\n", start)`, -1 when there is none. */
  function FindNewline(text: string, start: nat): (r: int)
    requires start <= |text|
    ensures r == -1 ==> !HasNewline(text[start..])
    ensures r != -1 ==> start <= r < |text| && text[r] == '\n' && !HasNewline(text[start..r])
    ensures (if r == -1 then |text| else r) == LineEnd(text, start)
    decreases |text| - start
  {
    if start == |text| then -1
    else if text[start] == '\n' then start
    else
      var r := FindNewline(text, start + 1);
      NewlineLater(text, start, r);
      r
  }

  lemma NewlineLater(text: string, start: nat, r: int)
    requires start < |text| && text[start] != '\n' && (r == -1 || start < r < |text|)
    ensures HasNewline(text[start..]) <==> HasNewline(text[start + 1..])
    ensures r != -1 ==> (HasNewline(text[start..r]) <==> HasNewline(text[start + 1..r]))
    ensures LineEnd(text, start) == LineEnd(text, start + 1)
  {
    assert text[start..] == [text[start]] + text[start + 1..];
    if r != -1 { assert text[start..r] == [text[start]] + text[start + 1..r]; }
  }

  lemma ReadOne(text: string, start: nat, index: nat)
    requires start <= index < |text|
    ensures Run(START, text[..index + 1]) == Step(Run(START, text[..index]), text[index])
    ensures text[start..index + 1] == text[start..index] + [text[index]]
  {
    assert text[..index + 1] == text[..index] + [text[index]];
    RunSnoc(START, text[..index], text[index]);
  }

  lemma SettledAfterComment(text: string, index: nat, newline: int, tokens: seq<Token>)
    requires index < |text| && text[index] == '#' && Settled(text, index, tokens)
    requires newline == FindNewline(text, index)
    ensures Settled(text, if newline == -1 then |text| else newline + 1, tokens)
  {
    hide Run, Step, LineEnd;
    var stop := if newline == -1 then |text| else newline;
    CommentBegins(tokens, index);
    CommentBody(text, index, stop, tokens);
    if newline != -1 {
      ReadOne(text, index, newline);
      CommentEnds(tokens, newline);
      SettledAfter(text, newline + 1, tokens);
    } else {
      SettledAfter(text, stop, tokens);
    }
  }

  lemma CommentBegins(tokens: seq<Token>, index: int)
    ensures Begin(tokens, index, '#') == Lex(tokens, Comment, "", index + 1)
  {}

  lemma CommentEnds(tokens: seq<Token>, at: int)
    ensures Step(Lex(tokens, Comment, "", at), '\n') == Lex(tokens, Gap, "", at + 1)
  {}

  lemma CommentBody(text: string, index: nat, stop: nat, tokens: seq<Token>)
    requires index < stop <= |text| && !HasNewline(text[index..stop])
    requires Run(START, text[..index + 1]) == Lex(tokens, Comment, "", index + 1)
    ensures Run(START, text[..stop]) == Lex(tokens, Comment, "", stop)
  {
    hide Step;
    var body := text[index + 1..stop];
    assert text[index..stop] == [text[index]] + body;
    RunComment(Run(START, text[..index + 1]), body);
    RunConcat(START, text[..index + 1], body);
    assert text[..index + 1] + body == text[..stop];
  }

  lemma ReadQuoted(text: string, start: nat, index: nat, tokens: seq<Token>, quote: char, escaped: bool)
    requires start < index < |text|
    requires Run(START, text[..index]) == Lex(tokens, Quoted(quote, escaped), text[start..index], index)
    ensures var c, word := text[index], text[start..index + 1];
      Run(START, text[..index + 1]) ==
        if !escaped && c != '\\' && c == quote
        then Lex(tokens + [Token(word, start, index + 1)], Gap, "", index + 1)
        else Lex(tokens, Quoted(quote, !escaped && c == '\\'), word, index + 1)
  {
    hide IsSpace;
    ReadOne(text, start, index);
  }

  /** Reads on to the closing quote; `closed` is false when the text ends first. */
  method ScanQuoted(text: string, start: nat, ghost tokens: seq<Token>) returns (index: nat, closed: bool)
    requires start < |text| && IsQuote(text[start])
    requires Run(START, text[..start + 1]) == Lex(tokens, Quoted(text[start], false), [text[start]], start + 1)
    ensures start < index <= |text|
    ensures closed ==>
      Run(START, text[..index]) == Lex(tokens + [Token(text[start..index], start, index)], Gap, "", index)
    ensures !closed ==> Run(START, text).mode.Quoted?
  {
    hide Step;
    assert text[start..start + 1] == [text[start]];
    var quote := text[start];
    index := start + 1;
    var escaped := false;
    while index < |text|
      invariant start < index <= |text|
      invariant Run(START, text[..index]) == Lex(tokens, Quoted(quote, escaped), text[start..index], index)
    {
      var current := text[index];
      ReadQuoted(text, start, index, tokens, quote, escaped);
      if escaped {
        escaped := false;
      } else if current == '\\' {
        escaped := true;
      } else if current == quote {
        return index + 1, true;
      }
      index := index + 1;
    }
    assert text[..index] == text;
    closed := false;
  }

  lemma ReadWord(text: string, start: nat, index: nat, tokens: seq<Token>, escaped: bool)
    requires start < index < |text|
    requires Run(START, text[..index]) == Lex(tokens, Word(escaped), text[start..index], index)
    requires escaped || text[index] == '\\' || !IsDelimiter(text[index])
    ensures Run(START, text[..index + 1])
         == Lex(tokens, Word(!escaped && text[index] == '\\'), text[start..index + 1], index + 1)
  {
    hide IsSpace;
    ReadOne(text, start, index);
  }

  /** Reads on to the end of an unquoted token: a delimiter that is not escaped, or the end of the text. */
  method ScanWord(text: string, start: nat, ghost tokens: seq<Token>) returns (index: nat)
    requires start < |text| && !IsDelimiter(text[start])
    requires Run(START, text[..start + 1]) == Lex(tokens, Word(text[start] == '\\'), [text[start]], start + 1)
    ensures start < index <= |text|
    ensures Settled(text, index, tokens + [Token(text[start..index], start, index)])
  {
    hide IsSpace, Step;
    index := start;
    var escaped := false;
    assert text[start..start + 1] == [text[start]];
    while index < |text|
      invariant start <= index <= |text|
      invariant index == start ==> !escaped
      invariant index > start ==> Run(START, text[..index]) == Lex(tokens, Word(escaped), text[start..index], index)
    {
      var current := text[index];
      if index > start && (escaped || current == '\\' || !IsDelimiter(current)) {
        ReadWord(text, start, index, tokens, escaped);
      }
      if escaped {
        escaped := false;
        index := index + 1;
        continue;
      }
      if current == '\\' {
        escaped := true;
        index := index + 1;
        continue;
      }
      if IsDelimiter(current) {
        break;
      }
      index := index + 1;
    }
    SettledAfter(text, index, tokens + [Token(text[start..index], start, index)]);
  }

  /** The tokenizer: returns the tokens of the machine, and its raise on unsupported syntax cannot be reached. */
  method Tokenize(text: string) returns (r: Result<seq<Token>>)
    ensures r == Tokens(text)
  {
    hide IsSpace;
    var tokens: seq<Token> := [];
    var index := 0;
    assert text[..0] == "";
    SettledAfter(text, 0, tokens);
    while index < |text|
      invariant index <= |text|
      invariant Settled(text, index, tokens)
    {
      var first := text[index];
      if IsSpace(first) {
        index := index + 1;
        SettledAfter(text, index, tokens);
        continue;
      }
      if first == '#' {
        var newline := FindNewline(text, index);
        SettledAfterComment(text, index, newline, tokens);
        index := if newline == -1 then |text| else newline + 1;
        continue;
      }
      if IsPunct(first) {
        tokens := tokens + [Token([first], index, index + 1)];
        index := index + 1;
        SettledAfter(text, index, tokens);
        continue;
      }
      var start := index;
      if IsQuote(first) {
        var closed;
        index, closed := ScanQuoted(text, start, tokens);
        if !closed {
          return Err(UnterminatedQuote);
        }
        tokens := tokens + [Token(text[start..index], start, index)];
        SettledAfter(text, index, tokens);
        continue;
      }
      index := ScanWord(text, start, tokens);
      assert start < index;  // the raise on unsupported syntax is dead code
      tokens := tokens + [Token(text[start..index], start, index)];
    }
    return Ok(tokens);
  }
}
