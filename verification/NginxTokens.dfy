module NginxTokens {

  // What the tokens of a text are: slices in order, silence between them, and the tokens of every prefix cut at a token.

  import opened PythonText
  import opened NginxText
  import opened NginxLexer

  // ----- The last word

  /** The result of the machine is its finished tokens and, when the text ends in an unquoted word, that word. */
  lemma LastWord(t: string)
    requires Tokens(t).Ok?
    ensures var s := Run(START, t); var n := |t| - |s.word|;
      && (!IsOpen(s) ==> Tokens(t).value == s.tokens)
      && (IsOpen(s) ==>
            && 0 <= n < |t| && s.word == t[n..|t|]
            && Tokens(t).value == s.tokens + [Token(s.word, n, |t|)]
            && Run(START, t[..n]) == Lex(s.tokens, Gap, "", n))
  {
    hide Run;
    OpenToken(t);
    assert t[|t| - |Run(START, t).word|..] == t[|t| - |Run(START, t).word|..|t|];
  }

  // ----- Slices

  /** The tokens of a text are slices of it, in order and disjoint, and each token's value is its slice. */
  lemma TokensAreSlices(t: string)
    requires Tokens(t).Ok?
    ensures Slices(Tokens(t).value, t)
  {
    hide Run, Slices, Tokens;
    LastWord(t);
    RunSlices(t);
    var s := Run(START, t);
    if IsOpen(s) { SlicesSnoc(s.tokens, t, Token(s.word, |t| - |s.word|, |t|)); }
  }

  // ----- Silence

  /** The character is read inside a comment. */
  ghost predicate InComment(t: string, k: nat)
    requires k <= |t|
  {
    Run(START, t[..k]).mode == Comment
  }

  /** The character opens a comment. */
  ghost predicate StartsComment(t: string, j: nat)
    requires j < |t|
  {
    t[j] == '#' && !InComment(t, j) && InComment(t, j + 1)
  }

  /** Every character outside the tokens of a text is whitespace, opens a comment, or stands in one. */
  lemma SilentBetweenTokens(t: string, k: nat)
    requires Tokens(t).Ok? && k < |t| && Outside(Tokens(t).value, k)
    ensures IsSpace(t[k]) || StartsComment(t, k) || InComment(t, k)
  {
    hide Run, Tokens, IsSpace, StartsComment;
    LastWord(t);
    var s := Run(START, t);
    if IsOpen(s) {
      var n := |t| - |s.word|;
      assert Tokens(t).value[|s.tokens|] in Tokens(t).value;
      forall x | x in s.tokens ensures x in Tokens(t).value {}
      SilentOutsideTokens(t[..n], k);
      assert t[..n][..k] == t[..k] && t[..n][..k + 1] == t[..k + 1];
    } else {
      SilentOutsideTokens(t, k);
    }
    if t[k] == '#' && !InComment(t, k) { HashOpensComment(t, k); }
  }

  lemma HashOpensComment(t: string, k: nat)
    requires k < |t| && t[k] == '#' && !InComment(t, k) && !IsOpen(Run(START, t[..k + 1]))
    ensures StartsComment(t, k)
  {
    hide IsSpace;
    assert t[..k + 1] == t[..k] + [t[k]];
    RunSnoc(START, t[..k], t[k]);
    OpenTokenStart(t[..k]);
    HashIsNoSpace();
  }

  lemma HashIsNoSpace()
    ensures !IsSpace('#')
  {}

  ghost predicate CommentSince(t: string, j: nat, k: nat)
    requires k <= |t|
  {
    j < k && StartsComment(t, j) && !HasNewline(t[j..k])
  }

  /** A comment reaches from its `#` to the end of the line. */
  lemma {:induction false} CommentsReach(t: string, k: nat)
    requires k <= |t|
    ensures InComment(t, k) <==> exists j :: CommentSince(t, j, k)
    decreases k
  {
    hide InComment, HasNewline;
    if k == 0 {
      NoCommentYet(t);
    } else {
      CommentsReach(t, k - 1);
      forall j: nat | j < k - 1 ensures CommentSince(t, j, k) <==> CommentSince(t, j, k - 1) && t[k - 1] != '\n' {
        LongerLine(t, j, k);
      }
      CommentStep(t, k);
      if InComment(t, k) && InComment(t, k - 1) {
        var j :| CommentSince(t, j, k - 1);
        assert CommentSince(t, j, k);
      } else if InComment(t, k) {
        assert CommentSince(t, k - 1, k);
      }
    }
  }

  lemma NoCommentYet(t: string)
    ensures !InComment(t, 0)
  {
    assert t[..0] == "";
  }

  lemma LongerLine(t: string, j: nat, k: nat)
    requires j < k - 1 && k <= |t|
    ensures HasNewline(t[j..k]) <==> HasNewline(t[j..k - 1]) || t[k - 1] == '\n'
  {
    assert t[j..k] == t[j..k - 1] + [t[k - 1]];
  }

  /** One more character: a comment goes on unless the line ends, and begins at a `#`. */
  lemma CommentStep(t: string, k: nat)
    requires 0 < k <= |t|
    ensures InComment(t, k - 1) ==> (InComment(t, k) <==> t[k - 1] != '\n')
    ensures InComment(t, k) && !InComment(t, k - 1) ==> StartsComment(t, k - 1) && !HasNewline(t[k - 1..k])
  {
    assert t[..k] == t[..k - 1] + [t[k - 1]];
    RunSnoc(START, t[..k - 1], t[k - 1]);
    assert t[k - 1..k] == [t[k - 1]];
  }

  // ----- Prefixes

  /** The text up to where a token starts has the tokens before it, and the text up to where it ends has that one more.
      */
  ghost predicate CutsAt(tokens: seq<Token>, i: nat, t: string)
    requires i < |tokens|
  {
    var k := tokens[i];
    && 0 <= k.start < k.end <= |t|
    && Tokens(t[..k.start]) == Ok(tokens[..i])
    && Tokens(t[..k.end]) == Ok(tokens[..i + 1])
  }

  /** The tokens of one step, with the open token behind which it is read. */
  lemma StepTokens(s: Lex, c: char)
    ensures var r := Step(s, c); var ended := Token(s.word, s.at - |s.word|, s.at);
      || r.tokens == s.tokens
      || (!IsOpen(s) && r.tokens == s.tokens + [Token([c], s.at, s.at + 1)] && r.mode == Gap)
      || (s.mode.Quoted? && r.tokens == s.tokens + [Token(s.word + [c], s.at - |s.word|, s.at + 1)] && r.mode == Gap)
      || (s.mode.Word? && r.tokens == s.tokens + [ended])
      || (s.mode.Word? && r.tokens == s.tokens + [ended] + [Token([c], s.at, s.at + 1)] && r.mode == Gap)
  {
    hide IsSpace;
  }

  lemma NewTokensCut(t: string, i: nat)
    requires t != "" && |Run(START, t[..|t| - 1]).tokens| <= i < |Run(START, t).tokens|
    ensures CutsAt(Run(START, t).tokens, i, t)
  {
    hide Run, Step, Tokens;
    var u, c := t[..|t| - 1], t[|t| - 1];
    var b, s := Run(START, u), Run(START, t);
    assert t == u + [c] && t[..|t|] == t && t[..|u|] == u;
    RunSnoc(START, u, c);
    OpenToken(u);
    OpenToken(t);
    StepTokens(b, c);
    Finishes(u);
    Finishes(t);
    assert s.tokens[..|b.tokens|] == b.tokens && s.tokens[..|s.tokens|] == s.tokens;
    if IsOpen(b) {
      var n := |u| - |b.word|;
      assert t[..n] == u[..n];
      GapFinishes(u[..n], b.tokens);
      assert |s.tokens| == |b.tokens| + 2 ==> s.tokens[..|b.tokens| + 1] == b.tokens + [Token(b.word, n, |u|)];
    }
  }

  /** What the machine returns, by its mode. */
  lemma Finishes(t: string)
    ensures var s := Run(START, t);
      && (!IsOpen(s) ==> Tokens(t) == Ok(s.tokens))
      && (s.mode.Word? ==> Tokens(t) == Ok(s.tokens + [Token(s.word, s.at - |s.word|, s.at)]))
  {
    hide Run;
  }

  lemma {:induction false} FinishedTokensCut(t: string, i: nat)
    requires i < |Run(START, t).tokens|
    ensures CutsAt(Run(START, t).tokens, i, t)
  {
    hide Step, Tokens;
    if t != "" {
      var u, c := t[..|t| - 1], t[|t| - 1];
      var b, s := Run(START, u), Run(START, t);
      assert t == u + [c];
      OpenToken(u);
      StepShape(b, c);
      if i < |b.tokens| {
        FinishedTokensCut(u, i);
        var k := b.tokens[i];
        assert t[..k.end] == u[..k.end] && t[..k.start] == u[..k.start];
        assert s.tokens[..i] == b.tokens[..i] && s.tokens[..i + 1] == b.tokens[..i + 1];
      } else {
        NewTokensCut(t, i);
      }
    }
  }

  /** Cutting a text at any of its tokens, in front of it or behind it, gives the tokens so far. */
  lemma TokensOfPrefix(t: string, i: nat)
    requires Tokens(t).Ok? && i < |Tokens(t).value|
    ensures CutsAt(Tokens(t).value, i, t)
  {
    hide Run, Tokens;
    LastWord(t);
    var s := Run(START, t);
    var tokens := Tokens(t).value;
    if i < |s.tokens| {
      FinishedTokensCut(t, i);
      assert tokens[..i] == s.tokens[..i] && tokens[..i + 1] == s.tokens[..i + 1];
    } else {
      var n := |t| - |s.word|;
      assert tokens[..i] == s.tokens && tokens[..i + 1] == tokens && t[..|t|] == t;
      GapFinishes(t[..n], s.tokens);
    }
  }

  lemma GapFinishes(t: string, tokens: seq<Token>)
    requires Run(START, t) == Lex(tokens, Gap, "", |t|)
    ensures Tokens(t) == Ok(tokens)
  {}
}
