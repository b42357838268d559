/** Whitespace and comments between statements: how they fall into lines, and which pieces of them are gaps again. */
module NginxGaps {
  import opened PythonText
  import opened NginxText
  import opened NginxLexer
  import opened NginxParser
  import opened NginxDocument

  lemma GapIsStart(g: string)
    requires GapText(g)
    ensures Run(START, g) == Lex([], Gap, "", |g|)
  {
    hide Step;
    RunAt(START, g);
    GapHasNoWord(START, g);
  }

  lemma GapConcat(a: string, b: string)
    requires GapText(a)
    ensures GapText(b) <==> GapText(a + b)
    ensures TailOk(b) <==> TailOk(a + b)
  {
    hide Step, Run, SecurityRelevant;
    GapIsStart(a);
    RunSplice(a, b);
    FinishRebase([], |a|, Run(START, b));
    var s := Run(START, b);
    assert [] + Shift(s.tokens, |a|) == Shift(s.tokens, |a|);
    if Finish(s).Ok? {
      var ts, us := Finish(s).value, Finish(Run(START, a + b)).value;
      assert us == [] + Shift(ts, |a|) == Shift(ts, |a|);
      SameValues(ts, us);
    }
  }

  lemma SameValues(ts: seq<Token>, us: seq<Token>)
    requires |ts| == |us| && forall i :: 0 <= i < |ts| ==> ts[i].value == us[i].value
    ensures NoMarks(ts) <==> NoMarks(us)
    ensures SecurityRelevant(ts) <==> SecurityRelevant(us)
  {
    SameValuesOneWay(ts, us);
    SameValuesOneWay(us, ts);
  }

  lemma SameValuesOneWay(ts: seq<Token>, us: seq<Token>)
    requires |ts| == |us| && forall i :: 0 <= i < |ts| ==> ts[i].value == us[i].value
    ensures NoMarks(ts) ==> NoMarks(us)
    ensures SecurityRelevant(ts) ==> SecurityRelevant(us)
  {
    if NoMarks(ts) {
      forall k | k in us ensures !IsMark(k.value) {
        var i :| 0 <= i < |us| && us[i] == k;
        assert ts[i] in ts;
      }
    }
    if SecurityRelevant(ts) {
      var k :| k in ts && (k.value == "server" || k.value == "access_log" || k.value == "include");
      var i :| 0 <= i < |ts| && ts[i] == k;
      assert us[i] in us;
    }
  }

  lemma {:induction false} BlankIsGap(s: string)
    requires Blank(s)
    ensures GapText(s)
  {
    if s != "" {
      var t := s[..|s| - 1];
      assert forall c :: c in t ==> c in s;
      BlankIsGap(t);
      GapIsStart(t);
      assert s[|s| - 1] in s;
    }
  }

  /** A text read without a token holds none in its prefixes. */
  lemma {:induction false} LoosePrefix(s: string, n: nat)
    requires n <= |s| && Loose(Run(START, s))
    ensures Loose(Run(START, s[..n]))
    decreases |s|
  {
    if n == |s| {
      assert s[..n] == s;
    } else {
      var t := s[..|s| - 1];
      LooseBefore(t, s[|s| - 1]);
      assert t + [s[|s| - 1]] == s;
      LoosePrefix(t, n);
      assert t[..n] == s[..n];
    }
  }

  lemma LooseBefore(t: string, c: char)
    requires Loose(Run(START, t + [c]))
    ensures Loose(Run(START, t))
  {
    RunSnoc(START, t, c);
    OpenToken(t);
    StepShape(Run(START, t), c);
  }

  lemma LooseNewline(t: string)
    requires Loose(Run(START, t + ['\n']))
    ensures GapText(t + ['\n'])
  {
    LooseBefore(t, '\n');
    RunSnoc(START, t, '\n');
  }

  /** In a gap, what follows the last newline is whitespace, and what is before it is a gap. */
  lemma GapLines(g: string)
    requires GapText(g)
    ensures Blank(LastLine(g)) && GapText(ThroughNewline(g))
    ensures !HasNewline(g) ==> Blank(g)
  {
    hide Run;
    LastSplit(g);
    LastLineBlank(g);
    var t := ThroughNewline(g);
    if HasNewline(g) {
      assert t == t[..|t| - 1] + ['\n'];
      assert g[..|t|] == t;
      LoosePrefix(g, |t|);
      LooseNewline(t[..|t| - 1]);
    } else {
      BlankIsGap("");
    }
  }

  lemma {:induction false} LastLineBlank(g: string)
    requires GapText(g)
    ensures Blank(LastLine(g))
  {
    if g != "" && g[|g| - 1] != '\n' {
      var t, c := g[..|g| - 1], g[|g| - 1];
      assert t + [c] == g;
      LooseBefore(t, c);
      LastGapCharacter(t, c);
      LastLineBlank(t);
      BlankConcat(LastLine(t), [c]);
    }
  }

  lemma LastGapCharacter(t: string, c: char)
    requires GapText(t + [c]) && c != '\n'
    ensures GapText(t) && Blank([c])
  {
    RunSnoc(START, t, c);
    LooseBefore(t, c);
  }

  /** In a gap with a newline, what precedes the first newline is whitespace or begins with a comment. */
  lemma GapHead(g: string)
    requires GapText(g) && HasNewline(g)
    ensures var h := Head(g); Blank(h) || (StripLeft(h) != "" && StripLeft(h)[0] == '#')
    ensures Blank(Head(g)) ==> GapText(AfterNewline(g))
  {
    hide Run;
    var h, r := Head(g), AfterNewline(g);
    HeadSplit(g);
    assert g == h + (['\n'] + r);
    assert g[..|h|] == h;
    LoosePrefix(g, |h|);
    LooseStart(h);
    if Blank(h) {
      assert Blank(h + ['\n']) by { BlankConcat(h, ['\n']); }
      BlankIsGap(h + ['\n']);
      assert h + ['\n'] + r == g;
      GapConcat(h + ['\n'], r);
    }
  }

  lemma {:induction false} LooseStart(h: string)
    requires Loose(Run(START, h))
    ensures Blank(h) || (StripLeft(h) != "" && StripLeft(h)[0] == '#')
  {
    if h != "" {
      var c, r := h[0], h[1..];
      assert h == [c] + r;
      assert h[..1] == [c];
      LoosePrefix(h, 1);
      RunOne(START, c);
      if IsSpace(c) {
        BlankIsGap([c]);
        LooseTail([c], r);
        LooseStart(r);
        BlankConcat([c], r);
      }
    }
  }

  lemma LooseTail(a: string, b: string)
    requires GapText(a) && Loose(Run(START, a + b))
    ensures Loose(Run(START, b))
  {
    hide Run;
    GapIsStart(a);
    RunSplice(a, b);
  }

  /** The tail after a blank first line. */
  lemma TailHead(tail: string)
    requires TailOk(tail) && Blank(Head(tail))
    ensures TailOk(AfterNewline(tail))
  {
    hide Run, TailOk;
    HeadSplit(tail);
    var h, r := Head(tail), AfterNewline(tail);
    if HasNewline(tail) {
      BlankConcat(h, ['\n']);
      BlankIsGap(h + ['\n']);
      assert h + ['\n'] + r == tail;
      GapConcat(h + ['\n'], r);
    } else {
      BlankIsGap(tail);
      GapConcat(tail, "");
      assert tail + "" == tail;
    }
  }

  /** The rest of a gap after its first newline, up to its last. */
  lemma ThroughAfter(g: string)
    requires HasNewline(g)
    ensures |Head(g)| + 1 <= |ThroughNewline(g)| <= |g|
    ensures g[|Head(g)| + 1..] == AfterNewline(g)
    ensures g[|Head(g)| + 1..|ThroughNewline(g)|] == ThroughNewline(AfterNewline(g))
    ensures LastLine(g) == LastLine(AfterNewline(g))
  {
    HeadSplit(g);
    LastSplit(g);
    var h, r := Head(g) + "\n", AfterNewline(g);
    assert g == h + r;
    LastConcat(h, r);
    LastSplit(r);
    LastSplit(h);
    assert HasNewline(h) by { assert h[|h| - 1] == '\n'; }
    if HasNewline(r) {
      assert ThroughNewline(g) == h + ThroughNewline(r);
    } else {
      assert ThroughNewline(h) == h;
    }
  }
}
