module NginxUnique {

  // A text has only one well-formed document.

  import opened NginxLexer
  import opened NginxParser
  import opened NginxDocument
  import opened NginxRemoval
  import opened NginxMeaning

  /** What the node of a statement says about it. */
  lemma NodeTells(s: Stmt, at: int)
    requires Reads(s)
    ensures NodeOf(s, at).Start() == at + |s.gap| && NodeOf(s, at).term.end == at + |s.gap| + |s.raw|
    ensures NodeOf(s, at).term.value != "" && ItemOf(NodeOf(s, at)) == View(s)
  {
    hide Run, Values, NoMarks;
    ItemOfNode(s, at);
  }

  lemma SameFirst(s: Stmt, t: Stmt, at: int, x: string, y: string)
    requires Reads(s) && Reads(t) && NodeOf(s, at) == NodeOf(t, at)
    requires s.gap + s.raw + x == t.gap + t.raw + y
    ensures s == t && x == y
  {
    hide NodeOf, Reads;
    NodeTells(s, at);
    NodeTells(t, at);
    var text := s.gap + s.raw + x;
    assert |s.gap| == |t.gap| && |s.raw| == |t.raw|;
    assert text[..|s.gap|] == s.gap && text[..|t.gap|] == t.gap;
    assert text[|s.gap|..|s.gap| + |s.raw|] == s.raw && text[|t.gap|..|t.gap| + |t.raw|] == t.raw;
    assert text[|s.gap| + |s.raw|..] == x && text[|t.gap| + |t.raw|..] == y;
  }

  lemma {:induction false} SameDocument(ss: seq<Stmt>, ts: seq<Stmt>, at: int, x: string, y: string)
    requires Readable(ss) && Readable(ts) && NodesOf(ss, at) == NodesOf(ts, at)
    requires Render(ss) + x == Render(ts) + y
    ensures ss == ts && x == y
    decreases |ss|
  {
    hide Reads, NodeOf;
    if ss == [] {
      assert ts == [] by { NoNodes(ts, at); }
      assert Render(ss) + x == x && Render(ts) + y == y;
    } else {
      assert ts != [] by { if ts == [] { NoNodes(ss, at); } }
      var s, t, ss1, ts1 := ss[0], ts[0], ss[1..], ts[1..];
      var here := at + |s.gap| + |s.raw|;
      assert NodesOf(ss, at)[0] == NodeOf(s, at) && NodesOf(ts, at)[0] == NodeOf(t, at);
      assert Render(ss) + x == s.gap + s.raw + (Render(ss1) + x);
      assert Render(ts) + y == t.gap + t.raw + (Render(ts1) + y);
      SameFirst(s, t, at, Render(ss1) + x, Render(ts1) + y);
      assert NodesOf(ss, at)[1..] == NodesOf(ss1, here) && NodesOf(ts, at)[1..] == NodesOf(ts1, here);
      SameDocument(ss1, ts1, here, x, y);
      assert ss == [s] + ss1 && ts == [t] + ts1;
    }
  }

  lemma {:induction false} NoNodes(ss: seq<Stmt>, at: int)
    requires Readable(ss)
    ensures NodesOf(ss, at) == [] <==> ss == []
  {
    hide NodeOf, Reads;
  }

  /** Documents with the same text are the same. */
  lemma DocumentsDiffer(c: Doc, d: Doc)
    requires WellFormed(OUTSIDE, c.stmts, c.tail) && WellFormed(OUTSIDE, d.stmts, d.tail)
    ensures RenderDoc(c) == RenderDoc(d) <==> c == d
  {
    hide WellFormed, Nodes, NodesOf, Readable;
    ParseDocument(c.stmts, c.tail);
    ParseDocument(d.stmts, d.tail);
    if RenderDoc(c) == RenderDoc(d) {
      SameDocument(c.stmts, d.stmts, 0, c.tail, d.tail);
    }
  }
}
