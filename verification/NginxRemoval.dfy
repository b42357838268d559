module NginxRemoval {

  // Deleting directives from a text: spans computed on the original text, excised together, equal to dropping the
  // statements from the document.

  import opened PythonText
  import opened NginxText
  import opened NginxLexer
  import opened NginxParser
  import opened NginxDocument
  import opened NginxGaps

  /** What selection rules look at: a directive's name, argument texts and block chain. */
  datatype Shape = Shape(name: string, arguments: seq<string>, blocks: seq<nat>)

  function ShapeOf(d: Directive): Shape { Shape(d.name, Values(d.arguments), d.blocks) }

  function Select(ds: seq<Directive>, p: Shape -> bool): seq<Directive> {
    if ds == [] then [] else (if p(ShapeOf(ds[0])) then [ds[0]] else []) + Select(ds[1..], p)
  }

  datatype Span = Span(start: int, end: int)

  /** `_directive_removal_span`: the whole lines of a directive that stands alone on them, else just its own text. */
  function RemovalSpan(text: string, d: Directive): Span {
    var lineStart := LineStart(text, d.start);
    var newline := LineEnd(text, d.end);
    var lineEnd := if newline == |text| then |text| else newline + 1;
    if Blank(Mid(text, lineStart, d.start)) && Blank(Mid(text, d.end, newline)) then Span(lineStart, lineEnd)
    else Span(d.start, d.end)
  }

  function Spans(text: string, ds: seq<Directive>): seq<Span> {
    if ds == [] then [] else [RemovalSpan(text, ds[0])] + Spans(text, ds[1..])
  }

  /** The text from `from` on without the spans, all taken out at once. */
  function Excise(text: string, spans: seq<Span>, from: int): string {
    if spans == [] then From(text, from) else Mid(text, from, spans[0].start) + Excise(text, spans[1..], spans[0].end)
  }

  // ----- The same on documents

  predicate IsDirective(s: Stmt) { s.term == ';' && s.words != [] }

  function StmtShape(s: Stmt): Shape
    requires IsDirective(s)
  {
    Shape(s.name, s.words[1..], s.chain)
  }

  predicate Picked(s: Stmt, p: Shape -> bool) { IsDirective(s) && p(StmtShape(s)) }

  /** The rest of the line after a statement is blank. */
  predicate RestBlank(rest: seq<Stmt>, tail: string) {
    if rest == [] then Blank(Head(tail)) else HasNewline(rest[0].gap) && Blank(Head(rest[0].gap))
  }

  predicate Alone(ss: seq<Stmt>, tail: string, first: bool)
    requires ss != []
  {
    (first || HasNewline(ss[0].gap)) && RestBlank(ss[1..], tail)
  }

  datatype Doc = Doc(stmts: seq<Stmt>, tail: string)

  /** The document without the picked statements. `carry` is gap text kept from statements already dropped, and `eaten`
      says that the line break before this point went with one of them. */
  function Cut(ss: seq<Stmt>, tail: string, p: Shape -> bool, first: bool, carry: string, eaten: bool): Doc {
    if ss == [] then Doc([], carry + (if eaten then AfterNewline(tail) else tail))
    else
      var s := ss[0];
      var g := if eaten then AfterNewline(s.gap) else s.gap;
      if !Picked(s, p) then
        var d := Cut(ss[1..], tail, p, false, "", false);
        Doc([s.(gap := carry + g)] + d.stmts, d.tail)
      else if Alone(ss, tail, first) then Cut(ss[1..], tail, p, false, carry + ThroughNewline(g), true)
      else Cut(ss[1..], tail, p, false, carry + g, false)
  }

  function RenderDoc(d: Doc): string { Render(d.stmts) + d.tail }

  // ----- The directives of a document

  function DirectiveAt(s: Stmt, at: int): Directive
    requires Reads(s) && s.words != []
  {
    Directive(s.name, StmtTokens(s, at)[1..|s.words|], at + |s.gap|, at + |s.gap| + |s.raw|, s.chain)
  }

  function DocDirectives(ss: seq<Stmt>, at: int): seq<Directive>
    requires Readable(ss)
  {
    if ss == [] then []
    else
      (if IsDirective(ss[0]) then [DirectiveAt(ss[0], at)] else [])
      + DocDirectives(ss[1..], at + |ss[0].gap| + |ss[0].raw|)
  }

  lemma {:induction false} DirectivesConcat(a: seq<Node>, b: seq<Node>)
    ensures DirectivesOf(a + b) == DirectivesOf(a) + DirectivesOf(b)
    ensures BlocksOf(a + b) == BlocksOf(a) + BlocksOf(b)
  {
    if b == [] {
      assert a + b == a;
    } else {
      assert (a + b)[..|a + b| - 1] == a + b[..|b| - 1];
      DirectivesConcat(a, b[..|b| - 1]);
    }
  }

  lemma DirectiveOfNode(s: Stmt, at: int)
    requires Reads(s)
    ensures DirectivesOf([NodeOf(s, at)]) == if IsDirective(s) then [DirectiveAt(s, at)] else []
  {
    hide Run;
    var n := NodeOf(s, at);
    SplitStmt(s, at);
    MarkOf(s.term);
    assert [n][..0] == [];
    assert DirectivesOf([n][..0]) == [];
    if IsDirective(s) {
      var ts := StmtTokens(s, at);
      assert ts[..|s.words|][1..] == ts[1..|s.words|];
    }
  }

  lemma {:induction false} DirectivesOfDocument(ss: seq<Stmt>, at: int)
    requires Readable(ss)
    ensures DirectivesOf(NodesOf(ss, at)) == DocDirectives(ss, at)
    decreases |ss|
  {
    hide Reads, DirectiveAt, NodeOf;
    if ss == [] {
    } else {
      var here := at + |ss[0].gap| + |ss[0].raw|;
      DirectiveOfNode(ss[0], at);
      DirectivesOfDocument(ss[1..], here);
      DirectivesConcat([NodeOf(ss[0], at)], NodesOf(ss[1..], here));
    }
  }

  lemma ShapeOfDirective(s: Stmt, at: int)
    requires Reads(s) && IsDirective(s)
    ensures ShapeOf(DirectiveAt(s, at)) == StmtShape(s)
  {
    hide Run;
    var own, n := Run(START, s.raw).tokens, |s.words|;
    var ts := StmtTokens(s, at);
    ValuesIndex(own[..n]);
    ValuesIndex(ts[1..n]);
    assert forall i :: 0 <= i < n - 1 ==> Values(ts[1..n])[i] == s.words[1..][i];
  }

  // ----- One removal span

  /** The text before a position ends the previous statement, or is empty. */
  predicate EndsStmt(b: string) { b == "" || IsPunct(b[|b| - 1]) }

  lemma BeforeBlank(b: string, gap: string)
    requires EndsStmt(b) && GapText(gap)
    ensures Blank(LastLine(b + gap)) <==> b == "" || HasNewline(gap)
    ensures HasNewline(gap) || b == "" ==> LastLine(b + gap) == LastLine(gap)
  {
    hide Run, GapText, Blank, HasNewline, LastLine, ThroughNewline;
    LastConcat(b, gap);
    GapLines(gap);
    if HasNewline(gap) {
    } else if b == "" {
      assert b + gap == gap;
      LastSplit(gap);
    } else {
      LastNotBlank(b, gap);
    }
  }

  lemma PunctNotSpace(c: char)
    requires IsPunct(c)
    ensures !IsSpace(c) && c != '\n' && c != '#'
  {}

  lemma LastNotBlank(b: string, gap: string)
    requires b != "" && IsPunct(b[|b| - 1])
    ensures !Blank(LastLine(b) + gap)
  {
    hide IsSpace, IsPunct;
    var n := |b| - 1;
    PunctNotSpace(b[n]);
    var line := LastLine(b[..n]);
    assert LastLine(b) == line + [b[n]];
    var t := LastLine(b) + gap;
    assert t[|line|] == b[n] && t[|line|] in t;
  }

  /** The first characters of a statement show on its line. */
  lemma RawNotBlank(gap: string, raw: string, rest: string)
    requires raw != "" && !IsSpace(raw[0]) && !HasNewline(gap)
    ensures !Blank(Head(gap + raw + rest))
  {
    HeadConcat(gap, raw + rest);
    assert gap + raw + rest == gap + (raw + rest);
    assert (raw + rest)[0] == raw[0];
    assert raw[0] in Head(raw + rest);
  }

  lemma AfterBlank(rest: seq<Stmt>, tail: string)
    requires Readable(rest)
    ensures Blank(Head(Render(rest) + tail)) <==> RestBlank(rest, tail)
    ensures RestBlank(rest, tail) && rest != [] ==> Head(Render(rest) + tail) == Head(rest[0].gap)
  {
    hide Run;
    if rest == [] {
      assert Render(rest) + tail == tail;
    } else {
      var s, more := rest[0], Render(rest[1..]) + tail;
      assert Render(rest) + tail == s.gap + s.raw + more;
      if HasNewline(s.gap) {
        assert s.gap + s.raw + more == s.gap + (s.raw + more);
        HeadConcat(s.gap, s.raw + more);
      } else {
        RawNotBlank(s.gap, s.raw, more);
      }
    }
  }

  /** How much of the text after a whole-line removal goes with it. */
  function Eaten(rest: seq<Stmt>, tail: string): nat {
    var h := if rest == [] then tail else rest[0].gap;
    if HasNewline(h) then |Head(h)| + 1 else |h|
  }

  lemma EatenBound(rest: seq<Stmt>, tail: string)
    ensures Eaten(rest, tail) <= |if rest == [] then tail else rest[0].gap|
    ensures (if rest == [] then tail else rest[0].gap)[Eaten(rest, tail)..]
         == AfterNewline(if rest == [] then tail else rest[0].gap)
  {
    HeadSplit(if rest == [] then tail else rest[0].gap);
  }

  /** The removal span in terms of the text before, the directive, and the text after. */
  lemma SpanOfParts(before: string, raw: string, after: string, d: Directive)
    requires d.start == |before| && d.end == |before| + |raw|
    ensures RemovalSpan(before + raw + after, d) ==
      if Blank(LastLine(before)) && Blank(Head(after))
      then Span(|before| - |LastLine(before)|,
                d.end + (if |Head(after)| == |after| then |after| else |Head(after)| + 1))
      else Span(d.start, d.end)
  {
    hide Blank, Upto, From, Mid, Head, LastLine;
    var text := before + raw + after;
    SliceOfConcat(before, raw, after);
    assert text[..|before|] == before;
    MidLast(text, before);
    MidHead(before + raw, after);
    LastSplit(before);
    HeadSplit(after);
  }

  lemma SpanOfStmt(b: string, s: Stmt, rest: seq<Stmt>, tail: string)
    requires EndsStmt(b) && Reads(s) && IsDirective(s) && Readable(rest)
    ensures RemovalSpan(b + s.gap + s.raw + (Render(rest) + tail), DirectiveAt(s, |b|)) ==
      if (b == "" || HasNewline(s.gap)) && RestBlank(rest, tail)
      then Span(|b| + |ThroughNewline(s.gap)|, |b| + |s.gap| + |s.raw| + Eaten(rest, tail))
      else Span(|b| + |s.gap|, |b| + |s.gap| + |s.raw|)
  {
    hide Run, LexesAs, GapText, DirectiveAt, RemovalSpan, Blank, RestBlank, Eaten, Render, Head;
    DirectiveOffsets(s, |b|);
    SpanOfParts(b + s.gap, s.raw, Render(rest) + tail, DirectiveAt(s, |b|));
    BeforeBlank(b, s.gap);
    AfterBlank(rest, tail);
    if (b == "" || HasNewline(s.gap)) && RestBlank(rest, tail) {
      LastSplit(s.gap);
      HeadEnd(rest, tail);
    }
  }

  lemma DirectiveOffsets(s: Stmt, at: int)
    requires Reads(s) && s.words != []
    ensures DirectiveAt(s, at).start == at + |s.gap| && DirectiveAt(s, at).end == at + |s.gap| + |s.raw|
  {}

  lemma MidLast(text: string, before: string)
    requires |before| <= |text| && text[..|before|] == before
    ensures Mid(text, LineStart(text, |before|), |before|) == LastLine(before)
  {
    assert Upto(text, |before|) == before;
    LastSplit(before);
  }

  lemma MidHead(before: string, after: string)
    ensures var text := before + after; Mid(text, |before|, LineEnd(text, |before|)) == Head(after)
  {
    var text := before + after;
    assert From(text, |before|) == after;
    HeadSplit(after);
    var h := Head(after);
    assert after[..|h|] == h;
    assert Upto(text, |before| + |h|) == before + h;
  }

  lemma HeadEnd(rest: seq<Stmt>, tail: string)
    requires RestBlank(rest, tail) && Readable(rest)
    ensures var after := Render(rest) + tail;
      if |Head(after)| == |after| then Eaten(rest, tail) == |after| else Eaten(rest, tail) == |Head(after)| + 1
  {
    hide Run, LexesAs;
    var after := Render(rest) + tail;
    AfterBlank(rest, tail);
    if rest == [] {
      assert after == tail;
      HeadSplit(tail);
    } else {
      HeadSplit(rest[0].gap);
    }
  }

  // ----- All removal spans at once

  /** The spans of the picked directives of a document. */
  function PickedSpans(text: string, ss: seq<Stmt>, at: int, p: Shape -> bool): seq<Span>
    requires Readable(ss)
  {
    Spans(text, Select(DocDirectives(ss, at), p))
  }

  lemma SelectCons(d: Directive, ds: seq<Directive>, p: Shape -> bool)
    ensures Select([d] + ds, p) == if p(ShapeOf(d)) then [d] + Select(ds, p) else Select(ds, p)
  {
    assert ([d] + ds)[1..] == ds;
    assert [] + Select(ds, p) == Select(ds, p);
  }

  lemma SpansCons(text: string, d: Directive, ds: seq<Directive>)
    ensures Spans(text, [d] + ds) == [RemovalSpan(text, d)] + Spans(text, ds)
  {
    hide RemovalSpan;
    assert ([d] + ds)[1..] == ds;
  }

  lemma PickedFirst(text: string, ss: seq<Stmt>, at: int, p: Shape -> bool)
    requires ss != [] && Readable(ss)
    ensures var rest := PickedSpans(text, ss[1..], at + |ss[0].gap| + |ss[0].raw|, p);
      PickedSpans(text, ss, at, p) ==
        if Picked(ss[0], p) then [RemovalSpan(text, DirectiveAt(ss[0], at))] + rest else rest
  {
    hide Reads, RemovalSpan, DirectiveAt, Select, Spans, ShapeOf;
    var s := ss[0];
    var ds := DocDirectives(ss[1..], at + |s.gap| + |s.raw|);
    if IsDirective(s) {
      ShapeOfDirective(s, at);
      SelectCons(DirectiveAt(s, at), ds, p);
      SpansCons(text, DirectiveAt(s, at), Select(ds, p));
    } else {
      assert DocDirectives(ss, at) == [] + ds == ds;
    }
  }

  /** Spans ascend without touching the text before `from`. */
  predicate Ascending(spans: seq<Span>, from: int, limit: int) {
    if spans == [] then from <= limit
    else from <= spans[0].start <= spans[0].end && Ascending(spans[1..], spans[0].end, limit)
  }

  lemma AscendingFrom(spans: seq<Span>, from: int, to: int, limit: int)
    requires Ascending(spans, to, limit) && from <= to
    ensures Ascending(spans, from, limit)
  {}

  /** The picked spans are disjoint and ordered: those of a document lie between its own offsets, and a whole-line span
      leaves the line break before it to the span that ends there. */
  lemma {:induction false} SpansAscend(b: string, ss: seq<Stmt>, tail: string, p: Shape -> bool)
    requires EndsStmt(b) && Readable(ss)
    ensures var text := b + (Render(ss) + tail);
      && Ascending(PickedSpans(text, ss, |b|, p), |b|, |text|)
      && (RestBlank(ss, tail) ==> Ascending(PickedSpans(text, ss, |b|, p), |b| + Eaten(ss, tail), |text|))
    decreases |ss|
  {
    hide Reads, RemovalSpan, DirectiveAt, PickedSpans, EndsStmt, Eaten, RestBlank, ThroughNewline;
    var text := b + (Render(ss) + tail);
    if ss == [] {
      NoSpans(text, |b|, p);
      EatenBound(ss, tail);
    } else {
      var s, rest := ss[0], ss[1..];
      var next := b + s.gap + s.raw;
      NextEndsStmt(b, s);
      assert text == next + (Render(rest) + tail);
      SpansAscend(next, rest, tail, p);
      PickedFirst(text, ss, |b|, p);
      EatenBound(ss, tail);
      AscendingFrom(PickedSpans(text, rest, |next|, p), |b|, |next|, |text|);
      AscendingFrom(PickedSpans(text, rest, |next|, p), |b| + Eaten(ss, tail), |next|, |text|);
      if Picked(s, p) {
        SpanOfStmt(b, s, rest, tail);
        SpanBounds(s, ss, tail);
      }
    }
  }

  lemma NoSpans(text: string, at: int, p: Shape -> bool)
    ensures PickedSpans(text, [], at, p) == []
  {}

  lemma NextEndsStmt(b: string, s: Stmt)
    requires Reads(s)
    ensures EndsStmt(b + s.gap + s.raw)
  {
    hide Run;
  }

  lemma SpanBounds(s: Stmt, ss: seq<Stmt>, tail: string)
    requires ss != [] && s == ss[0]
    ensures |ThroughNewline(s.gap)| <= |s.gap|
    ensures RestBlank(ss, tail) ==> Eaten(ss, tail) <= |ThroughNewline(s.gap)|
  {
    LastSplit(s.gap);
    if HasNewline(s.gap) { ThroughAfter(s.gap); }
  }

  lemma ExciseSkip(text: string, spans: seq<Span>, from: int, to: int)
    requires 0 <= from <= to <= |text| && Ascending(spans, to, |text|)
    ensures Excise(text, spans, from) == Mid(text, from, to) + Excise(text, spans, to)
  {
    hide Mid, From;
    if spans == [] {
      assert text[from..] == text[from..to] + text[to..];
      MidSlice(text, from, to);
      FromSlice(text, from);
      FromSlice(text, to);
    } else {
      AscendingLimit(spans, to, |text|);
      MidJoin(text, from, to, spans[0].start);
    }
  }

  lemma {:induction false} AscendingLimit(spans: seq<Span>, from: int, limit: int)
    requires Ascending(spans, from, limit)
    ensures from <= limit
    ensures spans != [] ==> spans[0].end <= limit
  {
    if spans != [] { AscendingLimit(spans[1..], spans[0].end, limit); }
  }

  lemma FromSlice(t: string, i: int)
    requires 0 <= i <= |t|
    ensures From(t, i) == t[i..]
  {}

  lemma MidSlice(t: string, i: int, j: int)
    requires 0 <= i <= j <= |t|
    ensures Mid(t, i, j) == t[i..j]
  {
    assert Upto(t, j) == t[..j];
    FromSlice(t[..j], i);
    assert t[..j][i..] == t[i..j];
  }

  lemma MidJoin(t: string, i: int, j: int, k: int)
    requires 0 <= i <= j <= k <= |t|
    ensures Mid(t, i, k) == Mid(t, i, j) + Mid(t, j, k)
  {
    MidSlice(t, i, j);
    MidSlice(t, j, k);
    MidSlice(t, i, k);
    assert t[i..k] == t[i..j] + t[j..k];
  }

  // ----- Deleting the spans is dropping the statements

  /** What is left of a gap whose first line went with the statement before it. */
  function Left(gap: string, eaten: bool): string { if eaten then AfterNewline(gap) else gap }

  function Taken(ss: seq<Stmt>, tail: string, eaten: bool): nat { if eaten then Eaten(ss, tail) else 0 }

  /** The pieces of the text around the first statement. */
  lemma PiecesOfGap(b: string, gap: string, after: string, n: nat)
    requires n <= |gap|
    ensures var text := b + (gap + after);
      && Mid(text, |b| + n, |b| + |gap|) == gap[n..]
      && (forall m :: n <= m <= |gap| ==> Mid(text, |b| + n, |b| + m) == gap[n..m])
  {
    var text := b + (gap + after);
    forall m | n <= m <= |gap| ensures Mid(text, |b| + n, |b| + m) == gap[n..m] {
      MidSlice(text, |b| + n, |b| + m);
      assert text[|b| + n..|b| + m] == gap[n..m];
    }
  }

  lemma LeftOfGap(ss: seq<Stmt>, tail: string, eaten: bool)
    requires ss != [] && (eaten ==> RestBlank(ss, tail))
    ensures var s, n := ss[0], Taken(ss, tail, eaten);
      && n <= |s.gap| && s.gap[n..] == Left(s.gap, eaten)
      && n <= |ThroughNewline(s.gap)| <= |s.gap|
      && s.gap[n..|ThroughNewline(s.gap)|] == ThroughNewline(Left(s.gap, eaten))
  {
    var s := ss[0];
    EatenBound(ss, tail);
    LastSplit(s.gap);
    if eaten {
      ThroughAfter(s.gap);
    } else {
      assert s.gap[0..|ThroughNewline(s.gap)|] == ThroughNewline(s.gap);
    }
  }

  /** The text with the picked spans taken out, from the point reached. */
  function Remaining(b: string, ss: seq<Stmt>, tail: string, p: Shape -> bool, eaten: bool): string
    requires Readable(ss)
  {
    var text := b + (Render(ss) + tail);
    Excise(text, PickedSpans(text, ss, |b|, p), |b| + Taken(ss, tail, eaten))
  }

  lemma RemainingAtEnd(b: string, tail: string, p: Shape -> bool, eaten: bool)
    ensures Remaining(b, [], tail, p, eaten) == Left(tail, eaten)
  {
    hide Eaten, From;
    var text := b + (Render([]) + tail);
    assert Render([]) + tail == tail;
    EatenBound([], tail);
    FromSlice(text, |b| + Taken([], tail, eaten));
    assert text[|b| + Taken([], tail, eaten)..] == tail[Taken([], tail, eaten)..];
  }

  lemma TextAround(b: string, s: Stmt, rest: seq<Stmt>, tail: string)
    ensures var after := Render(rest) + tail; var text := b + (Render([s] + rest) + tail);
      && text == b + s.gap + s.raw + after
      && text == b + (s.gap + (s.raw + after))
      && text == b + ((s.gap + s.raw) + after)
  {
    assert ([s] + rest)[1..] == rest;
  }

  lemma RemainingKept(b: string, ss: seq<Stmt>, tail: string, p: Shape -> bool, eaten: bool)
    requires ss != [] && EndsStmt(b) && Readable(ss) && (eaten ==> RestBlank(ss, tail)) && !Picked(ss[0], p)
    ensures var s := ss[0]; var g, next := Left(s.gap, eaten), b + s.gap + s.raw;
      Remaining(b, ss, tail, p, eaten) == g + s.raw + Remaining(next, ss[1..], tail, p, false)
  {
    hide Reads, PickedSpans, Eaten, RestBlank, ThroughNewline, AfterNewline, Mid, From, Left, Taken, Render, Picked;
    var s, rest := ss[0], ss[1..];
    var next, after := b + s.gap + s.raw, Render(rest) + tail;
    var n := Taken(ss, tail, eaten);
    assert ss == [s] + rest;
    TextAround(b, s, rest, tail);
    var text := b + (Render(ss) + tail);
    NextEndsStmt(b, s);
    PickedFirst(text, ss, |b|, p);
    SpansAscend(next, rest, tail, p);
    LeftOfGap(ss, tail, eaten);
    PiecesOfGap(b, s.gap + s.raw, after, n);
    assert (s.gap + s.raw)[n..] == s.gap[n..] + s.raw;
    ExciseSkip(text, PickedSpans(text, rest, |next|, p), |b| + n, |next|);
    assert Taken(rest, tail, false) == 0 by { NothingTaken(rest, tail); }
  }

  lemma NothingTaken(ss: seq<Stmt>, tail: string)
    ensures Taken(ss, tail, false) == 0 && Taken(ss, tail, true) == Eaten(ss, tail)
  {}

  lemma RemainingDropped(b: string, ss: seq<Stmt>, tail: string, p: Shape -> bool, eaten: bool)
    requires ss != [] && EndsStmt(b) && Readable(ss) && (eaten ==> RestBlank(ss, tail)) && Picked(ss[0], p)
    ensures var s := ss[0]; var g, next := Left(s.gap, eaten), b + s.gap + s.raw;
      var alone := Alone(ss, tail, b == "");
      Remaining(b, ss, tail, p, eaten)
        == (if alone then ThroughNewline(g) else g) + Remaining(next, ss[1..], tail, p, alone)
  {
    hide Reads, RemovalSpan, DirectiveAt, PickedSpans, Eaten, RestBlank, ThroughNewline, AfterNewline, Mid, From, Left,
      Taken, Render, HasNewline;
    var s, rest := ss[0], ss[1..];
    var next, after := b + s.gap + s.raw, Render(rest) + tail;
    var n := Taken(ss, tail, eaten);
    assert ss == [s] + rest;
    TextAround(b, s, rest, tail);
    var text := b + (Render(ss) + tail);
    PickedFirst(text, ss, |b|, p);
    LeftOfGap(ss, tail, eaten);
    PiecesOfGap(b, s.gap, s.raw + after, n);
    SpanOfStmt(b, s, rest, tail);
    NothingTaken(rest, tail);
  }

  /** Taking the spans out of the text is dropping the statements from the document. */
  lemma {:induction false} ExciseIsCut(b: string, ss: seq<Stmt>, tail: string, p: Shape -> bool, carry: string,
                                       eaten: bool)
    requires EndsStmt(b) && Readable(ss) && (eaten ==> RestBlank(ss, tail))
    ensures carry + Remaining(b, ss, tail, p, eaten) == RenderDoc(Cut(ss, tail, p, b == "", carry, eaten))
    decreases |ss|
  {
    hide Reads, Remaining, Picked, Alone, ThroughNewline, AfterNewline, EndsStmt, RenderDoc, Left;
    if ss == [] {
      CutNothing(b, tail, p, carry, eaten);
    } else {
      var s, rest := ss[0], ss[1..];
      var g, next := Left(s.gap, eaten), b + s.gap + s.raw;
      NextEndsStmt(b, s);
      NextNotEmpty(b, s);
      CutFirst(ss, tail, p, b == "", carry, eaten);
      if !Picked(s, p) {
        RemainingKept(b, ss, tail, p, eaten);
        ExciseIsCut(next, rest, tail, p, "", false);
        KeepStmt(carry, g, s, Cut(rest, tail, p, false, "", false), Remaining(next, rest, tail, p, false));
      } else {
        var alone := Alone(ss, tail, b == "");
        var kept := if alone then ThroughNewline(g) else g;
        RemainingDropped(b, ss, tail, p, eaten);
        if alone { AloneRest(ss, tail, b == ""); }
        ExciseIsCut(next, rest, tail, p, carry + kept, alone);
        Assoc(carry, kept, Remaining(next, rest, tail, p, alone));
      }
    }
  }

  lemma CutNothing(b: string, tail: string, p: Shape -> bool, carry: string, eaten: bool)
    ensures carry + Remaining(b, [], tail, p, eaten) == RenderDoc(Cut([], tail, p, b == "", carry, eaten))
  {
    RemainingAtEnd(b, tail, p, eaten);
    assert Render([]) + (carry + Left(tail, eaten)) == carry + Left(tail, eaten);
  }

  lemma CutFirst(ss: seq<Stmt>, tail: string, p: Shape -> bool, first: bool, carry: string, eaten: bool)
    requires ss != []
    ensures var s := ss[0]; var g := Left(s.gap, eaten);
      Cut(ss, tail, p, first, carry, eaten) ==
        if !Picked(s, p) then
          var d := Cut(ss[1..], tail, p, false, "", false);
          Doc([s.(gap := carry + g)] + d.stmts, d.tail)
        else
          var alone := Alone(ss, tail, first);
          Cut(ss[1..], tail, p, false, carry + (if alone then ThroughNewline(g) else g), alone)
  {}

  lemma NextNotEmpty(b: string, s: Stmt)
    requires Reads(s)
    ensures b + s.gap + s.raw != ""
  {
    hide Run;
  }

  lemma AloneRest(ss: seq<Stmt>, tail: string, first: bool)
    requires ss != [] && Alone(ss, tail, first)
    ensures RestBlank(ss[1..], tail)
  {}

  lemma KeepStmt(carry: string, g: string, s: Stmt, d: Doc, r: string)
    requires "" + r == RenderDoc(d)
    ensures RenderDoc(Doc([s.(gap := carry + g)] + d.stmts, d.tail)) == carry + (g + s.raw + r)
  {
    var kept := s.(gap := carry + g);
    assert ([kept] + d.stmts)[1..] == d.stmts;
    assert "" + r == r;
    assert carry + g + s.raw + Render(d.stmts) + d.tail == carry + (g + s.raw + (Render(d.stmts) + d.tail));
  }

  /** `_directive_removal_span` on every picked directive of a text, and the deletion of them all. */
  function RemoveDirectives(text: string, ds: seq<Directive>): string { Excise(text, Spans(text, ds), 0) }

  /** The deletion on a well-formed document. */
  lemma RemovalIsCut(ss: seq<Stmt>, tail: string, p: Shape -> bool)
    requires WellFormed(OUTSIDE, ss, tail)
    ensures var text := Render(ss) + tail;
      && ParseNginx(text).Ok?
      && RemoveDirectives(text, Select(ParseNginx(text).value.directives, p))
           == RenderDoc(Cut(ss, tail, p, true, "", false))
      && Ascending(Spans(text, Select(ParseNginx(text).value.directives, p)), 0, |text|)
  {
    hide Reads, Remaining, Cut, Excise, Spans, Select;
    var text := Render(ss) + tail;
    ParseDocument(ss, tail);
    DirectivesOfDocument(ss, 0);
    ExciseIsCut("", ss, tail, p, "", false);
    SpansAscend("", ss, tail, p);
    assert "" + text == text;
    RemainingWhole(ss, tail, p);
    assert "" + Remaining("", ss, tail, p, false) == Remaining("", ss, tail, p, false);
  }

  lemma RemainingWhole(ss: seq<Stmt>, tail: string, p: Shape -> bool)
    requires Readable(ss)
    ensures Remaining("", ss, tail, p, false)
         == Excise(Render(ss) + tail, PickedSpans(Render(ss) + tail, ss, 0, p), 0)
  {
    assert "" + (Render(ss) + tail) == Render(ss) + tail;
  }
}
