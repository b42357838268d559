module NginxMeaning {

  // What a configuration says, without its layout: its statements in order, each with its texts, name and block chain.

  import opened NginxText
  import opened NginxLexer
  import opened NginxParser
  import opened NginxDocument
  import opened NginxGaps
  import opened NginxRemoval

  datatype Item = Item(words: seq<string>, term: char, name: string, chain: seq<nat>, id: nat)

  function View(s: Stmt): Item { Item(s.words, s.term, s.name, s.chain, s.id) }

  function Items(ss: seq<Stmt>): seq<Item> {
    if ss == [] then [] else [View(ss[0])] + Items(ss[1..])
  }

  function ItemOf(n: Node): Item
    requires n.term.value != ""
  {
    Item(Values(n.words), n.term.value[0], n.name, n.chain, n.id)
  }

  function ItemsOf(nodes: seq<Node>): seq<Item> {
    if nodes == [] then []
    else (if nodes[0].term.value != "" then [ItemOf(nodes[0])] else []) + ItemsOf(nodes[1..])
  }

  /** The meaning of a text. */
  function Meaning(text: string): Result<seq<Item>> {
    var nodes :- Nodes(text);
    Ok(ItemsOf(nodes))
  }

  lemma ItemOfNode(s: Stmt, at: int)
    requires Reads(s)
    ensures NodeOf(s, at).term.value != "" && ItemOf(NodeOf(s, at)) == View(s)
  {
    hide Run;
    SplitStmt(s, at);
    var own, n := Run(START, s.raw).tokens, |s.words|;
    ValuesIndex(own[..n]);
    ValuesIndex(StmtTokens(s, at)[..n]);
    assert forall i :: 0 <= i < n ==> Values(StmtTokens(s, at)[..n])[i] == s.words[i];
  }

  lemma {:induction false} ItemsOfDocument(ss: seq<Stmt>, at: int)
    requires Readable(ss)
    ensures ItemsOf(NodesOf(ss, at)) == Items(ss)
    decreases |ss|
  {
    hide Reads, NodeOf, View;
    if ss != [] {
      var here := at + |ss[0].gap| + |ss[0].raw|;
      ItemOfNode(ss[0], at);
      ItemsOfDocument(ss[1..], here);
      assert NodesOf(ss, at)[1..] == NodesOf(ss[1..], here);
    }
  }

  lemma MeaningOfDocument(ss: seq<Stmt>, tail: string)
    requires WellFormed(OUTSIDE, ss, tail)
    ensures Meaning(Render(ss) + tail) == Ok(Items(ss))
  {
    hide WellFormed;
    ParseDocument(ss, tail);
    ItemsOfDocument(ss, 0);
  }

  // ----- Dropping directives

  predicate Chosen(i: Item, p: Shape -> bool) {
    i.term == ';' && i.words != [] && p(Shape(i.name, i.words[1..], i.chain))
  }

  function Drop(items: seq<Item>, p: Shape -> bool): seq<Item> {
    if items == [] then []
    else (if Chosen(items[0], p) then [] else [items[0]]) + Drop(items[1..], p)
  }

  lemma ChosenIsPicked(s: Stmt, p: Shape -> bool)
    ensures Chosen(View(s), p) <==> Picked(s, p)
  {}

  lemma LeftIsGap(ss: seq<Stmt>, tail: string, eaten: bool)
    requires eaten ==> RestBlank(ss, tail)
    ensures ss != [] && GapText(ss[0].gap) ==>
      GapText(Left(ss[0].gap, eaten)) && GapText(ThroughNewline(Left(ss[0].gap, eaten)))
    ensures ss == [] && TailOk(tail) ==> TailOk(Left(tail, eaten))
  {
    hide Run;
    if ss != [] {
      if GapText(ss[0].gap) {
        if eaten { GapHead(ss[0].gap); }
        GapLines(Left(ss[0].gap, eaten));
      }
    } else if TailOk(tail) && eaten {
      TailHead(tail);
    }
  }

  /** Dropping directives keeps a document well formed and drops exactly their items. */
  lemma {:induction false} CutMeaning(sc: Scope, ss: seq<Stmt>, tail: string, p: Shape -> bool, first: bool,
                                      carry: string, eaten: bool)
    requires WellFormed(sc, ss, tail) && GapText(carry) && (eaten ==> RestBlank(ss, tail))
    ensures var d := Cut(ss, tail, p, first, carry, eaten);
      WellFormed(sc, d.stmts, d.tail) && Items(d.stmts) == Drop(Items(ss), p)
    decreases |ss|
  {
    hide GapText, LexesAs, TailOk, Fits, Enter, Picked, Alone, RestBlank, ThroughNewline, AfterNewline, Chosen;
    LeftIsGap(ss, tail, eaten);
    if ss == [] {
      GapConcat(carry, Left(tail, eaten));
    } else {
      var s, rest := ss[0], ss[1..];
      var g := Left(s.gap, eaten);
      GapConcat(carry, g);
      GapConcat(carry, ThroughNewline(g));
      CutFirst(ss, tail, p, first, carry, eaten);
      ChosenIsPicked(s, p);
      assert Items(ss)[0] == View(s) && Items(ss)[1..] == Items(rest);
      EmptyIsGap();
      if !Picked(s, p) {
        CutMeaning(Enter(sc, s), rest, tail, p, false, "", false);
        var d := Cut(rest, tail, p, false, "", false);
        KeptStmtFits(sc, s, carry + g);
        assert ([s.(gap := carry + g)] + d.stmts)[1..] == d.stmts;
      } else {
        var alone := Alone(ss, tail, first);
        PickedKeepsScope(sc, s, p);
        if alone { AloneRest(ss, tail, first); }
        CutMeaning(sc, rest, tail, p, false, carry + (if alone then ThroughNewline(g) else g), alone);
        assert [] + Drop(Items(rest), p) == Drop(Items(rest), p);
      }
    }
  }

  lemma EmptyIsGap()
    ensures GapText("")
  {
    BlankIsGap("");
  }

  lemma KeptStmtFits(sc: Scope, s: Stmt, g: string)
    requires Reads(s) && Fits(sc, s) && GapText(g)
    ensures Reads(s.(gap := g)) && Fits(sc, s.(gap := g)) && Enter(sc, s.(gap := g)) == Enter(sc, s)
    ensures View(s.(gap := g)) == View(s)
  {
    hide GapText, LexesAs;
  }

  lemma PickedKeepsScope(sc: Scope, s: Stmt, p: Shape -> bool)
    requires Picked(s, p)
    ensures Enter(sc, s) == sc
  {}

  // ----- One statement in front

  lemma WellFormedCons(sc: Scope, s: Stmt, rest: seq<Stmt>, tail: string)
    requires Reads(s) && Fits(sc, s) && WellFormed(Enter(sc, s), rest, tail)
    ensures WellFormed(sc, [s] + rest, tail)
  {
    hide Reads, Fits, Enter, TailOk;
    assert ([s] + rest)[1..] == rest;
  }

  lemma ItemsFirst(s: Stmt, rest: seq<Stmt>)
    ensures Items([s] + rest) == [View(s)] + Items(rest)
  {
    assert ([s] + rest)[1..] == rest;
  }
}
