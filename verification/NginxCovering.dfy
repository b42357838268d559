/** When the fences cover every server: the statements of a fenced site, and what `maintenance_enabled` says about it.
    */
module NginxCovering {
  import opened Options
  import opened NginxText
  import opened NginxParser
  import opened NginxDocument
  import opened NginxRemoval
  import opened NginxMeaning
  import opened NginxPhrases
  import opened NginxInsertion
  import opened NginxServers
  import opened NginxUpstream
  import opened NginxHeaders
  import opened NginxAudit
  import opened NginxGuarantees
  import opened NginxMarkers
  import opened NginxFence
  import opened NginxSite
  import opened NginxRewrite
  import opened NginxMaintenance
  import opened NginxFenced

  lemma {:induction false} Count503Concat(a: seq<Shape>, b: seq<Shape>, server: nat)
    ensures Count503(a + b, server) == Count503(a, server) + Count503(b, server)
  {
    hide Returns503;
    if a == [] {
      assert a + b == b;
    } else {
      assert (a + b)[1..] == a[1..] + b;
      Count503Concat(a[1..], b, server);
    }
  }

  /** The statements of the fence in a block. */
  function FenceItems(chain: Option<seq<nat>>): seq<Item> {
    match chain case None => [] case Some(c) => CodeItems(FENCE_LINES, c)
  }

  function FenceItem(words: seq<string>, c: seq<nat>): Item { Item(words, ';', HeadWord(words), c, 0) }

  lemma CodeItemsCons(words: seq<string>, rest: seq<Line>, c: seq<nat>)
    ensures CodeItems([Code(words)] + rest, c) == [FenceItem(words, c)] + CodeItems(rest, c)
  {
    assert ([Code(words)] + rest)[1..] == rest;
  }

  lemma NoteItemsCons(note: string, rest: seq<Line>, c: seq<nat>)
    ensures CodeItems([Note(note)] + rest, c) == CodeItems(rest, c)
  {
    assert ([Note(note)] + rest)[1..] == rest;
    assert [] + CodeItems(rest, c) == CodeItems(rest, c);
  }

  lemma FenceItemsAre(c: seq<nat>)
    ensures CodeItems(FENCE_LINES, c)
         == [FenceItem(RETRY_AFTER_WORDS, c)] + ([FenceItem(NO_STORE_WORDS, c)] + ([FenceItem(RETURN_503_WORDS, c)] + []))
  {
    hide FenceItem, CodeItems;
    var a, e := Note(MAINTENANCE_BEGIN), Note(MAINTENANCE_END);
    var b, x, d := Code(RETRY_AFTER_WORDS), Code(NO_STORE_WORDS), Code(RETURN_503_WORDS);
    assert FENCE_LINES == Fence(a, b, x, d, e);
    NoteItemsCons(MAINTENANCE_BEGIN, [b] + ([x] + ([d] + ([e] + []))), c);
    CodeItemsCons(RETRY_AFTER_WORDS, [x] + ([d] + ([e] + [])), c);
    CodeItemsCons(NO_STORE_WORDS, [d] + ([e] + []), c);
    CodeItemsCons(RETURN_503_WORDS, [e] + [], c);
    NoteItemsCons(MAINTENANCE_END, [], c);
    assert CodeItems([], c) == [] by { NoCodeItems(c); }
  }

  lemma NoCodeItems(c: seq<nat>)
    ensures CodeItems([], c) == []
  {}

  lemma FenceItemCounts(words: seq<string>, c: seq<nat>, server: nat)
    requires words == RETRY_AFTER_WORDS || words == NO_STORE_WORDS || words == RETURN_503_WORDS
    ensures ServerIds([FenceItem(words, c)]) == []
    ensures Count503(Shapes([FenceItem(words, c)]), server)
         == if words == RETURN_503_WORDS && c != [] && c[|c| - 1] == server then 1 else 0
  {
    var i := FenceItem(words, c);
    ShapesOne(i);
    assert ADD_HEADER[0] != RETURN[0];
    assert words == RETURN_503_WORDS <==> words[0] == RETURN;
    var d := Shape(words[0], words[1..], c);
    assert Shapes([i]) == [d] && [d][1..] == [];
    assert Count503([], server) == 0;
  }

  lemma FenceCounts(chain: Option<seq<nat>>, server: nat)
    ensures ServerIds(FenceItems(chain)) == []
    ensures Count503(Shapes(FenceItems(chain)), server) == PendingCount(chain, server)
  {
    hide FenceItem, Count503, Shapes, ServerIds;
    NoneCounted(server);
    if chain.Some? {
      var c := chain.value;
      FenceItemsAre(c);
      var x, y, z := [FenceItem(RETRY_AFTER_WORDS, c)], [FenceItem(NO_STORE_WORDS, c)], [FenceItem(RETURN_503_WORDS, c)];
      FenceItemCounts(RETRY_AFTER_WORDS, c, server);
      FenceItemCounts(NO_STORE_WORDS, c, server);
      FenceItemCounts(RETURN_503_WORDS, c, server);
      assert ADD_HEADER[0] != RETURN[0];
      assert z + [] == z;
      ShapesConcat(x, y + z);
      ShapesConcat(y, z);
      Count503Concat(Shapes(x), Shapes(y + z), server);
      Count503Concat(Shapes(y), Shapes(z), server);
    }
  }

  lemma NoneCounted(server: nat)
    ensures Shapes([]) == [] && ServerIds([]) == [] && Count503([], server) == 0
  {}

  lemma AddItemsFirst(chain: Option<seq<nat>>, items: seq<Item>, lines: seq<Line>)
    requires items != []
    ensures AddItems(chain, items, lines)
         == (match chain case None => [] case Some(c) => CodeItems(lines, c))
            + ([items[0]] + AddItems(Entered(items[0]), items[1..], lines))
  {
    hide CodeItems, OpensServerItem;
    var added := match chain case None => [] case Some(c) => CodeItems(lines, c);
    var x, y := [items[0]], AddItems(Entered(items[0]), items[1..], lines);
    assert added + x + y == added + (x + y);
  }

  lemma AddFencesFirst(chain: Option<seq<nat>>, items: seq<Item>)
    requires items != []
    ensures AddItems(chain, items, FENCE_LINES)
         == FenceItems(chain) + ([items[0]] + AddItems(Entered(items[0]), items[1..], FENCE_LINES))
  {
    hide CodeItems, OpensServerItem;
    AddItemsFirst(chain, items, FENCE_LINES);
  }

  lemma NoFenceItems(chain: Option<seq<nat>>)
    ensures AddItems(chain, [], FENCE_LINES) == []
  {}

  /** Each server gets one more direct `return 503`. */
  lemma {:induction false} FencesPerServer(chain: Option<seq<nat>>, items: seq<Item>, n: nat, server: nat)
    requires Numbered(items, n) && Continued(items) && PendingIn(chain, n)
    ensures var f := AddItems(chain, items, FENCE_LINES);
      && ServerIds(f) == ServerIds(items)
      && (items != [] ==>
            Count503(Shapes(f), server)
              == Count503(Shapes(items), server) + PendingCount(chain, server) + if server in ServerIds(items) then 1 else 0)
    decreases |items|
  {
    hide AddItems, Count503, Shapes, ServerIds, FenceItems;
    NoneCounted(server);
    if items == [] {
      NoFenceItems(chain);
    } else {
      var i, rest := items[0], items[1..];
      var m := if i.term == '{' then n + 1 else n;
      var more := AddItems(Entered(i), rest, FENCE_LINES);
      FencesPerServer(Entered(i), rest, m, server);
      AddFencesFirst(chain, items);
      FenceCounts(chain, server);
      ShapesConcat(FenceItems(chain), [i] + more);
      ShapesConcat([i], more);
      Count503Concat(Shapes(FenceItems(chain)), Shapes([i] + more), server);
      Count503Concat(Shapes([i]), Shapes(more), server);
      ShapesOne(i);
      assert items == [i] + rest;
      ShapesConcat([i], rest);
      Count503Concat(Shapes([i]), Shapes(rest), server);
      if server in ServerIds(rest) { LaterServers(rest, m, server); }
      if rest == [] { NoFenceItems(Entered(i)); }
      assert [] + ServerIds([i] + more) == ServerIds([i] + more);
    }
  }

  /** No server block returns 503 directly. */
  predicate NoneReturns503(servers: seq<nat>, shapes: seq<Shape>) {
    servers == [] || (Count503(shapes, servers[0]) == 0 && NoneReturns503(servers[1..], shapes))
  }

  // ----- The rewrite neither adds nor takes a direct `return 503`

  lemma {:induction false} CountWithout(shapes: seq<Shape>, p: Shape -> bool, server: nat)
    requires forall d :: p(d) ==> d.name != RETURN
    ensures Count503(Without(shapes, p), server) == Count503(shapes, server)
  {
    if shapes != [] {
      var d, more := shapes[0], Without(shapes[1..], p);
      CountWithout(shapes[1..], p, server);
      if p(d) {
        assert [] + more == more;
      } else {
        assert ([d] + more)[1..] == more;
      }
    }
  }

  lemma DroppedDoNotReturn(scope: seq<nat>)
    ensures forall d :: ClientIpIn(scope)(d) ==> d.name != RETURN
    ensures forall d :: AccessLog(d) ==> d.name != RETURN
  {
    assert PROXY_SET_HEADER[0] != RETURN[0] && ACCESS_LOG[0] != RETURN[0];
  }

  lemma OtherCount(i: Item, server: nat)
    requires i.name != RETURN
    ensures Count503(Shapes([i]), server) == 0
  {
    ShapesOne(i);
    NoneCounted(server);
    if ShapeList(i) != [] { assert [ShapeList(i)[0]][1..] == []; }
  }

  lemma {:induction false} RerouteCount(items: seq<Item>, p: Port, server: nat)
    ensures Count503(Shapes(RerouteItems(items, p)), server) == Count503(Shapes(items), server)
  {
    hide Count503, Shapes, RerouteItem;
    if items != [] {
      var i, rest := items[0], items[1..];
      var j, more := RerouteItem(i, p), RerouteItems(rest, p);
      RerouteCount(rest, p, server);
      assert items == [i] + rest;
      ShapesConcat([i], rest);
      ShapesConcat([j], more);
      Count503Concat(Shapes([i]), Shapes(rest), server);
      Count503Concat(Shapes([j]), Shapes(more), server);
      if i != j {
        ReroutedName(i, p);
        OtherCount(i, server);
        OtherCount(j, server);
      }
    }
  }

  lemma ReroutedName(i: Item, p: Port)
    requires RerouteItem(i, p) != i
    ensures i.name != RETURN && RerouteItem(i, p).name == i.name
  {
    hide Upstream;
    assert "proxy_pass"[0] != RETURN[0];
  }

  lemma {:induction false} HeadersCount(items: seq<Item>, server: nat)
    ensures Count503(Shapes(AddHeaderItems(items)), server) == Count503(Shapes(items), server)
  {
    hide Count503, Shapes, HeaderItem, ProxyItem;
    if items != [] {
      var i, rest := items[0], items[1..];
      assert items == [i] + rest;
      if ProxyItem(i) {
        var x, y := HeaderItem(REAL_IP_WORDS, i.chain), HeaderItem(FORWARDED_FOR_WORDS, i.chain);
        assert AddHeaderItems(items) == [x] + ([y] + items);
        ShapesConcat([x], [y] + items);
        ShapesConcat([y], items);
        Count503Concat(Shapes([x]), Shapes([y] + items), server);
        Count503Concat(Shapes([y]), Shapes(items), server);
        HeaderDoesNotReturn(REAL_IP_WORDS, i.chain);
        HeaderDoesNotReturn(FORWARDED_FOR_WORDS, i.chain);
        OtherCount(x, server);
        OtherCount(y, server);
      } else {
        HeadersCount(rest, server);
        ShapesConcat([i], rest);
        ShapesConcat([i], AddHeaderItems(rest));
        Count503Concat(Shapes([i]), Shapes(rest), server);
        Count503Concat(Shapes([i]), Shapes(AddHeaderItems(rest)), server);
      }
    }
  }

  lemma HeaderDoesNotReturn(words: seq<string>, chain: seq<nat>)
    ensures HeaderItem(words, chain).name != RETURN
  {
    assert PROXY_SET_HEADER[0] != RETURN[0];
  }

  lemma RewriteCount(items: seq<Item>, p: Port, server: nat)
    ensures Count503(Shapes(RewriteItems(items, p)), server) == Count503(Shapes(items), server)
  {
    hide Count503, Shapes, Without, Drop, AddHeaderItems, AddItems, RerouteItems, ClientIpIn;
    var routed := RerouteItems(items, p);
    var scope := ProxyScope(routed);
    var cleared := Drop(routed, ClientIpIn(scope));
    var headed := AddHeaderItems(cleared);
    var last := Drop(headed, AccessLog);
    DroppedDoNotReturn(scope);
    RerouteCount(items, p, server);
    DropShapes(routed, ClientIpIn(scope));
    CountWithout(Shapes(routed), ClientIpIn(scope), server);
    HeadersCount(cleared, server);
    DropShapes(headed, AccessLog);
    CountWithout(Shapes(headed), AccessLog, server);
    AddLogsShapes(None, last);
    CountWithout(Shapes(AddItems(None, last, LOG_LINES)), AccessLog, server);
    CountWithout(Shapes(last), AccessLog, server);
  }

  /** The rewrite keeps which servers return 503 directly. */
  lemma {:induction false} RewriteReturns(servers: seq<nat>, items: seq<Item>, p: Port)
    ensures NoneReturns503(servers, Shapes(RewriteItems(items, p))) <==> NoneReturns503(servers, Shapes(items))
  {
    hide Shapes, RewriteItems, Count503;
    if servers != [] {
      RewriteCount(items, p, servers[0]);
      RewriteReturns(servers[1..], items, p);
    }
  }

  lemma {:induction false} CoveredServers(servers: seq<nat>, items: seq<Item>)
    requires Numbered(items, 0) && Continued(items) && forall k <- servers :: k in ServerIds(items)
    ensures AllFenced(servers, Shapes(AddItems(None, items, FENCE_LINES))) <==> NoneReturns503(servers, Shapes(items))
  {
    hide AddItems, Count503, Shapes, ServerIds, Numbered, Continued;
    if servers != [] {
      assert servers[0] in servers;
      assert forall k :: k in servers[1..] ==> k in servers;
      FencesPerServer(None, items, 0, servers[0]);
      NoneCounted(servers[0]);
      CoveredServers(servers[1..], items);
    }
  }

  lemma EnabledOfDoc(d: Doc)
    requires DocOk(d)
    ensures var text, servers := RenderDoc(d), ServerIds(Items(d.stmts));
      MaintenanceEnabled(text) ==
        Ok(&& servers != []
           && Count(MAINTENANCE_BEGIN, text) == |servers|
           && Count(MAINTENANCE_END, text) == |servers|
           && AllFenced(servers, Shapes(Items(d.stmts))))
  {
    hide WellFormed, Count, AllFenced, Shapes, ServerIds, Items, DocServers, DocDirectives, Readable, ServerBlocks,
      Nodes, BlocksOf, DirectivesOf, Identifiers, ShapesOf, RenderDoc;
    ParseOf(d);
    ServerIdsOfDocument(d.stmts, 0);
    ShapesOfDocument(d.stmts, 0);
    SameLength(DocServers(d.stmts, 0));
  }

  /** The fences of a site cover it exactly when it has servers, no begin marker text, and no direct `return 503`
      already. */
  lemma FencedEnabled(d: Doc)
    requires DocOk(d) && Ready(false, d.stmts) && NoMarkers(Lines(RenderDoc(d)))
    requires !Occurs(MAINTENANCE_END, RenderDoc(d))
    ensures MaintenanceEnabled(RenderDoc(WithFence(d)))
         == Ok(&& ServerIds(Items(d.stmts)) != []
               && Count(MAINTENANCE_BEGIN, RenderDoc(d)) == 0
               && NoneReturns503(ServerIds(Items(d.stmts)), Shapes(Items(d.stmts))))
  {
    hide DocOk, Count, AllFenced, NoneReturns503, Shapes, ServerIds, Items, Ready, NoMarkers, Occurs, RenderDoc,
      WithFence, Lines, AddItems, MaintenanceEnabled;
    FencedText(d);
    FenceIsDoc(d);
    EnabledOfDoc(WithFence(d));
    DocumentNumbers(d);
    FencesPerServer(None, Items(d.stmts), 0, 0);
    CoveredServers(ServerIds(Items(d.stmts)), Items(d.stmts));
  }
}
