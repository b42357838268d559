/** The rewrite as edits of the meaning, and why its result passes the auditor. */
module NginxGuarantees {
  import opened Options
  import opened PythonText
  import opened NginxText
  import opened NginxRemoval
  import opened NginxMeaning
  import opened NginxPhrases
  import opened NginxServers
  import opened NginxUpstream
  import opened NginxHeaders
  import opened NginxAudit

  function RerouteItem(i: Item, p: Port): Item {
    if ProxyItem(i) then i.(words := [i.words[0], Upstream(p)]) else i
  }

  function RerouteItems(items: seq<Item>, p: Port): seq<Item> {
    if items == [] then [] else [RerouteItem(items[0], p)] + RerouteItems(items[1..], p)
  }

  /** The scope of the first Astra proxy. */
  function ProxyScope(items: seq<Item>): seq<nat> {
    if items == [] then [] else if ProxyItem(items[0]) then items[0].chain else ProxyScope(items[1..])
  }

  /** The edits of one cutover: the Astra proxy points at `p`; the client-IP headers of its scope give way to the two
      canonical ones just before it; every access log gives way to one safe log at the start of each server block. */
  function RewriteItems(items: seq<Item>, p: Port): seq<Item> {
    var routed := RerouteItems(items, p);
    var cleared := Drop(routed, ClientIpIn(ProxyScope(routed)));
    var headed := AddHeaderItems(cleared);
    AddItems(None, Drop(headed, AccessLog), LOG_LINES)
  }

  function CountChosen(items: seq<Item>, p: Shape -> bool): nat {
    if items == [] then 0 else (if Chosen(items[0], p) then 1 else 0) + CountChosen(items[1..], p)
  }

  // ----- Shapes without access logs

  function Without(shapes: seq<Shape>, p: Shape -> bool): seq<Shape> {
    if shapes == [] then [] else (if p(shapes[0]) then [] else [shapes[0]]) + Without(shapes[1..], p)
  }

  lemma {:induction false} WithoutConcat(a: seq<Shape>, b: seq<Shape>, p: Shape -> bool)
    ensures Without(a + b, p) == Without(a, p) + Without(b, p)
  {
    if a == [] {
      assert a + b == b;
    } else {
      assert (a + b)[1..] == a[1..] + b;
      WithoutConcat(a[1..], b, p);
    }
  }

  lemma {:induction false} ShapesOfConcat(a: seq<Item>, b: seq<Item>)
    ensures Shapes(a + b) == Shapes(a) + Shapes(b)
  {
    if a == [] {
      assert a + b == b;
    } else {
      assert (a + b)[1..] == a[1..] + b;
      ShapesOfConcat(a[1..], b);
    }
  }

  lemma ServersFirst(i: Item, rest: seq<Item>)
    ensures ServerIds([i] + rest) == (if OpensServerItem(i) then [i.id] else []) + ServerIds(rest)
  {
    hide OpensServerItem;
    assert ([i] + rest)[1..] == rest;
  }

  lemma {:induction false} ServersOfConcat(a: seq<Item>, b: seq<Item>)
    ensures ServerIds(a + b) == ServerIds(a) + ServerIds(b)
  {
    hide OpensServerItem, ServerIds;
    if a == [] {
      assert a + b == b;
      NoServersOfNothing();
    } else {
      ServersOfConcat(a[1..], b);
      assert a == [a[0]] + a[1..] && a + b == [a[0]] + (a[1..] + b);
      ServersFirst(a[0], a[1..]);
      ServersFirst(a[0], a[1..] + b);
    }
  }

  lemma NoServersOfNothing()
    ensures ServerIds([]) == []
  {}

  lemma ShapesConcat(a: seq<Item>, b: seq<Item>)
    ensures Shapes(a + b) == Shapes(a) + Shapes(b)
    ensures ServerIds(a + b) == ServerIds(a) + ServerIds(b)
  {
    hide Shapes, ServerIds;
    ShapesOfConcat(a, b);
    ServersOfConcat(a, b);
  }

  function ShapeList(i: Item): seq<Shape> {
    if i.term == ';' && i.words != [] then [Shape(i.name, i.words[1..], i.chain)] else []
  }

  lemma ShapesOne(i: Item)
    ensures Shapes([i]) == ShapeList(i)
    ensures ServerIds([i]) == if OpensServerItem(i) then [i.id] else []
  {
    assert [i][1..] == [];
    assert Shapes([]) == [] && ServerIds([]) == [];
  }

  lemma WithoutOne(d: Shape, p: Shape -> bool)
    ensures Without([d], p) == if p(d) then [] else [d]
  {
    assert [d][1..] == [];
    assert Without([], p) == [];
  }

  lemma {:induction false} DropShapes(items: seq<Item>, p: Shape -> bool)
    ensures Shapes(Drop(items, p)) == Without(Shapes(items), p)
    ensures ServerIds(Drop(items, p)) == ServerIds(items)
  {
    hide OpensServerItem, Shapes, ServerIds, Without, Chosen, ShapeList;
    if items == [] {
      DropNothing(p);
    } else {
      var i, rest := items[0], items[1..];
      DropShapes(rest, p);
      ShapesOne(i);
      ShapesConcat([i], Drop(rest, p));
      assert items == [i] + rest;
      ShapesConcat([i], rest);
      WithoutConcat(ShapeList(i), Shapes(rest), p);
      ChosenShape(i, p);
      assert [] + Drop(rest, p) == Drop(rest, p);
    }
  }

  lemma DropNothing(p: Shape -> bool)
    ensures Shapes(Drop([], p)) == Without(Shapes([]), p) && ServerIds(Drop([], p)) == ServerIds([])
  {}

  lemma ChosenShape(i: Item, p: Shape -> bool)
    ensures Chosen(i, p) <==> ShapeList(i) != [] && p(ShapeList(i)[0])
    ensures Chosen(i, p) ==> Without(ShapeList(i), p) == []
    ensures !Chosen(i, p) ==> Without(ShapeList(i), p) == ShapeList(i)
    ensures Chosen(i, p) ==> !OpensServerItem(i)
  {
    if ShapeList(i) != [] { WithoutOne(ShapeList(i)[0], p); }
  }

  lemma {:induction false} WithoutTwice(shapes: seq<Shape>, p: Shape -> bool)
    ensures Without(Without(shapes, p), p) == Without(shapes, p)
  {
    if shapes != [] {
      WithoutTwice(shapes[1..], p);
      var more := Without(shapes[1..], p);
      if p(shapes[0]) {
        assert [] + more == more;
      } else {
        assert ([shapes[0]] + more)[1..] == more;
      }
    }
  }

  /** The items of the log line. */
  function LogItem(chain: seq<nat>): Item { Item(ACCESS_LOG_WORDS, ';', ACCESS_LOG, chain, 0) }

  lemma LogItems(chain: seq<nat>)
    ensures CodeItems(LOG_LINES, chain) == [LogItem(chain)]
  {
    assert LOG_LINES[1..] == [];
    assert CodeItems([], chain) == [];
  }

  function Entered(i: Item): Option<seq<nat>> {
    if OpensServerItem(i) then Some(i.chain + [i.id]) else None
  }

  function PendingLog(chain: Option<seq<nat>>): seq<Item> {
    match chain case None => [] case Some(c) => [LogItem(c)]
  }

  lemma AddLogsFirst(chain: Option<seq<nat>>, items: seq<Item>)
    requires items != []
    ensures AddItems(chain, items, LOG_LINES)
         == PendingLog(chain) + ([items[0]] + AddItems(Entered(items[0]), items[1..], LOG_LINES))
  {
    match chain
    case None =>
      assert [] + [items[0]] + AddItems(Entered(items[0]), items[1..], LOG_LINES)
          == [] + ([items[0]] + AddItems(Entered(items[0]), items[1..], LOG_LINES));
    case Some(c) =>
      LogItems(c);
      assert [LogItem(c)] + [items[0]] + AddItems(Entered(items[0]), items[1..], LOG_LINES)
          == [LogItem(c)] + ([items[0]] + AddItems(Entered(items[0]), items[1..], LOG_LINES));
  }

  lemma PendingShapes(chain: Option<seq<nat>>)
    ensures ServerIds(PendingLog(chain)) == [] && Without(Shapes(PendingLog(chain)), AccessLog) == []
    ensures chain.Some? ==> Shapes(PendingLog(chain)) == [Shape(ACCESS_LOG, ACCESS_LOG_WORDS[1..], chain.value)]
    ensures chain.None? ==> Shapes(PendingLog(chain)) == []
  {
    if chain.Some? {
      ShapesOne(LogItem(chain.value));
      WithoutOne(Shape(ACCESS_LOG, ACCESS_LOG_WORDS[1..], chain.value), AccessLog);
    }
  }

  lemma {:induction false} AddLogsShapes(chain: Option<seq<nat>>, items: seq<Item>)
    ensures Without(Shapes(AddItems(chain, items, LOG_LINES)), AccessLog) == Without(Shapes(items), AccessLog)
    ensures ServerIds(AddItems(chain, items, LOG_LINES)) == ServerIds(items)
    decreases |items|
  {
    hide OpensServerItem, AddItems, Without, Shapes, ServerIds;
    if items == [] {
      assert AddItems(chain, items, LOG_LINES) == [] by { AddNothing(chain); }
    } else {
      var i, rest := items[0], items[1..];
      var more := AddItems(Entered(i), rest, LOG_LINES);
      AddLogsFirst(chain, items);
      AddLogsShapes(Entered(i), rest);
      PendingShapes(chain);
      ShapesConcat(PendingLog(chain), [i] + more);
      WithoutConcat(Shapes(PendingLog(chain)), Shapes([i] + more), AccessLog);
      ShapesConcat([i], more);
      WithoutConcat(Shapes([i]), Shapes(more), AccessLog);
      assert items == [i] + rest;
      ShapesConcat([i], rest);
      WithoutConcat(Shapes([i]), Shapes(rest), AccessLog);
    }
  }

  lemma AddNothing(chain: Option<seq<nat>>)
    ensures AddItems(chain, [], LOG_LINES) == []
  {}

  // ----- What does not depend on access logs

  function AstraScopes(shapes: seq<Shape>): seq<seq<nat>> {
    if shapes == [] then [] else (if AstraProxy(shapes[0]) then [shapes[0].blocks] else []) + AstraScopes(shapes[1..])
  }

  lemma LogIsNeither(d: Shape, blocks: seq<nat>, name: string)
    requires AccessLog(d)
    ensures !AstraProxy(d) && !NamedHeader(d, blocks, name) && d.name != "include"
  {
    hide Upstream;
    assert ACCESS_LOG[0] != PROXY_SET_HEADER[0] && ACCESS_LOG[0] != "proxy_pass"[0] && ACCESS_LOG[0] != "include"[0];
  }

  lemma {:induction false} LogsDoNotMatter(shapes: seq<Shape>, blocks: seq<nat>, name: string)
    ensures AstraScopes(Without(shapes, AccessLog)) == AstraScopes(shapes)
    ensures HeaderValues(Without(shapes, AccessLog), blocks, name) == HeaderValues(shapes, blocks, name)
    ensures HasInclude(Without(shapes, AccessLog)) <==> HasInclude(shapes)
  {
    hide AstraProxy, NamedHeader, AccessLog;
    if shapes != [] {
      var d, more := shapes[0], Without(shapes[1..], AccessLog);
      LogsDoNotMatter(shapes[1..], blocks, name);
      IncludeFirst(shapes);
      if AccessLog(d) {
        LogIsNeither(d, blocks, name);
        assert [] + more == more;
        assert [] + AstraScopes(shapes[1..]) == AstraScopes(shapes[1..]);
        assert [] + HeaderValues(shapes[1..], blocks, name) == HeaderValues(shapes[1..], blocks, name);
      } else {
        assert ([d] + more)[1..] == more;
        IncludeFirst([d] + more);
      }
    }
  }

  lemma IncludeFirst(shapes: seq<Shape>)
    requires shapes != []
    ensures HasInclude(shapes) <==> shapes[0].name == "include" || HasInclude(shapes[1..])
  {
    assert shapes == [shapes[0]] + shapes[1..];
    if HasInclude(shapes[1..]) {
      var d :| d in shapes[1..] && d.name == "include";
      assert d in shapes;
    }
  }

  // ----- One safe log per server

  predicate AllLogsSafe(shapes: seq<Shape>) {
    shapes == [] || ((AccessLog(shapes[0]) ==> SafeAccessLog(shapes[0])) && AllLogsSafe(shapes[1..]))
  }

  lemma {:induction false} SafeLogsEverywhere(shapes: seq<Shape>, server: nat)
    requires AllLogsSafe(shapes)
    ensures !UnsafeLogIn(shapes, server)
  {
    if shapes != [] {
      SafeLogsEverywhere(shapes[1..], server);
      forall d | d in shapes ensures AccessLog(d) ==> SafeAccessLog(d) {
        if d != shapes[0] {
          assert d in shapes[1..];
          AllSafeMember(shapes[1..], d);
        }
      }
    }
  }

  lemma {:induction false} AllSafeMember(shapes: seq<Shape>, d: Shape)
    requires AllLogsSafe(shapes) && d in shapes
    ensures AccessLog(d) ==> SafeAccessLog(d)
  {
    if d != shapes[0] {
      assert d in shapes[1..];
      AllSafeMember(shapes[1..], d);
    }
  }

  lemma {:induction false} DirectLogsConcat(a: seq<Shape>, b: seq<Shape>, server: nat)
    ensures DirectLogs(a + b, server) == DirectLogs(a, server) + DirectLogs(b, server)
    ensures AllLogsSafe(a + b) <==> AllLogsSafe(a) && AllLogsSafe(b)
  {
    hide AccessLog, SafeAccessLog, DirectlyIn;
    if a == [] {
      assert a + b == b;
    } else {
      assert (a + b)[1..] == a[1..] + b;
      DirectLogsConcat(a[1..], b, server);
    }
  }

  lemma NoLogShape(i: Item, server: nat)
    requires !Chosen(i, AccessLog)
    ensures DirectLogs(ShapeList(i), server) == 0 && AllLogsSafe(ShapeList(i))
  {
    if ShapeList(i) != [] {
      assert ShapeList(i)[1..] == [];
    }
  }

  lemma OneLogShape(chain: seq<nat>, server: nat)
    ensures var shapes := [Shape(ACCESS_LOG, ACCESS_LOG_WORDS[1..], chain)];
      && DirectLogs(shapes, server) == (if chain != [] && chain[|chain| - 1] == server then 1 else 0)
      && AllLogsSafe(shapes)
  {
    assert [Shape(ACCESS_LOG, ACCESS_LOG_WORDS[1..], chain)][1..] == [];
  }

  /** The blocks opened by numbered items have larger identifiers than those open already. */
  lemma {:induction false} LaterServers(items: seq<Item>, n: nat, server: nat)
    requires Numbered(items, n) && server in ServerIds(items)
    ensures n < server
    decreases |items|
  {
    var i := items[0];
    if OpensServerItem(i) && server == i.id {
    } else {
      assert server in ServerIds(items[1..]);
      LaterServers(items[1..], if i.term == '{' then n + 1 else n, server);
    }
  }

  /** The last block of a pending chain. */
  predicate PendingIn(chain: Option<seq<nat>>, n: nat) {
    chain.Some? ==> chain.value != [] && chain.value[|chain.value| - 1] <= n
  }

  function PendingCount(chain: Option<seq<nat>>, server: nat): nat {
    if chain.Some? && chain.value != [] && chain.value[|chain.value| - 1] == server then 1 else 0
  }

  lemma {:induction false} LogsPerServer(chain: Option<seq<nat>>, items: seq<Item>, n: nat, server: nat)
    requires Numbered(items, n) && Continued(items) && NoneChosen(items, AccessLog) && PendingIn(chain, n)
    ensures var shapes := Shapes(AddItems(chain, items, LOG_LINES));
      && AllLogsSafe(shapes)
      && (items != [] ==>
            DirectLogs(shapes, server) == PendingCount(chain, server) + if server in ServerIds(items) then 1 else 0)
    decreases |items|
  {
    hide AddItems, DirectLogs, AllLogsSafe, Chosen, Shapes, ServerIds;
    if items == [] {
      AddNothing(chain);
      NoShapes();
    } else {
      var i, rest := items[0], items[1..];
      var m := if i.term == '{' then n + 1 else n;
      var more := AddItems(Entered(i), rest, LOG_LINES);
      LogsPerServer(Entered(i), rest, m, server);
      AddLogsFirst(chain, items);
      ShapesConcat(PendingLog(chain), [i] + more);
      ShapesConcat([i], more);
      DirectLogsConcat(Shapes(PendingLog(chain)), Shapes([i] + more), server);
      DirectLogsConcat(Shapes([i]), Shapes(more), server);
      ShapesOne(i);
      NoLogShape(i, server);
      PendingLogs(chain, server);
      assert items == [i] + rest;
      ShapesConcat([i], rest);
      if server in ServerIds(rest) { LaterServers(rest, m, server); }
      if rest == [] {
        AddNothing(Entered(i));
        NoShapes();
      }
    }
  }

  lemma NoShapes()
    ensures Shapes([]) == [] && ServerIds([]) == [] && AllLogsSafe([]) && forall k: nat :: DirectLogs([], k) == 0
  {}

  lemma PendingLogs(chain: Option<seq<nat>>, server: nat)
    ensures DirectLogs(Shapes(PendingLog(chain)), server) == PendingCount(chain, server)
    ensures AllLogsSafe(Shapes(PendingLog(chain)))
  {
    PendingShapes(chain);
    if chain.Some? { OneLogShape(chain.value, server); }
  }

  lemma {:induction false} ServersPass(servers: seq<nat>, shapes: seq<Shape>)
    requires AllLogsSafe(shapes) && forall k <- servers :: DirectLogs(shapes, k) == 1
    ensures AuditServers(servers, shapes) == Ok(|servers|)
  {
    hide AllLogsSafe, DirectLogs, UnsafeLogIn;
    if servers != [] {
      SafeLogsEverywhere(shapes, servers[0]);
      assert servers[0] in servers;
      assert forall k :: k in servers[1..] ==> k in servers;
      ServersPass(servers[1..], shapes);
    }
  }

  lemma AddedLogsPass(items: seq<Item>)
    requires Numbered(items, 0) && Continued(items) && NoneChosen(items, AccessLog)
    ensures var f := AddItems(None, items, LOG_LINES);
      ServerIds(f) == ServerIds(items) && AuditServers(ServerIds(f), Shapes(f)) == Ok(|ServerIds(f)|)
  {
    hide AddItems, DirectLogs, AllLogsSafe, Chosen, Shapes, ServerIds;
    AddLogsShapes(None, items);
    var f := AddItems(None, items, LOG_LINES);
    LogsPerServer(None, items, 0, 0);
    forall k | k in ServerIds(f) ensures DirectLogs(Shapes(f), k) == 1 {
      LogsPerServer(None, items, 0, k);
      if items == [] { NoShapes(); }
    }
    ServersPass(ServerIds(f), Shapes(f));
  }

  // ----- Both client-IP headers in the proxy's scope

  lemma LowerNames()
    ensures Lower(REAL_IP_WORDS[1]) == "x-real-ip" && Lower(FORWARDED_FOR_WORDS[1]) == "x-forwarded-for"
    ensures "x-real-ip" != "x-forwarded-for"
  {
    assert "x-real-ip"[2] != "x-forwarded-for"[2];
  }

  lemma {:induction false} ClearedHeaders(items: seq<Item>, blocks: seq<nat>, name: string)
    requires NoneChosen(items, ClientIpIn(blocks)) && (name == "x-real-ip" || name == "x-forwarded-for")
    ensures HeaderValues(Shapes(items), blocks, name) == []
  {
    if items != [] {
      var i := items[0];
      ClearedHeaders(items[1..], blocks, name);
      var more := Shapes(items[1..]);
      if ShapeList(i) != [] {
        var d := ShapeList(i)[0];
        assert !NamedHeader(d, blocks, name);
        assert Shapes(items) == [d] + more && ([d] + more)[1..] == more;
      } else {
        assert [] + more == more;
      }
    }
  }

  lemma HeaderValuesFirst(d: Shape, rest: seq<Shape>, blocks: seq<nat>, name: string)
    ensures HeaderValues([d] + rest, blocks, name)
         == (if NamedHeader(d, blocks, name) then [d.arguments[1]] else []) + HeaderValues(rest, blocks, name)
    ensures AstraScopes([d] + rest) == (if AstraProxy(d) then [d.blocks] else []) + AstraScopes(rest)
  {
    hide AstraProxy;
    assert ([d] + rest)[1..] == rest;
  }

  lemma {:induction false} HeaderValuesConcat(a: seq<Shape>, b: seq<Shape>, blocks: seq<nat>, name: string)
    ensures HeaderValues(a + b, blocks, name) == HeaderValues(a, blocks, name) + HeaderValues(b, blocks, name)
    ensures AstraScopes(a + b) == AstraScopes(a) + AstraScopes(b)
  {
    hide AstraProxy, HeaderValues, AstraScopes;
    if a == [] {
      assert a + b == b;
      NoHeaderValues(blocks, name);
    } else {
      HeaderValuesConcat(a[1..], b, blocks, name);
      assert a == [a[0]] + a[1..] && a + b == [a[0]] + (a[1..] + b);
      HeaderValuesFirst(a[0], a[1..], blocks, name);
      HeaderValuesFirst(a[0], a[1..] + b, blocks, name);
    }
  }

  lemma NoHeaderValues(blocks: seq<nat>, name: string)
    ensures HeaderValues([], blocks, name) == [] && AstraScopes([]) == []
  {}

  lemma HeaderItemValues(words: seq<string>, blocks: seq<nat>, name: string)
    requires words == REAL_IP_WORDS || words == FORWARDED_FOR_WORDS
    ensures var shapes := Shapes([HeaderItem(words, blocks)]);
      && HeaderValues(shapes, blocks, name) == (if Lower(words[1]) == name then [REMOTE_ADDR] else [])
      && AstraScopes(shapes) == [] && ServerIds([HeaderItem(words, blocks)]) == []
  {
    hide Upstream, Lower;
    var i := HeaderItem(words, blocks);
    ShapesOne(i);
    var d := Shape(PROXY_SET_HEADER, words[1..], blocks);
    assert Shapes([i]) == [d] && [d][1..] == [];
    assert PROXY_SET_HEADER[6] != "proxy_pass"[6];
    assert HeaderValues([], blocks, name) == [] && AstraScopes([]) == [];
  }

  lemma {:induction false} AddedHeaderValues(items: seq<Item>, name: string)
    requires AstraScopes(Shapes(items)) != []
    requires HeaderValues(Shapes(items), ProxyScope(items), name) == []
    requires name == "x-real-ip" || name == "x-forwarded-for"
    ensures HeaderValues(Shapes(AddHeaderItems(items)), ProxyScope(items), name) == [REMOTE_ADDR]
    ensures AstraScopes(Shapes(AddHeaderItems(items))) == AstraScopes(Shapes(items))
    ensures ServerIds(AddHeaderItems(items)) == ServerIds(items)
    decreases |items|
  {
    hide HeaderItem, ProxyItem, Shapes, HeaderValues, AstraScopes, ServerIds, Lower;
    if items == [] {
      NoScopes(name);
    } else {
      var i, rest := items[0], items[1..];
      assert items == [i] + rest;
      ShapesConcat([i], rest);
      var c := ProxyScope(items);
      HeaderValuesConcat(Shapes([i]), Shapes(rest), c, name);
      if ProxyItem(i) {
        var x, y := HeaderItem(REAL_IP_WORDS, c), HeaderItem(FORWARDED_FOR_WORDS, c);
        LowerNames();
        HeaderItemValues(REAL_IP_WORDS, c, name);
        HeaderItemValues(FORWARDED_FOR_WORDS, c, name);
        assert [x, y] + items == [x] + ([y] + items);
        ShapesConcat([x], [y] + items);
        ShapesConcat([y], items);
        HeaderValuesConcat(Shapes([x]), Shapes([y] + items), c, name);
        HeaderValuesConcat(Shapes([y]), Shapes(items), c, name);
      } else {
        NotProxyScopes(i);
        AddedHeaderValues(rest, name);
        ShapesConcat([i], AddHeaderItems(rest));
        HeaderValuesConcat(Shapes([i]), Shapes(AddHeaderItems(rest)), c, name);
      }
    }
  }

  lemma NoScopes(name: string)
    ensures AstraScopes(Shapes([])) == []
  {}

  lemma NotProxyScopes(i: Item)
    ensures AstraScopes(Shapes([i])) == if ProxyItem(i) then [i.chain] else []
  {
    hide AstraProxy;
    ShapesOne(i);
    if ShapeList(i) != [] {
      assert [ShapeList(i)[0]][1..] == [];
    }
    assert AstraScopes([]) == [];
  }

  lemma {:induction false} FirstScope(items: seq<Item>)
    ensures AstraScopes(Shapes(items)) != [] ==> AstraScopes(Shapes(items))[0] == ProxyScope(items)
    ensures |AstraScopes(Shapes(items))| == CountChosen(items, AstraProxy)
  {
    hide AstraProxy, Shapes, AstraScopes, ProxyItem;
    if items == [] {
      NoScopes("");
    } else {
      var i, rest := items[0], items[1..];
      assert items == [i] + rest;
      ShapesConcat([i], rest);
      HeaderValuesConcat(Shapes([i]), Shapes(rest), [], "");
      NotProxyScopes(i);
      FirstScope(rest);
      ProxyItemChosen(i);
    }
  }

  lemma ProxyItemChosen(i: Item)
    ensures ProxyItem(i) <==> Chosen(i, AstraProxy)
  {}

  /** Dropping header directives drops no proxy. */
  lemma {:induction false} ScopesWithout(shapes: seq<Shape>, p: Shape -> bool)
    requires forall d :: p(d) ==> !AstraProxy(d)
    ensures AstraScopes(Without(shapes, p)) == AstraScopes(shapes)
    ensures HasInclude(Without(shapes, p)) ==> HasInclude(shapes)
  {
    hide AstraProxy;
    if shapes != [] {
      var d, more := shapes[0], Without(shapes[1..], p);
      ScopesWithout(shapes[1..], p);
      IncludeFirst(shapes);
      if p(d) {
        assert [] + more == more;
        assert [] + AstraScopes(shapes[1..]) == AstraScopes(shapes[1..]);
      } else {
        assert ([d] + more)[1..] == more;
        IncludeFirst([d] + more);
      }
    }
  }

  lemma {:induction false} ProxiesPass(proxies: seq<Shape>, shapes: seq<Shape>, blocks: seq<nat>)
    requires forall c <- AstraScopes(proxies) :: c == blocks
    requires HeaderValues(shapes, blocks, "x-real-ip") == [REMOTE_ADDR]
    requires HeaderValues(shapes, blocks, "x-forwarded-for") == [REMOTE_ADDR]
    ensures AuditProxies(proxies, shapes) == Ok(true)
  {
    hide AstraProxy, HeaderValues;
    if proxies != [] {
      var more := AstraScopes(proxies[1..]);
      if AstraProxy(proxies[0]) {
        assert AstraScopes(proxies) == [proxies[0].blocks] + more;
        assert proxies[0].blocks in AstraScopes(proxies);
        assert forall c :: c in more ==> c in AstraScopes(proxies);
      } else {
        assert AstraScopes(proxies) == [] + more == more;
      }
      ProxiesPass(proxies[1..], shapes, blocks);
    }
  }

  // ----- The whole rewrite

  lemma {:induction false} RerouteShapes(items: seq<Item>, p: Port)
    ensures AstraScopes(Shapes(RerouteItems(items, p))) == AstraScopes(Shapes(items))
    ensures ServerIds(RerouteItems(items, p)) == ServerIds(items)
    ensures HasInclude(Shapes(RerouteItems(items, p))) <==> HasInclude(Shapes(items))
    ensures ProxyScope(RerouteItems(items, p)) == ProxyScope(items)
  {
    hide Shapes, AstraScopes, ServerIds, HasInclude, RerouteItem, ProxyItem;
    if items != [] {
      var i, rest := items[0], items[1..];
      var j, more := RerouteItem(i, p), RerouteItems(rest, p);
      RerouteShapes(rest, p);
      assert items == [i] + rest;
      assert ([j] + more)[1..] == more;
      ShapesConcat([i], rest);
      ShapesConcat([j], more);
      HeaderValuesConcat(Shapes([i]), Shapes(rest), [], "");
      HeaderValuesConcat(Shapes([j]), Shapes(more), [], "");
      NotProxyScopes(i);
      NotProxyScopes(j);
      RerouteOne(i, p);
      ShapesOne(i);
      ShapesOne(j);
      IncludeConcat(Shapes([i]), Shapes(rest));
      IncludeConcat(Shapes([j]), Shapes(more));
    }
  }

  lemma RerouteOne(i: Item, p: Port)
    ensures var j := RerouteItem(i, p);
      && (ProxyItem(j) <==> ProxyItem(i)) && j.chain == i.chain && (OpensServerItem(j) <==> OpensServerItem(i)) && j.id == i.id
      && (HasInclude(Shapes([j])) <==> HasInclude(Shapes([i])))
  {
    hide Upstream;
    var j := RerouteItem(i, p);
    ShapesOne(i);
    ShapesOne(j);
    if ProxyItem(i) {
      assert [i.words[0], Upstream(p)][1..] == [Upstream(p)];
      assert "proxy_pass"[0] != "include"[0];
    }
  }

  lemma IncludeConcat(a: seq<Shape>, b: seq<Shape>)
    ensures HasInclude(a + b) <==> HasInclude(a) || HasInclude(b)
  {
    if HasInclude(a) {
      var d :| d in a && d.name == "include";
      assert d in a + b;
    }
    if HasInclude(b) {
      var d :| d in b && d.name == "include";
      assert d in a + b;
    }
  }

  lemma {:induction false} AddHeadersInclude(items: seq<Item>)
    ensures HasInclude(Shapes(AddHeaderItems(items))) <==> HasInclude(Shapes(items))
  {
    hide Shapes, HasInclude, HeaderItem, ProxyItem;
    if items != [] {
      var i, rest := items[0], items[1..];
      assert items == [i] + rest;
      ShapesConcat([i], rest);
      IncludeConcat(Shapes([i]), Shapes(rest));
      if ProxyItem(i) {
        var x, y := HeaderItem(REAL_IP_WORDS, i.chain), HeaderItem(FORWARDED_FOR_WORDS, i.chain);
        assert [x, y] + items == [x] + ([y] + items);
        ShapesConcat([x], [y] + items);
        ShapesConcat([y], items);
        IncludeConcat(Shapes([x]), Shapes([y] + items));
        IncludeConcat(Shapes([y]), Shapes(items));
        HeaderIsNoInclude(REAL_IP_WORDS, i.chain);
        HeaderIsNoInclude(FORWARDED_FOR_WORDS, i.chain);
      } else {
        AddHeadersInclude(rest);
        ShapesConcat([i], AddHeaderItems(rest));
        IncludeConcat(Shapes([i]), Shapes(AddHeaderItems(rest)));
      }
    }
  }

  lemma HeaderIsNoInclude(words: seq<string>, chain: seq<nat>)
    ensures !HasInclude(Shapes([HeaderItem(words, chain)]))
  {
    ShapesOne(HeaderItem(words, chain));
    assert PROXY_SET_HEADER[0] != "include"[0];
  }

  lemma ClientIpIsNoProxy(blocks: seq<nat>)
    ensures forall d :: ClientIpIn(blocks)(d) ==> !AstraProxy(d)
  {
    hide Upstream;
    assert PROXY_SET_HEADER[6] != "proxy_pass"[6];
  }

  /** The headers after the rewrite, in the scope of the only Astra proxy. */
  lemma HeadersInstalled(items: seq<Item>, p: Port, name: string)
    requires CountChosen(items, AstraProxy) == 1 && (name == "x-real-ip" || name == "x-forwarded-for")
    ensures var f := Shapes(RewriteItems(items, p));
      && AstraScopes(f) == [ProxyScope(items)]
      && HeaderValues(f, ProxyScope(items), name) == [REMOTE_ADDR]
      && (HasInclude(f) ==> HasInclude(Shapes(items)))
  {
    hide Shapes, HeaderValues, AstraScopes, HasInclude, Drop, AddItems, AddHeaderItems, RerouteItems, Without,
      ClientIpIn;
    var c := ProxyScope(items);
    var routed := RerouteItems(items, p);
    var cleared := Drop(routed, ClientIpIn(c));
    var headed := AddHeaderItems(cleared);
    FirstScope(items);
    RerouteShapes(items, p);
    DropShapes(routed, ClientIpIn(c));
    ClientIpIsNoProxy(c);
    ScopesWithout(Shapes(routed), ClientIpIn(c));
    FirstScope(cleared);
    DroppedNone(routed, ClientIpIn(c));
    ClearedHeaders(cleared, c, name);
    AddedHeaderValues(cleared, name);
    AddHeadersInclude(cleared);
    DropShapes(headed, AccessLog);
    AddLogsShapes(None, Drop(headed, AccessLog));
    WithoutTwice(Shapes(headed), AccessLog);
    LogsDoNotMatter(Shapes(headed), c, name);
    LogsDoNotMatter(Shapes(Drop(headed, AccessLog)), c, name);
    LogsDoNotMatter(Shapes(RewriteItems(items, p)), c, name);
  }

  lemma RewriteKeepsServers(items: seq<Item>, p: Port)
    requires CountChosen(items, AstraProxy) == 1
    ensures ServerIds(RewriteItems(items, p)) == ServerIds(items)
  {
    hide Shapes, HeaderValues, AstraScopes, HasInclude, Drop, AddItems, AddHeaderItems, RerouteItems, Without,
      ClientIpIn, ServerIds;
    var c := ProxyScope(items);
    var routed := RerouteItems(items, p);
    var cleared := Drop(routed, ClientIpIn(c));
    FirstScope(items);
    RerouteShapes(items, p);
    DropShapes(routed, ClientIpIn(c));
    ClientIpIsNoProxy(c);
    ScopesWithout(Shapes(routed), ClientIpIn(c));
    FirstScope(cleared);
    DroppedNone(routed, ClientIpIn(c));
    ClearedHeaders(cleared, c, "x-real-ip");
    AddedHeaderValues(cleared, "x-real-ip");
    var headed := AddHeaderItems(cleared);
    DropShapes(headed, AccessLog);
    AddLogsShapes(None, Drop(headed, AccessLog));
  }

  /** The auditor can reject the result of the rewrite only for the site's own log formats. */
  lemma RewritePasses(items: seq<Item>, p: Port, raws: seq<string>)
    requires CountChosen(items, AstraProxy) == 1 && !HasInclude(Shapes(items)) && ServerIds(items) != []
    requires var headed := AddHeaderItems(Drop(RerouteItems(items, p), ClientIpIn(ProxyScope(items))));
      var last := Drop(headed, AccessLog);
      Numbered(last, 0) && Continued(last)
    ensures AuditItems(RewriteItems(items, p), raws) ==
      if AuditFormats(raws).Ok? then Ok((|ServerIds(items)|, |ServerIds(items)|)) else Err(AuditFormats(raws).error)
  {
    hide Shapes, HeaderValues, AstraScopes, HasInclude, Drop, AddItems, AddHeaderItems, RerouteItems, Without,
      ClientIpIn, ServerIds, AuditServers, AuditProxies, AuditFormats, Numbered, Continued;
    var f := RewriteItems(items, p);
    RerouteShapes(items, p);
    HeadersInstalled(items, p, "x-real-ip");
    HeadersInstalled(items, p, "x-forwarded-for");
    RewriteKeepsServers(items, p);
    ProxiesPass(Shapes(f), Shapes(f), ProxyScope(items));
    var headed := AddHeaderItems(Drop(RerouteItems(items, p), ClientIpIn(ProxyScope(items))));
    DroppedNone(headed, AccessLog);
    AddedLogsPass(Drop(headed, AccessLog));
  }
}
