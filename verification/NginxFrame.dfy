module NginxFrame {

  // The cutover in literal words: one pass over the statements, and what it leaves alone.

  import opened Options
  import opened PythonText
  import opened NginxText
  import opened NginxDocument
  import opened NginxRemoval
  import opened NginxMeaning
  import opened NginxPhrases
  import opened NginxServers
  import opened NginxUpstream
  import opened NginxHeaders
  import opened NginxAudit
  import opened NginxSafe
  import opened NginxGuarantees
  import opened NginxMarkers
  import opened NginxSite
  import opened NginxRewrite
  import opened NginxCutover

  /** An access log. */
  predicate IsLog(i: Item) { i.term == ';' && i.words != [] && i.name == "access_log" }

  /** A proxy to one of the two Astra ports. */
  predicate IsAstra(i: Item) {
    && i.term == ';' && |i.words| == 2 && i.name == "proxy_pass"
    && (i.words[1] == "http://127.0.0.1:3008" || i.words[1] == "http://127.0.0.1:3009")
  }

  /** A client-IP header of the scope. */
  predicate IsAddressHeader(i: Item, scope: seq<nat>) {
    && i.term == ';' && |i.words| > 1 && i.name == "proxy_set_header" && i.chain == scope
    && (AnyCase(i.words[1], "x-real-ip") || AnyCase(i.words[1], "x-forwarded-for"))
  }

  predicate IsServer(i: Item) { i.term == '{' && i.name == "server" }

  function Url(p: Port): string { if p == P3008 then "http://127.0.0.1:3008" else "http://127.0.0.1:3009" }

  /** What the cutover makes of one statement. */
  function Turned(i: Item, scope: seq<nat>, p: Port): seq<Item> {
    if IsLog(i) || IsAddressHeader(i, scope) then []
    else if IsAstra(i) then
      [Item(["proxy_set_header", "X-Real-IP", "$remote_addr"], ';', "proxy_set_header", i.chain, 0),
       Item(["proxy_set_header", "X-Forwarded-For", "$remote_addr"], ';', "proxy_set_header", i.chain, 0),
       i.(words := [i.words[0], Url(p)])]
    else if IsServer(i) then
      [i, Item(["access_log", "/var/log/nginx/access.log", "astra_no_args"], ';', "access_log", i.chain + [i.id], 0)]
    else [i]
  }

  /** The cutover, statement by statement. */
  function OnePass(items: seq<Item>, scope: seq<nat>, p: Port): seq<Item> {
    if items == [] then [] else Turned(items[0], scope, p) + OnePass(items[1..], scope, p)
  }

  /** The Astra proxy of a site that has only one. */
  predicate OnlyProxyAt(items: seq<Item>, k: nat) {
    k < |items| && IsAstra(items[k]) && forall j :: 0 <= j < |items| && IsAstra(items[j]) ==> j == k
  }

  /** The statements that are neither access logs nor client-IP headers of the scope, without the proxy's argument. */
  function Others(items: seq<Item>, scope: seq<nat>): seq<Item> {
    if items == [] then []
    else
      var i := items[0];
      (if IsLog(i) || IsAddressHeader(i, scope) then []
       else if IsAstra(i) then [i.(words := [i.words[0]])]
       else [i])
      + Others(items[1..], scope)
  }

  // ----- The literal rules are the configurator's rules

  lemma LogIs(i: Item)
    ensures IsLog(i) <==> Chosen(i, AccessLog)
  {}

  lemma AstraIs(i: Item)
    ensures IsAstra(i) <==> ProxyItem(i)
  {
    hide Upstream;
    UpstreamTexts();
    if |i.words| == 2 { assert i.words[1..] == [i.words[1]]; }
    if i.words != [] && |i.words| != 2 { assert |i.words[1..]| != 1; }
  }

  lemma HeaderIs(i: Item, scope: seq<nat>)
    ensures IsAddressHeader(i, scope) <==> Chosen(i, ClientIpIn(scope))
  {
    hide Lower, AnyCase;
    if |i.words| > 1 {
      assert i.words[1..][0] == i.words[1];
      LowerIs(i.words[1], "x-real-ip");
      LowerIs(i.words[1], "x-forwarded-for");
    }
  }

  lemma UrlIs(p: Port)
    ensures Url(p) == Upstream(p)
  {
    hide Upstream;
    UpstreamTexts();
  }

  // ----- The passes, statement by statement

  function HeadEach(items: seq<Item>): seq<Item> {
    if items == [] then []
    else
      (if ProxyItem(items[0])
       then [HeaderItem(REAL_IP_WORDS, items[0].chain), HeaderItem(FORWARDED_FOR_WORDS, items[0].chain), items[0]]
       else [items[0]])
      + HeadEach(items[1..])
  }

  function LogEach(items: seq<Item>): seq<Item> {
    if items == [] then []
    else
      (if OpensServerItem(items[0]) then [items[0], LogItem(items[0].chain + [items[0].id])] else [items[0]])
      + LogEach(items[1..])
  }

  lemma {:induction false} HeadNone(items: seq<Item>)
    requires CountChosen(items, AstraProxy) == 0
    ensures HeadEach(items) == items
  {
    hide ProxyItem;
    if items != [] {
      HeadNone(items[1..]);
      ProxyItemChosen(items[0]);
      assert items == [items[0]] + items[1..];
    }
  }

  /** With one proxy the headers before the first proxy are those before every proxy. */
  lemma {:induction false} HeadOnce(items: seq<Item>)
    requires CountChosen(items, AstraProxy) <= 1
    ensures AddHeaderItems(items) == HeadEach(items)
  {
    hide ProxyItem, HeaderItem;
    if items != [] {
      var i, rest := items[0], items[1..];
      ProxyItemChosen(i);
      if ProxyItem(i) {
        HeadNone(rest);
        var x, y := HeaderItem(REAL_IP_WORDS, i.chain), HeaderItem(FORWARDED_FOR_WORDS, i.chain);
        assert [x, y] + items == [x, y, i] + rest;
      } else {
        HeadOnce(rest);
      }
    }
  }

  lemma {:induction false} LogFirst(chain: Option<seq<nat>>, items: seq<Item>)
    requires Continued(items) && items != []
    ensures AddItems(chain, items, LOG_LINES) == PendingLog(chain) + LogEach(items)
    decreases |items|
  {
    hide OpensServerItem, AddItems, LogItem;
    var i, rest := items[0], items[1..];
    AddLogsFirst(chain, items);
    if rest == [] {
      AddNothing(Entered(i));
      LastOpensNothing(items);
      assert LogEach(rest) == [];
    } else {
      LogFirst(Entered(i), rest);
      LogAfter(i, rest);
    }
  }

  lemma LogAfter(i: Item, rest: seq<Item>)
    ensures [i] + (PendingLog(Entered(i)) + LogEach(rest)) == LogEach([i] + rest)
  {
    hide OpensServerItem, LogItem;
    assert ([i] + rest)[1..] == rest;
  }

  lemma LastOpensNothing(items: seq<Item>)
    requires Continued(items) && |items| == 1
    ensures !OpensServerItem(items[0])
  {}

  lemma LogNothing()
    ensures AddItems(None, [], LOG_LINES) == LogEach([])
  {}

  // ----- The passes on concatenated lists

  lemma {:induction false} DropConcat(a: seq<Item>, b: seq<Item>, p: Shape -> bool)
    ensures Drop(a + b, p) == Drop(a, p) + Drop(b, p)
  {
    hide Chosen;
    if a == [] {
      assert a + b == b;
    } else {
      assert (a + b)[1..] == a[1..] + b;
      DropConcat(a[1..], b, p);
    }
  }

  lemma {:induction false} LogEachConcat(a: seq<Item>, b: seq<Item>)
    ensures LogEach(a + b) == LogEach(a) + LogEach(b)
  {
    hide OpensServerItem, LogItem;
    if a == [] {
      assert a + b == b;
    } else {
      assert (a + b)[1..] == a[1..] + b;
      LogEachConcat(a[1..], b);
    }
  }

  lemma {:induction false} HeadEachConcat(a: seq<Item>, b: seq<Item>)
    ensures HeadEach(a + b) == HeadEach(a) + HeadEach(b)
  {
    hide ProxyItem, HeaderItem;
    if a == [] {
      assert a + b == b;
    } else {
      assert (a + b)[1..] == a[1..] + b;
      HeadEachConcat(a[1..], b);
    }
  }

  /** The passes behind the rerouting, one after the other. */
  function Passes(items: seq<Item>, scope: seq<nat>): seq<Item> {
    LogEach(Drop(HeadEach(Drop(items, ClientIpIn(scope))), AccessLog))
  }

  lemma PassesConcat(a: seq<Item>, b: seq<Item>, scope: seq<nat>)
    ensures Passes(a + b, scope) == Passes(a, scope) + Passes(b, scope)
  {
    hide Drop, HeadEach, LogEach, AccessLog, ClientIpIn;
    var p := ClientIpIn(scope);
    DropConcat(a, b, p);
    HeadEachConcat(Drop(a, p), Drop(b, p));
    DropConcat(HeadEach(Drop(a, p)), HeadEach(Drop(b, p)), AccessLog);
    LogEachConcat(Drop(HeadEach(Drop(a, p)), AccessLog), Drop(HeadEach(Drop(b, p)), AccessLog));
  }

  lemma DropOne(i: Item, p: Shape -> bool)
    ensures Drop([i], p) == if Chosen(i, p) then [] else [i]
  {
    hide Chosen;
    assert [i][1..] == [] && Drop([], p) == [];
  }

  lemma EachOne(i: Item)
    ensures HeadEach([i]) ==
      if ProxyItem(i) then [HeaderItem(REAL_IP_WORDS, i.chain), HeaderItem(FORWARDED_FOR_WORDS, i.chain), i] else [i]
    ensures LogEach([i]) == if OpensServerItem(i) then [i, LogItem(i.chain + [i.id])] else [i]
  {
    hide ProxyItem, OpensServerItem, HeaderItem, LogItem;
    assert [i][1..] == [] && HeadEach([]) == [] && LogEach([]) == [];
  }

  lemma NoPasses(scope: seq<nat>)
    ensures Passes([], scope) == []
  {}

  lemma PlainPasses(i: Item, scope: seq<nat>, p: Port)
    requires !ProxyItem(i)
    ensures Passes([i], scope) == Turned(i, scope, p)
  {
    hide ProxyItem, IsLog, IsAddressHeader, IsAstra, ClientIpIn, Chosen, HeaderItem, AccessLog;
    LogIs(i);
    AstraIs(i);
    HeaderIs(i, scope);
    DropOne(i, ClientIpIn(scope));
    EachOne(i);
    DropOne(i, AccessLog);
    NothingPasses();
  }

  lemma NothingPasses()
    ensures HeadEach([]) == [] && Drop([], AccessLog) == [] && LogEach([]) == []
  {}

  lemma ProxyIsNeither(i: Item, scope: seq<nat>)
    requires ProxyItem(i)
    ensures !Chosen(i, AccessLog) && !Chosen(i, ClientIpIn(scope)) && !OpensServerItem(i)
  {
    hide Upstream;
    assert ACCESS_LOG[0] != "proxy_pass"[0] && PROXY_SET_HEADER[6] != "proxy_pass"[6];
  }

  lemma HeaderIsNeither(words: seq<string>, chain: seq<nat>)
    ensures !Chosen(HeaderItem(words, chain), AccessLog) && !OpensServerItem(HeaderItem(words, chain))
  {
    assert ACCESS_LOG[0] != PROXY_SET_HEADER[0];
  }

  lemma HeadedPasses(x: Item, y: Item, i: Item)
    requires forall j <- [x, y, i] :: !Chosen(j, AccessLog) && !OpensServerItem(j)
    ensures LogEach(Drop([x, y, i], AccessLog)) == [x, y, i]
  {
    hide Chosen, OpensServerItem, LogItem;
    assert x in [x, y, i] && y in [x, y, i] && i in [x, y, i];
    assert [x, y, i] == [x] + ([y] + [i]);
    DropConcat([x], [y] + [i], AccessLog);
    DropConcat([y], [i], AccessLog);
    LogEachConcat([x], [y] + [i]);
    LogEachConcat([y], [i]);
    EachOne(x);
    EachOne(y);
    EachOne(i);
    DropOne(x, AccessLog);
    DropOne(y, AccessLog);
    DropOne(i, AccessLog);
  }

  lemma ProxyPasses(i: Item, scope: seq<nat>, p: Port)
    requires ProxyItem(i)
    ensures Passes([RerouteItem(i, p)], scope) == Turned(i, scope, p)
  {
    hide ProxyItem, IsLog, IsAddressHeader, IsAstra, ClientIpIn, Chosen, OpensServerItem, Upstream;
    var j := RerouteItem(i, p);
    RerouteOne(i, p);
    ProxyIsNeither(i, scope);
    ProxyIsNeither(j, scope);
    HeaderIsNeither(REAL_IP_WORDS, j.chain);
    HeaderIsNeither(FORWARDED_FOR_WORDS, j.chain);
    LogIs(i);
    AstraIs(i);
    HeaderIs(i, scope);
    UrlIs(p);
    DropOne(j, ClientIpIn(scope));
    EachOne(j);
    HeadedPasses(HeaderItem(REAL_IP_WORDS, j.chain), HeaderItem(FORWARDED_FOR_WORDS, j.chain), j);
  }

  lemma {:induction false} PassesAre(items: seq<Item>, scope: seq<nat>, p: Port)
    ensures Passes(RerouteItems(items, p), scope) == OnePass(items, scope, p)
  {
    hide Passes, Turned, RerouteItem;
    if items == [] {
      NoPasses(scope);
    } else {
      var i, rest := items[0], items[1..];
      PassesAre(rest, scope, p);
      PassesConcat([RerouteItem(i, p)], RerouteItems(rest, p), scope);
      if ProxyItem(i) {
        ProxyPasses(i, scope, p);
      } else {
        PlainPasses(i, scope, p);
        assert RerouteItem(i, p) == i by { NotRerouted(i, p); }
      }
    }
  }

  lemma NotRerouted(i: Item, p: Port)
    requires !ProxyItem(i)
    ensures RerouteItem(i, p) == i
  {}

  // ----- One proxy

  lemma {:induction false} CountRerouted(items: seq<Item>, p: Port)
    ensures CountChosen(RerouteItems(items, p), AstraProxy) == CountChosen(items, AstraProxy)
  {
    hide Chosen, RerouteItem;
    if items != [] {
      CountRerouted(items[1..], p);
      RerouteOne(items[0], p);
      ProxyItemChosen(items[0]);
      ProxyItemChosen(RerouteItem(items[0], p));
      assert RerouteItems(items, p)[1..] == RerouteItems(items[1..], p);
    }
  }

  lemma {:induction false} CountDropped(items: seq<Item>, p: Shape -> bool)
    ensures CountChosen(Drop(items, p), AstraProxy) <= CountChosen(items, AstraProxy)
  {
    hide Chosen;
    if items != [] {
      var more := Drop(items[1..], p);
      CountDropped(items[1..], p);
      if Chosen(items[0], p) {
        assert [] + more == more;
      } else {
        assert ([items[0]] + more)[1..] == more;
      }
    }
  }

  lemma {:induction false} NoProxies(items: seq<Item>)
    ensures CountChosen(items, AstraProxy) == 0 <==> forall j :: 0 <= j < |items| ==> !IsAstra(items[j])
  {
    hide Chosen, IsAstra;
    if items != [] {
      NoProxies(items[1..]);
      AstraIs(items[0]);
      ProxyItemChosen(items[0]);
      assert forall j :: 0 < j < |items| ==> items[j] == items[1..][j - 1];
    }
  }

  /** One proxy: its place and its scope. */
  lemma {:induction false} OneProxyAt(items: seq<Item>)
    requires CountChosen(items, AstraProxy) == 1
    ensures exists k: nat :: OnlyProxyAt(items, k) && items[k].chain == ProxyScope(items)
  {
    hide Chosen, IsAstra, ProxyItem;
    var i, rest := items[0], items[1..];
    AstraIs(i);
    ProxyItemChosen(i);
    NoProxies(rest);
    assert forall j :: 0 < j < |items| ==> items[j] == rest[j - 1];
    if ProxyItem(i) {
      assert OnlyProxyAt(items, 0);
    } else {
      OneProxyAt(rest);
      var k: nat :| OnlyProxyAt(rest, k) && rest[k].chain == ProxyScope(rest);
      assert OnlyProxyAt(items, k + 1);
    }
  }

  /** The edits of a cutover are one pass with the scope of the only proxy. */
  lemma RewriteIsOnePass(items: seq<Item>, p: Port)
    requires CountChosen(items, AstraProxy) == 1
    requires var routed := RerouteItems(items, p);
      Continued(Drop(AddHeaderItems(Drop(routed, ClientIpIn(ProxyScope(routed)))), AccessLog))
    ensures exists k: nat :: OnlyProxyAt(items, k) && RewriteItems(items, p) == OnePass(items, items[k].chain, p)
  {
    hide Drop, AddHeaderItems, ClientIpIn, AccessLog, Continued, AddItems, HeadEach, LogEach, OnlyProxyAt, RerouteItems,
      CountChosen;
    var routed := RerouteItems(items, p);
    var scope := ProxyScope(routed);
    RerouteShapes(items, p);
    CountRerouted(items, p);
    CountDropped(routed, ClientIpIn(scope));
    HeadOnce(Drop(routed, ClientIpIn(scope)));
    var bare := Drop(HeadEach(Drop(routed, ClientIpIn(scope))), AccessLog);
    if bare == [] { LogNothing(); } else { LogFirst(None, bare); }
    PassesAre(items, scope, p);
    OneProxyAt(items);
  }

  // ----- Every successful cutover

  /** The statements of a site, without its maintenance blocks. */
  function Before(text: string): seq<Item>
    requires RemoveMaintenance(text).Ok? && Meaning(RemoveMaintenance(text).value).Ok?
  {
    Meaning(RemoveMaintenance(text).value).value
  }

  /** A successful cutover is the literal pass over the statements, in the scope of the site's only Astra proxy. */
  lemma CutoverIsOnePass(text: string, p: Port)
    requires Cutover(text, p).Ok?
    ensures RemoveMaintenance(text).Ok? && Meaning(RemoveMaintenance(text).value).Ok?
    ensures var before := Before(text);
      exists k: nat :: OnlyProxyAt(before, k) && Meaning(Cutover(text, p).value.0) == Ok(OnePass(before, before[k].chain, p))
  {
    hide RemoveMaintenance, Verdict, Cutover, DocOk, RenderDoc, Finished, Routed, DocOf, Meaning, Items,
      ServerIds, Accepted, RewriteItems, OneProxy, IsAstra, OnePass;
    CutoverOk(text, p);
    CutoverDoc(text, p);
    var d := DocOf(RemoveMaintenance(text).value);
    RoutedMeaning(d, p);
    CountIsOne(d);
    ContinuedAfter(Routed(d, p));
    var before := Items(d.stmts);
    RewriteIsOnePass(before, p);
    var k: nat :| OnlyProxyAt(before, k) && RewriteItems(before, p) == OnePass(before, before[k].chain, p);
    assert Before(text) == before;
  }

  lemma ContinuedAfter(d: Doc)
    requires DocOk(d)
    ensures Continued(Drop(AddHeaderItems(Drop(Items(d.stmts), ClientIpIn(ProxyScope(Items(d.stmts))))), AccessLog))
  {
    hide WellFormed, Items, Drop, AddHeaderItems, Continued, Numbered, ClearHeaders, WithHeaders, ClearLogs;
    FinishedMeaning(d);
    var bare := ClearLogs(WithHeaders(ClearHeaders(d)));
    DocumentNumbered(OUTSIDE, bare.stmts, bare.tail);
  }

  // ----- What a cutover leaves alone

  lemma {:induction false} OthersConcat(a: seq<Item>, b: seq<Item>, scope: seq<nat>)
    ensures Others(a + b, scope) == Others(a, scope) + Others(b, scope)
  {
    hide IsLog, IsAddressHeader, IsAstra;
    if a == [] {
      assert a + b == b;
    } else {
      assert (a + b)[1..] == a[1..] + b;
      OthersConcat(a[1..], b, scope);
    }
  }

  /** What one statement leaves behind counts for the others as the statement itself. */
  lemma TurnedOthers(i: Item, p: Port, scope: seq<nat>)
    requires IsAstra(i) ==> i.chain == scope
    ensures Others(Turned(i, scope, p), scope) == Others([i], scope)
  {
    hide IsLog, IsAddressHeader, IsAstra, IsServer;
    OthersOne(i, scope);
    OthersNothing(scope);
    if IsLog(i) || IsAddressHeader(i, scope) {
    } else if IsAstra(i) {
      var x := Item(["proxy_set_header", "X-Real-IP", "$remote_addr"], ';', "proxy_set_header", scope, 0);
      var y := Item(["proxy_set_header", "X-Forwarded-For", "$remote_addr"], ';', "proxy_set_header", scope, 0);
      AstraHasWords(i);
      var z := i.(words := [i.words[0], Url(p)]);
      assert Turned(i, scope, p) == [x] + ([y] + [z]);
      OthersConcat([x], [y] + [z], scope);
      OthersConcat([y], [z], scope);
      OthersOne(x, scope);
      OthersOne(y, scope);
      OthersOne(z, scope);
      AddedHeaders(scope);
      AstraPointed(i, scope, p);
    } else if IsServer(i) {
      var x := Item(["access_log", "/var/log/nginx/access.log", "astra_no_args"], ';', "access_log", i.chain + [i.id], 0);
      assert Turned(i, scope, p) == [i] + [x];
      OthersConcat([i], [x], scope);
      OthersOne(x, scope);
      AddedLog(i.chain + [i.id]);
    }
  }

  lemma OthersNothing(scope: seq<nat>)
    ensures Others([], scope) == []
  {}

  lemma OthersOne(i: Item, scope: seq<nat>)
    ensures Others([i], scope) ==
      if IsLog(i) || IsAddressHeader(i, scope) then []
      else if IsAstra(i) then [i.(words := [i.words[0]])]
      else [i]
  {
    hide IsLog, IsAddressHeader;
    assert [i][1..] == [];
  }

  lemma AddedHeaders(scope: seq<nat>)
    ensures IsAddressHeader(Item(["proxy_set_header", "X-Real-IP", "$remote_addr"], ';', "proxy_set_header", scope, 0), scope)
    ensures IsAddressHeader(Item(["proxy_set_header", "X-Forwarded-For", "$remote_addr"], ';', "proxy_set_header", scope, 0),
                            scope)
  {
    assert AnyCase("X-Real-IP", "x-real-ip");
    assert AnyCase("X-Forwarded-For", "x-forwarded-for");
  }

  lemma AddedLog(chain: seq<nat>)
    ensures IsLog(Item(["access_log", "/var/log/nginx/access.log", "astra_no_args"], ';', "access_log", chain, 0))
  {}

  lemma AstraHasWords(i: Item)
    requires IsAstra(i)
    ensures |i.words| == 2
  {}

  lemma AstraPointed(i: Item, scope: seq<nat>, p: Port)
    requires IsAstra(i)
    ensures var z := i.(words := [i.words[0], Url(p)]);
      IsAstra(z) && !IsLog(z) && !IsAddressHeader(z, scope) && z.(words := [z.words[0]]) == i.(words := [i.words[0]])
  {
    hide AnyCase;
    assert "access_log"[0] != "proxy_pass"[0] && "proxy_set_header"[6] != "proxy_pass"[6];
  }

  lemma {:induction false} OnePassOthers(items: seq<Item>, p: Port, scope: seq<nat>)
    requires forall i <- items :: IsAstra(i) ==> i.chain == scope
    ensures Others(OnePass(items, scope, p), scope) == Others(items, scope)
  {
    hide IsLog, IsAddressHeader, IsAstra, Turned, Others;
    if items != [] {
      var i, rest := items[0], items[1..];
      OnePassOthers(rest, p, scope);
      TurnedOthers(i, p, scope);
      OthersConcat(Turned(i, scope, p), OnePass(rest, scope, p), scope);
      OthersConcat([i], rest, scope);
      assert items == [i] + rest;
    }
  }

  /** A successful cutover leaves every statement alone that is neither an access log nor a client-IP header in the
      proxy's scope, but for the one argument of the proxy. */
  lemma CutoverFrame(text: string, p: Port)
    requires Cutover(text, p).Ok?
    ensures RemoveMaintenance(text).Ok? && Meaning(RemoveMaintenance(text).value).Ok?
    ensures Meaning(Cutover(text, p).value.0).Ok?
    ensures var before, after := Before(text), Meaning(Cutover(text, p).value.0).value;
      exists k: nat :: OnlyProxyAt(before, k) && Others(after, before[k].chain) == Others(before, before[k].chain)
  {
    hide RemoveMaintenance, Cutover, Meaning, OnePass, IsAstra, Others;
    CutoverIsOnePass(text, p);
    var before := Before(text);
    var k: nat :| OnlyProxyAt(before, k) && Meaning(Cutover(text, p).value.0) == Ok(OnePass(before, before[k].chain, p));
    forall i | i in before && IsAstra(i) ensures i.chain == before[k].chain {
      var j: nat :| j < |before| && before[j] == i;
      assert j == k;
    }
    OnePassOthers(before, p, before[k].chain);
  }
}
