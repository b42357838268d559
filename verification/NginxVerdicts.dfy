module NginxVerdicts {

  // Which sites a cutover and the maintenance switch accept, and what the fence adds, in literal words.

  import opened Options
  import opened NginxText
  import opened NginxParser
  import opened NginxDocument
  import opened NginxRemoval
  import opened NginxMeaning
  import opened NginxInsertion
  import opened NginxServers
  import opened NginxUpstream
  import opened NginxAudit
  import opened NginxSafe
  import opened NginxGuarantees
  import opened NginxMarkers
  import opened NginxSite
  import opened NginxRewrite
  import opened NginxMaintenance
  import opened NginxCovering
  import opened NginxCutover
  import opened NginxFencing
  import opened NginxFrame

  // ----- The active port

  /** The configuration has exactly one Astra proxy. */
  ghost predicate OneAstra(ds: seq<Directive>) { ExactlyOne(ds, (d: Directive) => Proxies(d)) }

  lemma AstraSelected(ds: seq<Directive>)
    ensures |Select(ds, AstraProxy)| == 1 <==> OneAstra(ds)
    ensures forall d :: d in Select(ds, AstraProxy) <==> d in ds && Proxies(d)
  {
    hide Select, AstraProxy, Proxies, ShapeOf;
    forall d ensures (AstraProxy(ShapeOf(d)) <==> Proxies(d)) && (d in Select(ds, AstraProxy) <==> d in ds && Proxies(d)) {
      ProxyShape(d);
      SelectedAre(ds, AstraProxy, d);
    }
    SelectedOne(ds, AstraProxy, (d: Directive) => Proxies(d));
  }

  lemma PointsTo(d: Directive, p: Port)
    requires Proxies(d)
    ensures ProxyTo(p, ShapeOf(d)) <==> d.arguments[0].value == Url(p)
  {
    ShapeValues(d);
    UpstreamTexts();
    var a := ShapeOf(d).arguments;
    assert a == [a[0]];
  }

  lemma UrlsDiffer()
    ensures Url(P3008) != Url(P3009)
  {
    assert Url(P3008)[20] != Url(P3009)[20];
  }

  lemma ProxyHasUrl(d: Directive)
    requires Proxies(d)
    ensures |d.arguments| == 1 && exists p :: d.arguments[0].value == Url(p)
  {
    assert d.arguments[0].value == Url(P3008) || d.arguments[0].value == Url(P3009);
  }

  /** The active port is that of the only Astra proxy. */
  lemma ActivePortIs(text: string, p: Port)
    ensures ActivePort(text) == Ok(p) <==>
      && ParseNginx(text).Ok? && OneAstra(ParseNginx(text).value.directives)
      && forall d <- ParseNginx(text).value.directives :: Proxies(d) ==> d.arguments[0].value == Url(p)
  {
    hide ParseNginx, Select, AstraProxy, ProxyTo, Proxies, Url, OneAstra, ShapeOf;
    if ParseNginx(text).Ok? {
      var ds := ParseNginx(text).value.directives;
      var active := Select(ds, AstraProxy);
      AstraSelected(ds);
      UrlsDiffer();
      if |active| == 1 {
        var d := active[0];
        assert forall x :: x in active <==> x == d;
        ProxyHasUrl(d);
        PointsTo(d, P3008);
        var q :| d.arguments[0].value == Url(q);
        assert q == P3008 || q == P3009;
        assert ProxyTo(P3008, ShapeOf(d)) <==> q == P3008;
        assert ActivePort(text) == Ok(q);
        assert Url(p) == Url(q) <==> p == q;
        assert d in ds;
      }
    }
  }

  // ----- Cutovers

  /** A configuration that a cutover accepts. */
  ghost predicate Switchable(text: string, parsed: ParsedConfig) {
    var ds := parsed.directives;
    && (forall d <- ds :: d.name != "include")
    && OneAstra(ds)
    && (exists b <- parsed.blocks :: b.name == "server")
    && SafeFormats(text, ds)
  }

  lemma SwitchableIs(text: string)
    requires Meaning(text).Ok? && ParseNginx(text).Ok?
    ensures Verdict(text).Ok? <==> Switchable(text, ParseNginx(text).value)
    ensures Verdict(text).Ok? ==> Verdict(text).value == |ServerBlocks(ParseNginx(text).value.blocks)|
  {
    hide ParseNginx, Meaning, DocOf, HasInclude, ShapesOf, Shapes, Identifiers, ServerIds, ServerBlocks, CountChosen, Items,
      AuditFormats, SafeFormats, FormatsOf, OneAstra, DocOk, RenderDoc, Select, AstraProxy, DocDirectives, DocServers,
      Readable;
    var parsed := ParseNginx(text).value;
    var d := DocOf(text);
    DocOfText(text);
    ItemsOfText(text);
    IdentifierCount(ServerBlocks(parsed.blocks));
    SelectedCount(d, AstraProxy);
    CountsAgree(d.stmts, AstraProxy);
    NoIncludes(parsed.directives);
    AstraSelected(parsed.directives);
    ServersOfBlocks(parsed.blocks);
    FormatsAre(text, parsed);
  }

  lemma FormatsAre(text: string, parsed: ParsedConfig)
    ensures AuditFormats(FormatsOf(text, parsed)).Ok? <==> SafeFormats(text, parsed.directives)
  {
    hide AuditFormats, SafeFormats, RawsOf, Select, AstraFormat;
    FormatsAreSafe(text, parsed.directives);
  }

  /** A cutover succeeds exactly on a site whose maintenance blocks are complete and which parses without includes, with
      one Astra proxy, some server, and only safe formats of its own; it then reports the number of servers. */
  lemma CutoverAccepts(text: string, p: Port)
    ensures var kept, r := RemoveMaintenance(text), Cutover(text, p);
      && (r.Ok? <==> kept.Ok? && ParseNginx(kept.value).Ok? && Switchable(kept.value, ParseNginx(kept.value).value))
      && (r.Ok? ==> r.value.1 == |ServerBlocks(ParseNginx(kept.value).value.blocks)|)
  {
    hide RemoveMaintenance, Verdict, Cutover, Meaning, RewriteItems, ParseNginx, Switchable, ServerBlocks;
    CutoverMeaning(text, p);
    var kept := RemoveMaintenance(text);
    if kept.Ok? {
      MeaningParses(kept.value);
      if Meaning(kept.value).Ok? {
        SwitchableIs(kept.value);
      } else {
        VerdictNeedsMeaning(kept.value, p);
      }
    }
  }

  lemma VerdictFaults(text: string)
    requires Meaning(text).Ok? && ParseNginx(text).Ok?
    ensures var r, parsed := Verdict(text), ParseNginx(text).value; var ds := parsed.directives;
      var includes := exists d <- ds :: d.name == "include";
      var servers := exists b <- parsed.blocks :: b.name == "server";
      && (includes ==> r == Err(IncludeInSite))
      && (!includes && !OneAstra(ds) ==> r == Err(UpstreamCount))
      && (!includes && OneAstra(ds) && !servers ==> r == Err(NoServers))
      && (!includes && OneAstra(ds) && servers && !SafeFormats(text, ds) ==>
            r == Err(FormatCount) || r == Err(BracedVariable) || r == Err(UnsafeVariables))
  {
    hide ParseNginx, Meaning, DocOf, HasInclude, ShapesOf, Shapes, Identifiers, ServerIds, ServerBlocks, CountChosen, Items,
      AuditFormats, SafeFormats, OneAstra, DocOk, RenderDoc, Select, AstraProxy, RawsOf, AstraFormat;
    var parsed := ParseNginx(text).value;
    var d := DocOf(text);
    DocOfText(text);
    ItemsOfText(text);
    SelectedCount(d, AstraProxy);
    CountsAgree(d.stmts, AstraProxy);
    NoIncludes(parsed.directives);
    AstraSelected(parsed.directives);
    ServersOfBlocks(parsed.blocks);
    FormatFaults(text, parsed.directives);
  }

  /** Why a cutover fails: the first of a marker fault, a parse fault, an include, another number of Astra proxies than one,
      no server, and a format of the site's own. */
  lemma CutoverFaults(text: string, p: Port)
    ensures var kept, r := RemoveMaintenance(text), Cutover(text, p);
      && (kept.Err? ==> r == Err(kept.error))
      && (kept.Ok? ==>
            var site := ParseNginx(kept.value);
            && (site.Err? ==> r == Err(site.error))
            && (site.Ok? ==>
                  var ds := site.value.directives;
                  var includes := exists d <- ds :: d.name == "include";
                  var servers := exists b <- site.value.blocks :: b.name == "server";
                  && (includes ==> r == Err(IncludeInSite))
                  && (!includes && !OneAstra(ds) ==> r == Err(UpstreamCount))
                  && (!includes && OneAstra(ds) && !servers ==> r == Err(NoServers))
                  && (!includes && OneAstra(ds) && servers && !SafeFormats(kept.value, ds) ==>
                        r == Err(FormatCount) || r == Err(BracedVariable) || r == Err(UnsafeVariables))))
  {
    hide RemoveMaintenance, Verdict, Cutover, Meaning, RewriteItems, ParseNginx, OneAstra, SafeFormats;
    CutoverMeaning(text, p);
    var kept := RemoveMaintenance(text);
    if kept.Ok? {
      MeaningParses(kept.value);
      if Meaning(kept.value).Ok? {
        VerdictFaults(kept.value);
      } else {
        VerdictNeedsMeaning(kept.value, p);
      }
    }
  }

  // ----- Maintenance

  /** A `return 503` of the block's own. */
  predicate Refuses(d: Directive, block: nat) {
    && d.name == "return" && d.blocks != [] && d.blocks[|d.blocks| - 1] == block
    && |d.arguments| == 1 && d.arguments[0].value == "503"
  }

  ghost predicate RefusesOnceIn(ds: seq<Directive>, block: nat) { ExactlyOne(ds, (d: Directive) => Refuses(d, block)) }

  /** Some server, as many begin and end markers as servers, and one `return 503` of its own in every server. */
  ghost predicate Shut(text: string, parsed: ParsedConfig) {
    var n := |ServerBlocks(parsed.blocks)|;
    && (exists b <- parsed.blocks :: b.name == "server")
    && Count("# ASTRA_DEPLOY_MAINTENANCE_BEGIN", text) == n && Count("# ASTRA_DEPLOY_MAINTENANCE_END", text) == n
    && forall b <- parsed.blocks :: b.name == "server" ==> RefusesOnceIn(parsed.directives, b.identifier)
  }

  /** A `return 503` of the block's own, as a selection rule. */
  function RefusalRule(block: nat): Shape -> bool { (x: Shape) => Returns503(x, block) }

  lemma RefusalShape(d: Directive, block: nat)
    ensures Returns503(ShapeOf(d), block) <==> Refuses(d, block)
  {
    ShapeValues(d);
    var a := ShapeOf(d).arguments;
    if |a| == 1 { assert a == [a[0]]; }
  }

  lemma {:induction false} RefusalsAre(ds: seq<Directive>, block: nat)
    ensures Count503(ShapesOf(ds), block) == |Select(ds, RefusalRule(block))|
  {
    hide ShapeOf, Returns503;
    if ds != [] {
      RefusalsAre(ds[1..], block);
      assert ([ShapeOf(ds[0])] + ShapesOf(ds[1..]))[1..] == ShapesOf(ds[1..]);
    }
  }

  lemma RefusesOnce(ds: seq<Directive>, block: nat)
    ensures Count503(ShapesOf(ds), block) == 1 <==> RefusesOnceIn(ds, block)
  {
    hide ShapesOf, ShapeOf, Returns503, Refuses, Select, Count503;
    RefusalsAre(ds, block);
    forall d ensures RefusalRule(block)(ShapeOf(d)) <==> Refuses(d, block) { RefusalShape(d, block); }
    SelectedOne(ds, RefusalRule(block), (d: Directive) => Refuses(d, block));
  }

  lemma {:induction false} AllRefuse(servers: seq<nat>, ds: seq<Directive>)
    ensures AllFenced(servers, ShapesOf(ds)) <==> forall k <- servers :: RefusesOnceIn(ds, k)
  {
    hide ShapesOf, RefusesOnceIn, Count503;
    if servers != [] {
      AllRefuse(servers[1..], ds);
      RefusesOnce(ds, servers[0]);
      assert servers == [servers[0]] + servers[1..];
    }
  }

  /** The status check: it answers for every text that parses, and says yes exactly for a shut configuration. */
  lemma EnabledMeans(text: string)
    ensures var r, parsed := MaintenanceEnabled(text), ParseNginx(text);
      && (r.Ok? <==> parsed.Ok?)
      && (parsed.Ok? ==> (r.value <==> Shut(text, parsed.value)))
  {
    hide ParseNginx, ServerBlocks, AllFenced, ShapesOf, Identifiers, RefusesOnceIn, Count;
    if ParseNginx(text).Ok? {
      var parsed := ParseNginx(text).value;
      var ids := Identifiers(ServerBlocks(parsed.blocks));
      ServersOfBlocks(parsed.blocks);
      IdentifierCount(ServerBlocks(parsed.blocks));
      AllRefuse(ids, parsed.directives);
      forall k ensures k in ids <==> exists b <- parsed.blocks :: b.name == "server" && b.identifier == k {
        IdentifiersAre(parsed.blocks, k);
      }
    }
  }

  // ----- The fence

  /** The statements of the fence in a block. */
  function FenceIn(chain: seq<nat>): seq<Item> {
    [Item(["add_header", "Retry-After", "\"60\"", "always"], ';', "add_header", chain, 0),
     Item(["add_header", "Cache-Control", "\"no-store\"", "always"], ';', "add_header", chain, 0),
     Item(["return", "503"], ';', "return", chain, 0)]
  }

  /** The fence behind the brace of every server. */
  function FenceEach(items: seq<Item>): seq<Item> {
    if items == [] then []
    else
      [items[0]] + (if IsServer(items[0]) then FenceIn(items[0].chain + [items[0].id]) else []) + FenceEach(items[1..])
  }

  lemma FenceIs(chain: seq<nat>)
    ensures CodeItems(FENCE_LINES, chain) == FenceIn(chain)
  {
    FenceItemsAre(chain);
  }

  lemma {:induction false} FenceFirst(chain: Option<seq<nat>>, items: seq<Item>)
    requires Continued(items) && items != []
    ensures AddItems(chain, items, FENCE_LINES) == FenceItems(chain) + FenceEach(items)
    decreases |items|
  {
    hide OpensServerItem, IsServer, AddItems, FenceIn, FenceItems, FenceEach;
    var i, rest := items[0], items[1..];
    AddFencesFirst(chain, items);
    assert items == [i] + rest;
    FenceAfter(i, rest);
    FenceBehind(i);
    if rest == [] {
      NoFenceItems(Entered(i));
      LastOpensNothing(items);
      SameServer(i);
      NothingFenced();
      assert [] + FenceEach(rest) == [];
    } else {
      FenceFirst(Entered(i), rest);
    }
  }

  lemma NothingFenced()
    ensures FenceEach([]) == []
  {}

  lemma FenceAfter(i: Item, rest: seq<Item>)
    ensures FenceEach([i] + rest)
         == [i] + ((if IsServer(i) then FenceIn(i.chain + [i.id]) else []) + FenceEach(rest))
  {
    hide IsServer, FenceIn;
    assert ([i] + rest)[1..] == rest;
  }

  lemma SameServer(i: Item)
    ensures IsServer(i) <==> OpensServerItem(i)
  {}

  lemma FenceBehind(i: Item)
    ensures FenceItems(Entered(i)) == if IsServer(i) then FenceIn(i.chain + [i.id]) else []
  {
    hide FenceIn, CodeItems;
    if IsServer(i) { FenceIs(i.chain + [i.id]); }
  }

  /** Turning maintenance on puts the literal fence behind the brace of every server of the site as cut over. */
  lemma MaintenanceIsFence(text: string)
    requires ConfigureMaintenance(text).Ok?
    ensures RemoveMaintenance(text).Ok? && ActivePort(RemoveMaintenance(text).value).Ok?
    ensures var site := Cutover(text, ActivePort(RemoveMaintenance(text).value).value);
      && site.Ok? && Meaning(site.value.0).Ok?
      && Meaning(ConfigureMaintenance(text).value.0) == Ok(FenceEach(Meaning(site.value.0).value))
  {
    hide RemoveMaintenance, ActivePort, Cutover, Coverable, MaintenanceEnabled, ConfigureMaintenance, Meaning, AddItems,
      DocOf, DocOk, RenderDoc, Finished, Routed, Items, ServerIds, Accepted, OneProxy, Occurs, RewriteItems, FenceEach,
      Fenceable;
    MaintenanceParts(text);
    MaintenanceOn(text);
    var p := ActivePort(RemoveMaintenance(text).value).value;
    CutoverOk(text, p);
    CutoverDoc(text, p);
    FencesOfDoc(Finished(Routed(DocOf(RemoveMaintenance(text).value), p)));
  }

  lemma FencesOfDoc(d: Doc)
    requires DocOk(d)
    ensures AddItems(None, Items(d.stmts), FENCE_LINES) == FenceEach(Items(d.stmts))
  {
    hide WellFormed, Items, AddItems, Continued, Numbered, CodeItems;
    DocumentNumbered(OUTSIDE, d.stmts, d.tail);
    if Items(d.stmts) == [] {
      NoFenceItems(None);
    } else {
      FenceFirst(None, Items(d.stmts));
    }
  }

  lemma {:induction false} NoRefusals(servers: seq<nat>, ds: seq<Directive>)
    ensures NoneReturns503(servers, ShapesOf(ds)) <==>
      forall k, d :: k in servers && d in ds ==> !Refuses(d, k)
  {
    hide ShapesOf, Refuses, Count503;
    if servers != [] {
      NoRefusals(servers[1..], ds);
      NeverRefuses(ds, servers[0]);
      assert servers == [servers[0]] + servers[1..];
    }
  }

  lemma NeverRefuses(ds: seq<Directive>, block: nat)
    ensures Count503(ShapesOf(ds), block) == 0 <==> forall d <- ds :: !Refuses(d, block)
  {
    hide ShapesOf, ShapeOf, Returns503, Refuses, Select, Count503;
    RefusalsAre(ds, block);
    var chosen := Select(ds, RefusalRule(block));
    forall d ensures d in chosen <==> d in ds && Refuses(d, block) {
      SelectedAre(ds, RefusalRule(block), d);
      RefusalShape(d, block);
    }
    if chosen != [] { assert chosen[0] in chosen; }
  }

  lemma ItemsOfText(text: string)
    requires Meaning(text).Ok?
    ensures ParseNginx(text).Ok?
    ensures var items, parsed := Meaning(text).value, ParseNginx(text).value;
      Shapes(items) == ShapesOf(parsed.directives) && ServerIds(items) == Identifiers(ServerBlocks(parsed.blocks))
  {
    hide ParseNginx, Meaning, DocOf, ShapesOf, Shapes, Identifiers, ServerIds, ServerBlocks, Items, DocOk, RenderDoc,
      DocDirectives, DocServers, Readable;
    var d := DocOf(text);
    DocOfText(text);
    ParseOf(d);
    ShapesOfDocument(d.stmts, 0);
    ServerIdsOfDocument(d.stmts, 0);
  }

  /** No server returns 503 by itself. */
  ghost predicate NoneRefuses(parsed: ParsedConfig) {
    forall b, d :: b in parsed.blocks && d in parsed.directives && b.name == "server" ==> !Refuses(d, b.identifier)
  }

  lemma NoneRefusesIs(parsed: ParsedConfig)
    ensures NoneReturns503(Identifiers(ServerBlocks(parsed.blocks)), ShapesOf(parsed.directives)) <==> NoneRefuses(parsed)
  {
    hide NoneReturns503, Identifiers, ServerBlocks, ShapesOf, Refuses;
    var ids := Identifiers(ServerBlocks(parsed.blocks));
    NoRefusals(ids, parsed.directives);
    forall k ensures k in ids <==> exists b <- parsed.blocks :: b.name == "server" && b.identifier == k {
      IdentifiersAre(parsed.blocks, k);
    }
  }

  /** A site without begin-marker text can be shut exactly when a cutover accepts it and no server returns 503 by itself. */
  lemma MaintenanceAccepts(text: string)
    requires RemoveMaintenance(text).Ok? && !Occurs("# ASTRA_DEPLOY_MAINTENANCE_BEGIN", RemoveMaintenance(text).value)
    ensures var kept := RemoveMaintenance(text).value; var parsed := ParseNginx(kept);
      ConfigureMaintenance(text).Ok? <==>
        parsed.Ok? && Switchable(kept, parsed.value) && NoneRefuses(parsed.value)
  {
    hide RemoveMaintenance, ActivePort, Cutover, ConfigureMaintenance, Meaning, ServerIds, Shapes, NoneReturns503, Occurs,
      ParseNginx, Switchable, NoneRefuses, Identifiers, ServerBlocks, ShapesOf;
    MaintenanceSucceeds(text);
    var kept := RemoveMaintenance(text).value;
    MeaningParses(kept);
    if Meaning(kept).Ok? {
      var parsed := ParseNginx(kept).value;
      ItemsOfText(kept);
      NoneRefusesIs(parsed);
      if ActivePort(kept).Ok? { CutoverAccepts(text, ActivePort(kept).value); }
      if Switchable(kept, parsed) { SwitchableIsActive(kept); }
    } else {
      NotActive(kept);
    }
  }

  lemma NotActive(text: string)
    requires ParseNginx(text).Err?
    ensures ActivePort(text).Err?
  {}

  lemma SwitchableIsActive(text: string)
    requires ParseNginx(text).Ok? && Switchable(text, ParseNginx(text).value)
    ensures ActivePort(text).Ok?
  {
    hide ParseNginx, Select, OneAstra, SafeFormats, AstraProxy, ProxyTo, Proxies, ShapeOf;
    AstraSelected(ParseNginx(text).value.directives);
  }
}
