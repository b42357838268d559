module NginxFencing {

  // What turning maintenance on does to any text, and what turning it on again or cutting over undoes.

  import opened Options
  import opened NginxText
  import opened NginxParser
  import opened NginxDocument
  import opened NginxRemoval
  import opened NginxMeaning
  import opened NginxInsertion
  import opened NginxServers
  import opened NginxUpstream
  import opened NginxAudit
  import opened NginxGuarantees
  import opened NginxMarkers
  import opened NginxFence
  import opened NginxRemainder
  import opened NginxSite
  import opened NginxRewrite
  import opened NginxSteady
  import opened NginxClean
  import opened NginxMaintenance
  import opened NginxFenced
  import opened NginxCovering
  import opened NginxCutover

  /** A rewritten site that fences can cover: no begin marker text, and no direct `return 503` in a server. */
  predicate Coverable(text: string) {
    var parsed := ParseNginx(text);
    && Count(MAINTENANCE_BEGIN, text) == 0
    && parsed.Ok?
    && NoneReturns503(Identifiers(ServerBlocks(parsed.value.blocks)), ShapesOf(parsed.value.directives))
  }

  lemma CoverableDoc(d: Doc)
    requires DocOk(d)
    ensures Coverable(RenderDoc(d)) <==>
      Count(MAINTENANCE_BEGIN, RenderDoc(d)) == 0 && NoneReturns503(ServerIds(Items(d.stmts)), Shapes(Items(d.stmts)))
  {
    hide WellFormed, Count, NoneReturns503, Shapes, ServerIds, Items, DocServers, DocDirectives, Readable, ServerBlocks,
      ParseNginx, Identifiers, ShapesOf, RenderDoc;
    ParseOf(d);
    ServerIdsOfDocument(d.stmts, 0);
    ShapesOfDocument(d.stmts, 0);
  }

  /** A site that maintenance can be turned on for, read off the site itself: no begin-marker text but in directives
      that the cutover drops, and no direct `return 503` in a server. */
  ghost predicate Fenceable(text: string) {
    var d := DocOf(text);
    Unmarked(MAINTENANCE_BEGIN, d) && NoneReturns503(ServerIds(Items(d.stmts)), Shapes(Items(d.stmts)))
  }

  /** What the fences need of the rewritten site is what they need of the site. */
  lemma FenceableMeans(text: string, p: Port)
    requires Cutover(text, p).Ok?
    ensures RemoveMaintenance(text).Ok?
    ensures Coverable(Cutover(text, p).value.0) <==> Fenceable(RemoveMaintenance(text).value)
    ensures var kept := RemoveMaintenance(text).value;
      && Meaning(kept).Ok?
      && (!Occurs(MAINTENANCE_BEGIN, kept) ==>
            (Fenceable(kept) <==> NoneReturns503(ServerIds(Meaning(kept).value), Shapes(Meaning(kept).value))))
  {
    hide RemoveMaintenance, Verdict, Cutover, DocOk, RenderDoc, Finished, Routed, DocOf, Meaning, RewriteItems, Occurs,
      Items, ServerIds, Accepted, OneProxy, Count, Shapes, NoneReturns503, Coverable, Unmarked;
    CutoverOk(text, p);
    CutoverDoc(text, p);
    var d := DocOf(RemoveMaintenance(text).value);
    var f := Finished(Routed(d, p));
    CoverableDoc(f);
    MarkersDiffer();
    Markers();
    OccursCount(MAINTENANCE_BEGIN, RenderDoc(f));
    RewriteMarks(MAINTENANCE_BEGIN, d, p);
    RewriteReturns(ServerIds(Items(d.stmts)), Items(d.stmts), p);
    if !Occurs(MAINTENANCE_BEGIN, RenderDoc(d)) { RewriteFree(MAINTENANCE_BEGIN, d, p); }
  }

  /** A rewritten document without begin markers has no marker lines. */
  lemma NoMarkersHere(text: string)
    requires Count(MAINTENANCE_BEGIN, text) == 0 && !Occurs(MAINTENANCE_END, text)
    ensures NoMarkers(Lines(text)) && NoBegin(Lines(text)) && RemoveMaintenance(text) == Ok(text)
  {
    hide Count, Occurs, Lines, Scan, NoMarkers, NoBegin;
    MarkersDiffer();
    OccursCount(MAINTENANCE_BEGIN, text);
    NoMarkerText(text);
    NoMarkersNoBegin(Lines(text));
    RemoveIdle(text);
  }

  /** The fenced text of a rewritten document. */
  lemma FencedSite(f: Doc)
    requires DocOk(f) && Ready(false, f.stmts) && ServerIds(Items(f.stmts)) != []
    requires !Occurs(MAINTENANCE_END, RenderDoc(f))
    ensures ParseNginx(RenderDoc(f)).Ok?
    ensures var parsed := ParseNginx(RenderDoc(f)).value; var fenced := FenceServers(RenderDoc(f), parsed);
      && fenced == RenderDoc(WithFence(f)) && |ServerBlocks(parsed.blocks)| == |ServerIds(Items(f.stmts))|
      && Meaning(fenced) == Ok(AddItems(None, Items(f.stmts), FENCE_LINES))
      && MaintenanceEnabled(fenced) == Ok(Coverable(RenderDoc(f)))
      && (Coverable(RenderDoc(f)) ==> RemoveMaintenance(fenced) == Ok(RenderDoc(f)))
  {
    hide DocOk, Count, NoneReturns503, Shapes, ServerIds, Items, Ready, NoMarkers, Occurs, RenderDoc, WithFence, Lines,
      AddItems, MaintenanceEnabled, RemoveMaintenance, ParseNginx, FenceServers, Coverable, Meaning, ServerBlocks;
    FenceIsDoc(f);
    DocMeaning(WithFence(f));
    CoverableDoc(f);
    var text := RenderDoc(f);
    if Count(MAINTENANCE_BEGIN, text) == 0 {
      NoMarkersHere(text);
      FencedText(f);
      FencedEnabled(f);
    } else {
      EnabledOfDoc(WithFence(f));
      BeginCounts(f);
    }
  }

  /** With begin markers in the site there are too many after fencing. */
  lemma BeginCounts(f: Doc)
    requires DocOk(f) && Ready(false, f.stmts)
    ensures DocOk(WithFence(f)) && ServerIds(Items(WithFence(f).stmts)) == ServerIds(Items(f.stmts))
    ensures Count(MAINTENANCE_BEGIN, RenderDoc(WithFence(f)))
         == Count(MAINTENANCE_BEGIN, RenderDoc(f)) + |ServerIds(Items(f.stmts))|
  {
    hide WellFormed, Count, AddLines, Readable, Ready, Continuing, Items, ServerIds, Render, AddItems, Numbered,
      Continued;
    FenceIsDoc(f);
    DocumentNumbers(f);
    FencesPerServer(None, Items(f.stmts), 0, 0);
    DocReads(f);
    DocContinues(OUTSIDE, f.stmts, f.tail);
    ServersAre(f.stmts);
    CountFencedDoc(MAINTENANCE_BEGIN, "", None, f.stmts, f.tail);
  }

  /** Turning maintenance on when a port is active: it fails for the reasons a cutover to the active port fails, or when
      the fences cannot cover the site. Else the result is the rewritten site with the fence's statements at the start
      of every server block; every server is covered, and removing the fences gives exactly the rewritten site back. */
  lemma FencedAtPort(text: string)
    requires RemoveMaintenance(text).Ok? && ActivePort(RemoveMaintenance(text).value).Ok?
    ensures var r, site := ConfigureMaintenance(text), Cutover(text, ActivePort(RemoveMaintenance(text).value).value);
      && (site.Err? ==> r == Err(site.error))
      && (site.Ok? && !Coverable(site.value.0) ==> r == Err(MaintenanceNotCovering))
      && (site.Ok? && Coverable(site.value.0) ==>
            && r.Ok? && r.value.1 == site.value.1
            && MaintenanceEnabled(r.value.0) == Ok(true)
            && RemoveMaintenance(r.value.0) == Ok(site.value.0)
            && Meaning(site.value.0).Ok?
            && Meaning(r.value.0) == Ok(AddItems(None, Meaning(site.value.0).value, FENCE_LINES)))
  {
    hide RemoveMaintenance, ActivePort, Cutover, Coverable, MaintenanceEnabled, FenceServers, ConfigureSite, ParseNginx,
      DocOk, Ready, Items, ServerIds, Occurs, RenderDoc, Finished, Routed, DocOf, Verdict, WithFence, AddItems,
      Accepted, OneProxy, Meaning, RewriteItems;
    var kept := RemoveMaintenance(text).value;
    var a := ActivePort(kept).value;
    RemovedTwice(text);
    SameCutover(text);
    PortsAccepted(kept, "", "");
    if Cutover(text, a).Ok? {
      CutoverOk(text, a);
      CutoverDoc(text, a);
      var d := DocOf(kept);
      var f := Finished(Routed(d, a));
      RoutedMeaning(d, a);
      FinishedReady(Routed(d, a));
      CutoverHasServers(text, a);
      FencedSite(f);
    }
  }

  /** Turning maintenance on, for any text: it fails as the marker scan, the search for the active port, or the cutover
      to that port, and then exactly when the site is not fenceable; otherwise every server is covered. */
  lemma MaintenanceOn(text: string)
    ensures var r, kept := ConfigureMaintenance(text), RemoveMaintenance(text);
      && (kept.Err? ==> r == Err(kept.error))
      && (kept.Ok? && ActivePort(kept.value).Err? ==> r == Err(ActivePort(kept.value).error))
      && (kept.Ok? && ActivePort(kept.value).Ok? ==>
            var site := Cutover(text, ActivePort(kept.value).value);
            && (site.Err? ==> r == Err(site.error))
            && (site.Ok? && !Fenceable(kept.value) ==> r == Err(MaintenanceNotCovering))
            && (site.Ok? && Fenceable(kept.value) ==>
                  && r.Ok? && r.value.1 == site.value.1
                  && MaintenanceEnabled(r.value.0) == Ok(true)
                  && RemoveMaintenance(r.value.0) == Ok(site.value.0)
                  && Meaning(site.value.0).Ok?
                  && Meaning(r.value.0) == Ok(AddItems(None, Meaning(site.value.0).value, FENCE_LINES))))
  {
    hide RemoveMaintenance, ActivePort, Cutover, Coverable, Fenceable, MaintenanceEnabled, FenceServers, ConfigureSite,
      ParseNginx, Meaning, AddItems, ServerIds, Shapes, NoneReturns503, Occurs;
    if RemoveMaintenance(text).Ok? && ActivePort(RemoveMaintenance(text).value).Ok? {
      FencedAtPort(text);
      var a := ActivePort(RemoveMaintenance(text).value).value;
      if Cutover(text, a).Ok? { FenceableMeans(text, a); }
    }
  }

  /** A site that holds no begin-marker text: maintenance can be turned on exactly when the cutover to the active port
      succeeds and no server returns 503 directly. */
  lemma MaintenanceSucceeds(text: string)
    requires RemoveMaintenance(text).Ok? && !Occurs(MAINTENANCE_BEGIN, RemoveMaintenance(text).value)
    ensures var kept := RemoveMaintenance(text).value; var items := Meaning(kept);
      ConfigureMaintenance(text).Ok? <==>
        && ActivePort(kept).Ok? && Cutover(text, ActivePort(kept).value).Ok?
        && items.Ok? && NoneReturns503(ServerIds(items.value), Shapes(items.value))
  {
    hide RemoveMaintenance, ActivePort, Cutover, Fenceable, MaintenanceEnabled, ConfigureMaintenance, Meaning, AddItems,
      ServerIds, Shapes, NoneReturns503, Occurs;
    MaintenanceOn(text);
    var kept := RemoveMaintenance(text).value;
    if ActivePort(kept).Ok? && Cutover(text, ActivePort(kept).value).Ok? { FenceableMeans(text, ActivePort(kept).value); }
  }

  /** A cutover starts with the removal, so removing before changes nothing. */
  lemma SameCutover(text: string)
    requires RemoveMaintenance(text).Ok?
    ensures forall p :: Cutover(RemoveMaintenance(text).value, p) == Cutover(text, p)
  {
    hide RemoveMaintenance, RewriteSite;
    RemovedTwice(text);
  }

  lemma CutoverHasServers(text: string, p: Port)
    requires Cutover(text, p).Ok? && RemoveMaintenance(text).Ok?
    ensures ServerIds(Items(DocOf(RemoveMaintenance(text).value).stmts)) != []
  {
    hide RemoveMaintenance, Verdict, Cutover, DocOk, RenderDoc, Finished, Routed, DocOf, Meaning, RewriteItems, Occurs,
      Items, ServerIds, HasInclude, Shapes, AuditFormats, FormatRaws, OneProxy;
    CutoverOk(text, p);
    CutoverDoc(text, p);
  }

  /** What a successful `configure_maintenance` is made of. */
  lemma MaintenanceParts(text: string)
    requires ConfigureMaintenance(text).Ok?
    ensures RemoveMaintenance(text).Ok? && ActivePort(RemoveMaintenance(text).value).Ok?
    ensures var a := ActivePort(RemoveMaintenance(text).value).value;
      && Cutover(text, a).Ok? && Coverable(Cutover(text, a).value.0)
  {
    hide RemoveMaintenance, ActivePort, Cutover, Coverable, MaintenanceEnabled, FenceServers, ConfigureSite, ParseNginx,
      Meaning, AddItems;
    FencedAtPort(text);
  }

  /** The rewritten site inside a fenced text. */
  function Unfenced(text: string): string {
    if RemoveMaintenance(text).Ok? then RemoveMaintenance(text).value else text
  }

  /** A cutover of a fenced text lifts the fence: it is the cutover of the site, and it succeeds. Afterwards maintenance
      is off. */
  lemma CutoverLiftsFence(text: string, q: Port)
    requires ConfigureMaintenance(text).Ok?
    ensures var fenced := ConfigureMaintenance(text).value.0;
      && Cutover(fenced, q) == Cutover(Unfenced(fenced), q)
      && Cutover(fenced, q).Ok?
      && MaintenanceEnabled(Cutover(fenced, q).value.0) == Ok(false)
  {
    hide RemoveMaintenance, ActivePort, Cutover, Coverable, MaintenanceEnabled, ConfigureMaintenance, Meaning, AddItems,
      NoBegin, Lines, DocOf, RenderDoc, Finished, Routed;
    MaintenanceParts(text);
    FencedAtPort(text);
    var a := ActivePort(RemoveMaintenance(text).value).value;
    var site := Cutover(text, a).value.0;
    var fenced := ConfigureMaintenance(text).value.0;
    SameCutover(fenced);
    CutoverAgain(text, a, q);
    SiteHasNoMarkers(text, a);
    CutoverIsOpen(site, q);
  }

  lemma SiteHasNoMarkers(text: string, a: Port)
    requires Cutover(text, a).Ok? && Coverable(Cutover(text, a).value.0)
    ensures NoBegin(Lines(Cutover(text, a).value.0))
    ensures RemoveMaintenance(Cutover(text, a).value.0) == Ok(Cutover(text, a).value.0)
  {
    hide RemoveMaintenance, Verdict, Cutover, DocOk, RenderDoc, Finished, Routed, DocOf, Meaning, RewriteItems, Occurs,
      Items, ServerIds, Accepted, OneProxy, NoBegin, Lines, NoneReturns503, Count, ParseNginx, ServerBlocks;
    CutoverOk(text, a);
    CutoverDoc(text, a);
    NoMarkersHere(Cutover(text, a).value.0);
  }

  /** After a cutover maintenance is off. */
  lemma CutoverIsOpen(text: string, p: Port)
    requires Cutover(text, p).Ok?
    ensures MaintenanceEnabled(Cutover(text, p).value.0) == Ok(false)
  {
    hide RemoveMaintenance, Verdict, Cutover, DocOk, RenderDoc, Finished, Routed, DocOf, Meaning, RewriteItems, Occurs,
      Items, ServerIds, Accepted, OneProxy, Count, AllFenced, Shapes, MaintenanceEnabled;
    CutoverOk(text, p);
    CutoverDoc(text, p);
    CutoverHasServers(text, p);
    var f := Finished(Routed(DocOf(RemoveMaintenance(text).value), p));
    EnabledOfDoc(f);
    MarkersDiffer();
    OccursCount(MAINTENANCE_END, RenderDoc(f));
  }

  /** The site inside a fenced text, and its second rewrite. */
  lemma AgainSite(text: string)
    requires ConfigureMaintenance(text).Ok?
    ensures RemoveMaintenance(text).Ok?
    ensures var fenced := ConfigureMaintenance(text).value.0; var a := ActivePort(RemoveMaintenance(text).value);
      && a.Ok? && Cutover(text, a.value).Ok? && RemoveMaintenance(fenced) == Ok(Cutover(text, a.value).value.0)
      && ActivePort(Cutover(text, a.value).value.0) == a
      && Coverable(Cutover(text, a.value).value.0)
      && Cutover(fenced, a.value) == Cutover(Cutover(text, a.value).value.0, a.value)
  {
    hide RemoveMaintenance, ActivePort, Cutover, Coverable, MaintenanceEnabled, ConfigureMaintenance, Meaning, AddItems;
    MaintenanceParts(text);
    FencedAtPort(text);
    CutoverActivates(text, ActivePort(RemoveMaintenance(text).value).value);
    SameCutover(ConfigureMaintenance(text).value.0);
  }

  /** Turning maintenance on again always succeeds, and its site is the second rewrite of the same site. */
  lemma MaintenanceAgain(text: string)
    requires ConfigureMaintenance(text).Ok?
    ensures RemoveMaintenance(text).Ok?
    ensures var fenced := ConfigureMaintenance(text).value.0; var a := ActivePort(RemoveMaintenance(text).value);
      && a.Ok? && Cutover(text, a.value).Ok? && RemoveMaintenance(fenced) == Ok(Cutover(text, a.value).value.0)
      && ActivePort(Unfenced(fenced)) == a
      && Cutover(fenced, a.value).Ok? && Coverable(Cutover(fenced, a.value).value.0)
      && Cutover(fenced, a.value) == Cutover(Cutover(text, a.value).value.0, a.value)
      && ConfigureMaintenance(fenced).Ok?
  {
    hide RemoveMaintenance, ActivePort, Cutover, Coverable, MaintenanceEnabled, ConfigureMaintenance, Meaning, AddItems;
    AgainSite(text);
    MaintenanceParts(text);
    var a := ActivePort(RemoveMaintenance(text).value).value;
    SecondCoverable(text, a);
    FencedAtPort(ConfigureMaintenance(text).value.0);
  }

  /** The second rewrite of a coverable site is coverable. */
  lemma SecondCoverable(text: string, a: Port)
    requires Cutover(text, a).Ok? && Coverable(Cutover(text, a).value.0)
    ensures var site := Cutover(text, a).value.0; Cutover(site, a).Ok? && Coverable(Cutover(site, a).value.0)
  {
    hide RemoveMaintenance, Verdict, Cutover, DocOk, RenderDoc, Finished, Routed, DocOf, Meaning, RewriteItems, Occurs,
      Items, ServerIds, Accepted, OneProxy, Count, Shapes, NoBegin, Lines, NoneReturns503, Coverable, MarkerText;
    CutoverOk(text, a);
    CutoverDoc(text, a);
    SiteHasNoMarkers(text, a);
    CutoverAgain(text, a, a);
    var d := DocOf(RemoveMaintenance(text).value);
    var f := Finished(Routed(d, a));
    SameItems(d, a);
    CoverableDoc(f);
    Markers();
    MarkersDiffer();
    OccursCount(MAINTENANCE_BEGIN, RenderDoc(f));
    RewriteFree(MAINTENANCE_BEGIN, f, a);
    RoutedSame(d, a);
    OccursCount(MAINTENANCE_BEGIN, RenderDoc(Finished(f)));
    CoverableDoc(Finished(f));
  }

  /** The fenced text is a function of the site, and determines it. */
  lemma FenceDetermined(text: string, other: string)
    requires ConfigureMaintenance(text).Ok? && ConfigureMaintenance(other).Ok?
    ensures var a, b := ConfigureMaintenance(text).value, ConfigureMaintenance(other).value;
      && (a.0 == b.0 <==> Unfenced(a.0) == Unfenced(b.0))
      && (a.0 == b.0 ==> a.1 == b.1)
  {
    hide RemoveMaintenance, ActivePort, Cutover, Coverable, MaintenanceEnabled, FenceServers, ConfigureSite, ParseNginx,
      Meaning, AddItems, ServerBlocks;
    MaintenanceParts(text);
    MaintenanceParts(other);
    FencedAtPort(text);
    FencedAtPort(other);
    FenceOfSite(text);
    FenceOfSite(other);
  }

  lemma FenceOfSite(text: string)
    requires ConfigureMaintenance(text).Ok?
    ensures RemoveMaintenance(text).Ok? && ActivePort(RemoveMaintenance(text).value).Ok?
    ensures var a := ActivePort(RemoveMaintenance(text).value).value; var (fenced, n) := ConfigureMaintenance(text).value;
      && Cutover(text, a).Ok? && ParseNginx(Cutover(text, a).value.0).Ok?
      && fenced == FenceServers(Cutover(text, a).value.0, ParseNginx(Cutover(text, a).value.0).value)
      && n == |ServerBlocks(ParseNginx(Cutover(text, a).value.0).value.blocks)|
  {
    hide RemoveMaintenance, ActivePort, Cutover, Coverable, MaintenanceEnabled, FenceServers, ConfigureSite, ParseNginx,
      Meaning, AddItems, ServerBlocks;
    MaintenanceParts(text);
    var kept := RemoveMaintenance(text).value;
    PortsAccepted(kept, "", "");
    SameCutover(text);
  }

  /** Turning maintenance on twice is turning it on once exactly when the site is steady. */
  lemma MaintenanceTwice(text: string)
    requires ConfigureMaintenance(text).Ok?
    ensures var fenced := ConfigureMaintenance(text).value.0;
      ConfigureMaintenance(fenced) == ConfigureMaintenance(text) <==> Steady(Unfenced(fenced))
  {
    hide RemoveMaintenance, ActivePort, Cutover, Coverable, MaintenanceEnabled, ConfigureMaintenance, Meaning, AddItems,
      Steady, NoBegin, Lines;
    MaintenanceParts(text);
    FencedAtPort(text);
    MaintenanceAgain(text);
    var fenced := ConfigureMaintenance(text).value.0;
    MaintenanceAgain(fenced);
    FencedAtPort(fenced);
    FenceDetermined(text, fenced);
    var a := ActivePort(RemoveMaintenance(text).value).value;
    CutoverTwice(text, a);
    SiteHasNoMarkers(text, a);
    CutoverCounts(text, a);
  }

  lemma CutoverCounts(text: string, a: Port)
    requires Cutover(text, a).Ok? && Cutover(Cutover(text, a).value.0, a).Ok?
    ensures Cutover(Cutover(text, a).value.0, a).value.1 == Cutover(text, a).value.1
  {
    hide RemoveMaintenance, Cutover, NoBegin, Lines, DocOf, RenderDoc, Finished, Routed;
    CutoverAgain(text, a, a);
  }

  /** From the second time on, turning maintenance on changes nothing. */
  lemma MaintenanceThrice(text: string)
    requires ConfigureMaintenance(text).Ok? && ConfigureMaintenance(ConfigureMaintenance(text).value.0).Ok?
    ensures var again := ConfigureMaintenance(ConfigureMaintenance(text).value.0).value.0;
      ConfigureMaintenance(again) == ConfigureMaintenance(ConfigureMaintenance(text).value.0)
  {
    hide RemoveMaintenance, ActivePort, Cutover, Coverable, MaintenanceEnabled, ConfigureMaintenance, Meaning, AddItems,
      NoBegin, Lines;
    MaintenanceParts(text);
    FencedAtPort(text);
    MaintenanceAgain(text);
    var fenced := ConfigureMaintenance(text).value.0;
    FencedAtPort(fenced);
    MaintenanceAgain(fenced);
    var again := ConfigureMaintenance(fenced).value.0;
    FencedAtPort(again);
    FenceDetermined(fenced, again);
    var a := ActivePort(RemoveMaintenance(text).value).value;
    var site := Cutover(text, a).value.0;
    SiteHasNoMarkers(site, a);
    CutoverThrice(text, a);
  }
}
