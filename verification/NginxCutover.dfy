module NginxCutover {

  // What a cutover does to any text: when it succeeds, what the result means, and when repeating or reverting it gives
  // the same text.

  import opened NginxText
  import opened NginxLexer
  import opened NginxParser
  import opened NginxDocument
  import opened NginxRemoval
  import opened NginxMeaning
  import opened NginxUpstream
  import opened NginxAudit
  import opened NginxGuarantees
  import opened NginxMarkers
  import opened NginxFence
  import opened NginxDissection
  import opened NginxSite
  import opened NginxRewrite
  import opened NginxStability
  import opened NginxSteady
  import opened NginxRollback
  import opened NginxClean
  import opened NginxUnique
  import opened NginxMaintenance
  import opened NginxLayout

  /** The document of a text. */
  function DocOf(text: string): Doc {
    var (ss, tail) := Document(text);
    Doc(ss, tail)
  }

  lemma DocOfText(text: string)
    requires Meaning(text).Ok?
    ensures DocOk(DocOf(text)) && RenderDoc(DocOf(text)) == text
    ensures Meaning(text) == Ok(Items(DocOf(text).stmts))
    ensures ParseNginx(text).Ok?
  {
    hide WellFormed, Document, Nodes;
    DissectText(text);
    MeaningOfDocument(DocOf(text).stmts, DocOf(text).tail);
  }

  lemma MeaningParses(text: string)
    ensures Meaning(text).Ok? <==> ParseNginx(text).Ok?
    ensures Meaning(text).Err? ==> Meaning(text).error == ParseNginx(text).error
  {
    hide Nodes;
  }

  lemma FormatsOfText(text: string)
    requires Meaning(text).Ok? && ParseNginx(text).Ok?
    ensures FormatsOf(text, ParseNginx(text).value) == FormatRaws(DocOf(text).stmts)
  {
    hide WellFormed, Document, Nodes, RawsOf, Select, Render;
    DocOfText(text);
    var d := DocOf(text);
    ParseOf(d);
    FormatsOfDocument("", d.stmts, d.tail);
    assert "" + RenderDoc(d) == text;
  }

  /** Which texts without maintenance blocks a rewrite accepts, and how many servers it then reports: the text parses,
      has no include, exactly one Astra upstream and at least one server, and its own log formats are safe. */
  function Verdict(text: string): Result<nat> {
    var items :- Meaning(text);
    var parsed :- ParseNginx(text);
    if HasInclude(Shapes(items)) then Err(IncludeInSite)
    else if CountChosen(items, AstraProxy) != 1 then Err(UpstreamCount)
    else if ServerIds(items) == [] then Err(NoServers)
    else
      var _ :- AuditFormats(FormatsOf(text, parsed));
      Ok(|ServerIds(items)|)
  }

  lemma VerdictOfDoc(text: string, p: Port)
    requires Meaning(text).Ok?
    ensures var d := DocOf(text);
      && (Verdict(text).Ok? <==> Accepted(d))
      && RewriteSite(text, p) ==
           if Verdict(text).Ok? then Ok((RenderDoc(Finished(Routed(d, p))), Verdict(text).value)) else Err(Verdict(text).error)
  {
    hide DocOk, RewriteSite, RenderDoc, Finished, Routed, HasInclude, Shapes, ServerIds, AuditFormats, FormatRaws,
      DocOf, ParseNginx, FormatsOf, Meaning, CountChosen;
    DocOfText(text);
    FormatsOfText(text);
    RewriteIsDoc(DocOf(text), p);
  }

  // ----- Success and meaning

  /** A cutover fails exactly for the reasons in `Verdict`: never for access logs or client-IP headers. When it
      succeeds, the result means the original with the edits of `RewriteItems`, and nothing else. */
  lemma CutoverMeaning(text: string, p: Port)
    ensures var kept, r := RemoveMaintenance(text), Cutover(text, p);
      && (kept.Err? ==> r == Err(kept.error))
      && (kept.Ok? && Verdict(kept.value).Err? ==> r == Err(Verdict(kept.value).error))
      && (kept.Ok? && Verdict(kept.value).Ok? ==>
            && Meaning(kept.value).Ok?
            && r.Ok? && r.value.1 == Verdict(kept.value).value
            && Meaning(r.value.0) == Ok(RewriteItems(Meaning(kept.value).value, p)))
  {
    hide RemoveMaintenance, Verdict, DocOk, RewriteSite, RenderDoc, Finished, Routed, RewriteItems, DocOf, Meaning,
      ParseNginx;
    var kept := RemoveMaintenance(text);
    if kept.Ok? {
      if Meaning(kept.value).Ok? {
        VerdictOfDoc(kept.value, p);
        if Verdict(kept.value).Ok? { CutoverDoc(text, p); }
      } else {
        VerdictNeedsMeaning(kept.value, p);
      }
    }
  }

  lemma VerdictNeedsMeaning(text: string, p: Port)
    requires Meaning(text).Err?
    ensures Verdict(text) == Err(Meaning(text).error) && RewriteSite(text, p) == Err(Meaning(text).error)
  {
    hide Nodes;
  }

  /** The document behind a successful cutover. */
  lemma CutoverDoc(text: string, p: Port)
    requires RemoveMaintenance(text).Ok? && Verdict(RemoveMaintenance(text).value).Ok?
    ensures var kept := RemoveMaintenance(text).value; var d := DocOf(kept); var f := Finished(Routed(d, p));
      && Meaning(kept).Ok? && Items(d.stmts) == Meaning(kept).value
      && DocOk(d) && OneProxy(d) && Accepted(d) && RenderDoc(d) == kept && !Occurs(MAINTENANCE_END, RenderDoc(d))
      && DocOk(f) && OneProxy(f) && Accepted(f) && !Occurs(MAINTENANCE_END, RenderDoc(f))
      && Items(f.stmts) == RewriteItems(Items(d.stmts), p) && ServerIds(Items(f.stmts)) == ServerIds(Items(d.stmts))
      && Cutover(text, p) == Ok((RenderDoc(f), |ServerIds(Items(d.stmts))|))
      && Meaning(RenderDoc(f)) == Ok(Items(f.stmts))
  {
    hide RemoveMaintenance, DocOk, RewriteSite, RenderDoc, Finished, Routed, RewriteItems, DocOf, ParseNginx, Occurs,
      Items, Shapes, HasInclude, ServerIds, FormatRaws, AuditFormats, OneProxy, Meaning;
    var kept := RemoveMaintenance(text).value;
    if Meaning(kept).Err? { VerdictNeedsMeaning(kept, p); }
    DocOfText(kept);
    VerdictOfDoc(kept, p);
    var d := DocOf(kept);
    RemovedHasNoEnd(text);
    RewriteIsDoc(d, p);
    RewrittenAccepted(d, p);
    Markers();
    RewriteFree(MAINTENANCE_END, d, p);
    DocMeaning(Finished(Routed(d, p)));
  }

  lemma DocMeaning(d: Doc)
    requires DocOk(d)
    ensures Meaning(RenderDoc(d)) == Ok(Items(d.stmts))
  {
    hide WellFormed, Meaning, Items;
    MeaningOfDocument(d.stmts, d.tail);
  }

  /** A rewritten site is accepted again. */
  lemma RewrittenAccepted(d: Doc, p: Port)
    requires DocOk(d) && Accepted(d)
    ensures var f := Finished(Routed(d, p));
      && DocOk(f) && OneProxy(f) && Accepted(f)
      && Items(f.stmts) == RewriteItems(Items(d.stmts), p) && ServerIds(Items(f.stmts)) == ServerIds(Items(d.stmts))
  {
    hide DocOk, Finished, Routed, Items, Shapes, HasInclude, ServerIds, FormatRaws, AuditFormats, RewriteItems;
    RoutedMeaning(d, p);
    RoutedKeepsProxy(d, p);
    var r := Routed(d, p);
    FinishedMeaning(r);
    ScopeKept(r);
    FinishedServers(d, p);
    CountIsOne(d);
    RewriteKeepsServers(Items(d.stmts), p);
    HeadersInstalled(Items(d.stmts), p, "x-real-ip");
    FinishedFormats(r);
    RoutedFormats(d, p);
  }

  /** After a cutover to `p` the active upstream is `p`. */
  lemma CutoverActivates(text: string, p: Port)
    requires Cutover(text, p).Ok?
    ensures ActivePort(Cutover(text, p).value.0) == Ok(p)
  {
    hide RemoveMaintenance, Verdict, Cutover, DocOk, RenderDoc, Finished, Routed, DocOf, Meaning, ActivePort, Items,
      ServerIds, Accepted, RewriteItems, OneProxy, Occurs;
    CutoverOk(text, p);
    CutoverDoc(text, p);
    var d := DocOf(RemoveMaintenance(text).value);
    RoutedMeaning(d, p);
    FinishedRouted(d, p);
    FinishedMeaning(d);
    ActiveOfRouted(Finished(d), p);
  }

  lemma CutoverOk(text: string, p: Port)
    ensures Cutover(text, p).Ok? <==> RemoveMaintenance(text).Ok? && Verdict(RemoveMaintenance(text).value).Ok?
  {
    hide RemoveMaintenance, Verdict, Cutover, Meaning, RewriteItems;
    CutoverMeaning(text, p);
  }

  lemma ActiveOfRouted(d: Doc, p: Port)
    requires DocOk(d) && DocOk(Routed(d, p)) && OneProxy(Routed(d, p))
    ensures ActivePort(RenderDoc(Routed(d, p))) == Ok(p)
  {
    hide WellFormed, ParseNginx, Select, RenderDoc, DirectiveAt, Reads, Upstream, ShapeOf, Items, Reroute;
    var r := Routed(d, p);
    OnlyProxy(r);
    SelectedCount(r, AstraProxy);
    var (here, s) := FirstPicked(r.stmts, 0, AstraProxy);
    DocReads(d);
    FirstIsPointed(d.stmts, 0, p);
    PointedShape(s, here, p);
  }

  /** The first Astra proxy of a routed document points at the port. */
  lemma {:induction false} FirstIsPointed(ss: seq<Stmt>, at: int, p: Port)
    requires Readable(ss) && CountPicked(Reroute(ss, p), AstraProxy) > 0
    ensures Picked(FirstPicked(Reroute(ss, p), at, AstraProxy).1, ToPort(p))
    decreases |ss|
  {
    hide Reads, PointTo, Picked, ToPort;
    var rest := Reroute(ss, p)[1..];
    assert rest == Reroute(ss[1..], p);
    var t := PointTo(ss[0], p);
    PointedTo(ss[0], p);
    if !Picked(t, AstraProxy) {
      FirstIsPointed(ss[1..], at + |t.gap| + |t.raw|, p);
    }
  }

  lemma PointedTo(s: Stmt, p: Port)
    requires Reads(s)
    ensures Picked(PointTo(s, p), AstraProxy) ==> Picked(PointTo(s, p), ToPort(p))
  {
    hide Upstream, ReplaceArgument, LexesAs, GapText;
    PointToReads(s, p);
    ProxyWords(s);
    if IsProxy(s) {
      assert [s.words[0], Upstream(p)][1..] == [Upstream(p)];
    }
  }

  lemma PointedShape(s: Stmt, at: int, p: Port)
    requires Reads(s) && Picked(s, ToPort(p))
    ensures AstraProxy(ShapeOf(DirectiveAt(s, at))) && (ProxyTo(P3008, ShapeOf(DirectiveAt(s, at))) <==> p == P3008)
  {
    hide Upstream, LexesAs, GapText, DirectiveAt, ShapeOf;
    ShapeOfDirective(s, at);
    UpstreamFacts();
  }

  // ----- Repeating and reverting

  /** A cutover of a result of a cutover: it succeeds exactly when no line of the result is a begin marker. */
  lemma CutoverAgain(text: string, p: Port, q: Port)
    requires Cutover(text, p).Ok?
    ensures var (r, n) := Cutover(text, p).value; var d := DocOf(RemoveMaintenance(text).value);
      && (Cutover(r, q).Ok? <==> NoBegin(Lines(r)))
      && (Cutover(r, q).Ok? ==> Cutover(r, q).value == (RenderDoc(Finished(Finished(Routed(d, q)))), n))
  {
    hide RemoveMaintenance, Verdict, DocOk, RenderDoc, Finished, Routed, DocOf, Meaning, Items, ServerIds, RewriteSite,
      NoBegin, Lines, Accepted, RewriteItems, OneProxy, Occurs;
    CutoverOk(text, p);
    CutoverDoc(text, p);
    var d := DocOf(RemoveMaintenance(text).value);
    var f := Finished(Routed(d, p));
    RemoveIdle(RenderDoc(f));
    RewriteIsDoc(f, q);
    OutcomeOk(f, q);
    RollbackIsSecond(d, q, p);
  }

  lemma OutcomeOk(d: Doc, p: Port)
    requires Outcome(d, p).Ok?
    ensures Outcome(d, p).value == (RenderDoc(Finished(Routed(d, p))), |ServerIds(Items(d.stmts))|)
  {
    hide Finished, Routed, RenderDoc, Items, Shapes, HasInclude, ServerIds, AuditFormats, FormatRaws, OneProxy;
  }

  /** The documents of two successive rewrites. */
  lemma TwiceDoc(d: Doc, q: Port)
    requires DocOk(d) && Accepted(d)
    ensures var r, r2 := Finished(Routed(d, q)), Finished(Finished(Routed(d, q)));
      && DocOk(r) && DocOk(r2)
      && (RenderDoc(r2) == RenderDoc(r) <==> Steady(RenderDoc(r)))
  {
    hide WellFormed, Finished, Routed, Items, Steady, RenderDoc, Accepted, OneProxy;
    RewrittenAccepted(d, q);
    RoutedMeaning(d, q);
    assert OneProxy(d) by { AcceptedOne(d); }
    RoutedKeepsProxy(d, q);
    FinishedMeaning(Finished(Routed(d, q)));
    SteadyIsStable(Routed(d, q));
    DocumentsDiffer(Finished(Finished(Routed(d, q))), Finished(Routed(d, q)));
  }

  lemma AcceptedOne(d: Doc)
    requires Accepted(d)
    ensures OneProxy(d)
  {}

  /** Repeating a cutover returns the same text exactly when no line of it is a begin marker and every server already
      has its log line where the next rewrite would put it. */
  lemma CutoverTwice(text: string, p: Port)
    requires Cutover(text, p).Ok?
    ensures var r := Cutover(text, p).value.0;
      Cutover(r, p) == Cutover(text, p) <==> NoBegin(Lines(r)) && Steady(r)
  {
    hide RemoveMaintenance, Verdict, Cutover, DocOk, RenderDoc, Finished, Routed, DocOf, Meaning, Items, ServerIds,
      NoBegin, Lines, Accepted, RewriteItems, OneProxy, Occurs, Steady;
    CutoverOk(text, p);
    CutoverDoc(text, p);
    CutoverAgain(text, p, p);
    TwiceDoc(DocOf(RemoveMaintenance(text).value), p);
  }

  /** From the second result on, a cutover that succeeds returns the same text. */
  lemma CutoverThrice(text: string, p: Port)
    requires Cutover(text, p).Ok?
    requires Cutover(Cutover(text, p).value.0, p).Ok?
    ensures var (r, n) := Cutover(Cutover(text, p).value.0, p).value;
      Cutover(r, p) == Ok((r, n)) <==> NoBegin(Lines(r))
  {
    hide RemoveMaintenance, Verdict, Cutover, DocOk, RenderDoc, Finished, Routed, DocOf, Meaning, Items, ServerIds,
      NoBegin, Lines, Accepted, RewriteItems, OneProxy, Occurs;
    CutoverOk(text, p);
    CutoverDoc(text, p);
    CutoverAgain(text, p, p);
    var d := DocOf(RemoveMaintenance(text).value);
    RoutedMeaning(d, p);
    RoutedKeepsProxy(d, p);
    ThirdRewrite(Routed(d, p));
    SecondCutover(text, p);
  }

  /** The cutover of the second result. */
  lemma SecondCutover(text: string, p: Port)
    requires Cutover(text, p).Ok?
    requires Cutover(Cutover(text, p).value.0, p).Ok?
    ensures var d := DocOf(RemoveMaintenance(text).value); var (r, n) := Cutover(Cutover(text, p).value.0, p).value;
      && (Cutover(r, p).Ok? <==> NoBegin(Lines(r)))
      && (Cutover(r, p).Ok? ==> Cutover(r, p).value == (RenderDoc(Finished(Finished(Finished(Routed(d, p))))), n))
  {
    hide RemoveMaintenance, Verdict, Cutover, DocOk, RenderDoc, Finished, Routed, DocOf, Meaning, Items, ServerIds,
      NoBegin, Lines, Accepted, RewriteItems, OneProxy, Occurs;
    CutoverOk(text, p);
    CutoverDoc(text, p);
    var d := DocOf(RemoveMaintenance(text).value);
    var f, r := Finished(Routed(d, p)), Cutover(text, p).value.0;
    CutoverAgain(text, p, p);
    CutoverAgain(r, p, p);
    CutoverOk(r, p);
    CutoverDoc(r, p);
    RemoveIdle(r);
    assert DocOf(r) == f by { TwoDocs(r, f); }
    RoutedMeaning(d, p);
    FinishedRouted(d, p);
    RoutedSame(d, p);
  }

  lemma TwoDocs(text: string, d: Doc)
    requires DocOk(d) && RenderDoc(d) == text
    ensures DocOf(text) == d
  {
    hide WellFormed, RenderDoc, DocOf, Meaning;
    DocMeaning(d);
    DocOfText(text);
    DocumentsDiffer(DocOf(text), d);
  }

  lemma RoutedSame(d: Doc, p: Port)
    requires DocOk(d)
    ensures Routed(Finished(Routed(d, p)), p) == Finished(Routed(d, p))
  {
    hide DocOk, Finished, Routed, Items;
    RoutedMeaning(d, p);
    FinishedRouted(Routed(d, p), p);
    RoutedTwice(d, p, p);
  }

  /** A cutover to `b` and back to `a` means what the cutover to `a` means, and is the same text exactly when no line of
      the first result is a begin marker and that result is steady. */
  lemma CutoverRollback(text: string, a: Port, b: Port)
    requires Cutover(text, b).Ok?
    ensures var r := Cutover(text, b).value.0;
      && Cutover(text, a).Ok?
      && (Cutover(r, a).Ok? <==> NoBegin(Lines(r)))
      && (Cutover(r, a).Ok? ==> Meaning(Cutover(r, a).value.0) == Meaning(Cutover(text, a).value.0))
      && (Cutover(r, a) == Cutover(text, a) <==> NoBegin(Lines(r)) && Steady(r))
  {
    hide RemoveMaintenance, Verdict, Cutover, DocOk, RenderDoc, Finished, Routed, DocOf, Meaning, Items, ServerIds,
      NoBegin, Lines, Accepted, RewriteItems, OneProxy, Occurs, Steady;
    CutoverOk(text, a);
    CutoverOk(text, b);
    CutoverDoc(text, a);
    CutoverDoc(text, b);
    CutoverAgain(text, b, a);
    var d := DocOf(RemoveMaintenance(text).value);
    TwiceDoc(d, a);
    SteadyEither(d, a, b);
    SameItems(d, a);
    DocMeaning(Finished(Finished(Routed(d, a))));
  }

  /** A second rewrite keeps the meaning. */
  lemma SameItems(d: Doc, p: Port)
    requires DocOk(d) && OneProxy(d)
    ensures DocOk(Finished(Finished(Routed(d, p))))
    ensures Items(Finished(Finished(Routed(d, p))).stmts) == Items(Finished(Routed(d, p)).stmts)
  {
    hide DocOk, Routed, Items, OneProxy, Finished, WithLogs, Unlogged, Straightened;
    RoutedMeaning(d, p);
    RoutedKeepsProxy(d, p);
    var r := Routed(d, p);
    SecondRewrite(r);
    FinishedIs(r);
    UnloggedOk(r);
    StraightenedItems(r);
    WithLogsMeaning(Unlogged(r));
    WithLogsMeaning(Straightened(r));
  }

  lemma UnloggedOk(d: Doc)
    requires DocOk(d)
    ensures DocOk(Unlogged(d))
  {
    UnloggedHasNone(d);
  }

  lemma StraightenedItems(d: Doc)
    requires DocOk(d)
    ensures DocOk(Straightened(d)) && Items(Straightened(d).stmts) == Items(Unlogged(d).stmts)
  {
    hide WellFormed, Normal, Unlogged;
    UnloggedOk(d);
    NormalWellFormed(OUTSIDE, false, Unlogged(d).stmts, Unlogged(d).tail);
  }

  /** A site whose server braces end their lines is steady after one cutover, so repeating or reverting cutovers never
      changes more than the port. */
  lemma UsualLayout(text: string, p: Port)
    requires Cutover(text, p).Ok? && BracesEndLines(RemoveMaintenance(text).value)
    ensures Steady(Cutover(text, p).value.0)
  {
    hide RemoveMaintenance, Verdict, Cutover, DocOk, RenderDoc, Finished, Routed, DocOf, Meaning, Items, ServerIds,
      Accepted, RewriteItems, OneProxy, Occurs, Steady, BracesEndLines, Ready;
    CutoverOk(text, p);
    CutoverDoc(text, p);
    var d := DocOf(RemoveMaintenance(text).value);
    BracesOfDoc(d);
    ReadyIsSteady(d, p);
  }

  /** After a cutover every server's brace ends its line: a maintenance fence goes to the next line. */
  lemma CutoverLayout(text: string, p: Port)
    requires Cutover(text, p).Ok?
    ensures BracesEndLines(Cutover(text, p).value.0)
  {
    hide RemoveMaintenance, Verdict, Cutover, DocOk, RenderDoc, Finished, Routed, DocOf, Meaning, Items, ServerIds,
      Accepted, RewriteItems, OneProxy, Occurs, BracesEndLines, Ready;
    CutoverOk(text, p);
    CutoverDoc(text, p);
    var d := DocOf(RemoveMaintenance(text).value);
    RoutedMeaning(d, p);
    FinishedReady(Routed(d, p));
    BracesOfDoc(Finished(Routed(d, p)));
  }

  /** Only the two production ports are accepted, and they must differ. */
  lemma PortsAccepted(text: string, oldPort: string, candidate: string)
    ensures ConfigureSite(text, oldPort, candidate).Ok? ==> exists p :: oldPort == Digits(Other(p)) && candidate == Digits(p)
    ensures forall p :: ConfigureSite(text, Digits(Other(p)), Digits(p)) == Cutover(text, p)
  {
    hide Cutover;
    DigitsDiffer();
    if ConfigureSite(text, oldPort, candidate).Ok? {
      assert oldPort in {"3008", "3009"} && candidate in {"3008", "3009"};
      assert oldPort == Digits(Other(if candidate == "3008" then P3008 else P3009));
    }
    forall p ensures ConfigureSite(text, Digits(Other(p)), Digits(p)) == Cutover(text, p) {
      assert {Digits(Other(p)), Digits(p)} == {"3008", "3009"};
    }
  }

  lemma DigitsDiffer()
    ensures Digits(P3008) != Digits(P3009)
  {
    assert "3008"[3] != "3009"[3];
  }
}
