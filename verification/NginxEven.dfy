module NginxEven {

  // When a second cutover changes nothing, read off the original site: every server's brace stands on a line with the same
  // margin whether or not the braces before it end their lines.

  import opened Options
  import opened NginxText
  import opened NginxLexer
  import opened NginxDocument
  import opened NginxRemoval
  import opened NginxMeaning
  import opened NginxInsertion
  import opened NginxServers
  import opened NginxUpstream
  import opened NginxAudit
  import opened NginxGuarantees
  import opened NginxMarkers
  import opened NginxFence
  import opened NginxSite
  import opened NginxRewrite
  import opened NginxStability
  import opened NginxSteady
  import opened NginxRollback
  import opened NginxClean
  import opened NginxMaintenance
  import opened NginxFenced
  import opened NginxCutover
  import opened NginxFencing

  /** The margin of the line on which a statement's last character stands, behind the text before it. */
  function LineMargin(before: string, s: Stmt): string {
    if s.raw == "" then "" else Margin(LastLine(before + s.gap + s.raw[..|s.raw| - 1]))
  }

  /** Two readings of the statements side by side: as they are, and with every server's brace at the end of its line.
      Each server's brace stands on a line with the same margin in both. */
  predicate EvenFrom(b: string, n: string, inside: bool, ss: seq<Stmt>)
    decreases |ss|
  {
    ss == [] ||
    var s := ss[0]; var t := if inside then Straight(s) else s;
    && (OpensServer(s) ==> LineMargin(b, s) == LineMargin(n, t))
    && EvenFrom(b + s.gap + s.raw, n + t.gap + t.raw, OpensServer(s), ss[1..])
  }

  /** The site with its headers in place and without access logs is even. */
  predicate Even(d: Doc) { EvenFrom("", "", false, Unlogged(d).stmts) }

  // ----- Log lines agree when the margins do

  lemma PlainAgree(e: string, n: string, ss: seq<Stmt>)
    requires ss != []
    ensures var s := ss[0]; var more := Normal(OpensServer(s), ss[1..]);
      AddLines(e, None, ss, LOG_LINES) == AddLines(n, None, Normal(false, ss), LOG_LINES)
      <==> AddLines(e + s.gap + s.raw, Opening(e, s), ss[1..], LOG_LINES)
           == AddLines(n + s.gap + s.raw, Opening(n, s), more, LOG_LINES)
  {
    hide LogStmt, Opening, Normal, OpensServer, AddLines;
    var s, more := ss[0], Normal(OpensServer(ss[0]), ss[1..]);
    NormalFirst(false, ss);
    assert ([s] + more)[0] == s && ([s] + more)[1..] == more;
    AddLogsFirstStmt(e, None, ss);
    AddLogsFirstStmt(n, None, [s] + more);
    var x := AddLines(e + s.gap + s.raw, Opening(e, s), ss[1..], LOG_LINES);
    var y := AddLines(n + s.gap + s.raw, Opening(n, s), more, LOG_LINES);
    assert ([s] + x)[1..] == x && ([s] + y)[1..] == y;
  }

  /** The places behind a server's brace agree when the margins of its lines do. */
  lemma IndentsAgree(e: string, n: string, s: Stmt, t: Stmt)
    requires Reads(s) && (t == s || t == Straight(s))
    ensures SameChain(Opening(e, s), Opening(n, t)) && (Opening(e, s).Some? <==> OpensServer(s))
    ensures OpensServer(s) ==>
      (Opening(e, s).value.indent == Opening(n, t).value.indent <==> LineMargin(e, s) == LineMargin(n, t))
  {
    hide Margin, LastLine, HasNewline, LexesAs, GapText;
    OpeningIs(e, s);
    RawNotEmpty(s);
    SameChainOpenings(e, n, s, t);
    if OpensServer(s) {
      var x, y := LineMargin(e, s), LineMargin(n, t);
      assert Opening(e, s).value.indent == x + INDENT && Opening(n, t).value.indent == y + INDENT;
      assert (x + INDENT)[..|x + INDENT| - |INDENT|] == x && (y + INDENT)[..|y + INDENT| - |INDENT|] == y;
    }
  }

  lemma {:induction false} LinesAgree(e: string, n: string, p: Option<Place>, q: Option<Place>, ss: seq<Stmt>)
    requires Readable(ss) && Continuing(ss) && SameChain(p, q) && (p.Some? ==> ss != [])
    ensures AddLines(e, p, ss, LOG_LINES) == AddLines(n, q, Normal(p.Some?, ss), LOG_LINES)
      <==> (p.Some? ==> p.value.indent == q.value.indent) && EvenFrom(e, n, p.Some?, ss)
    decreases |ss|
  {
    hide Reads, AddLines, Opening, Normal, OpensServer, LineMargin, Straight;
    if ss == [] {
      NothingAgrees(e, n);
    } else {
      var s, rest := ss[0], ss[1..];
      var t := if p.Some? then Straight(s) else s;
      IndentsAgree(e, n, s, t);
      LinesAgree(e + s.gap + s.raw, n + t.gap + t.raw, Opening(e, s), Opening(n, t), rest);
      match p
      case None => PlainAgree(e, n, ss);
      case Some(place) => LoggedAgree(e, n, place, q.value, ss);
    }
  }

  lemma NothingAgrees(e: string, n: string)
    ensures AddLines(e, None, [], LOG_LINES) == AddLines(n, None, Normal(false, []), LOG_LINES)
  {}

  // ----- Steady sites

  /** The result of a rewrite is steady exactly when the site is even. */
  lemma EvenIsSteady(d: Doc)
    requires DocOk(d) && OneProxy(d)
    ensures Steady(RenderDoc(Finished(d))) <==> Even(d)
  {
    hide WellFormed, Items, AddLines, Normal, Readable, Render, OneProxy, ClearHeaders, WithHeaders, ClearLogs, Steady,
      EvenFrom, Continuing;
    SteadyIsStable(d);
    SecondRewrite(d);
    UnloggedHasNone(d);
    var u := Unlogged(d);
    DocReads(u);
    DocContinues(OUTSIDE, u.stmts, u.tail);
    LinesAgree("", "", None, None, u.stmts);
    assert Finished(d) == WithLogs(u);
  }

  /** Which of the two ports a site with one upstream points at. */
  lemma PointsSomewhere(d: Doc) returns (p: Port)
    requires DocOk(d) && OneProxy(d)
    ensures Routed(d, p) == d
  {
    hide WellFormed, Routed, OneProxy, ToPort;
    OneProxyCounts(d, P3008);
    p := if CountPicked(d.stmts, ToPort(P3008)) == 0 then P3009 else P3008;
    AlreadyRouted(d, p);
  }

  /** The result of a cutover is steady exactly when the original site is even. */
  lemma CutoverSteady(text: string, p: Port)
    requires Cutover(text, p).Ok?
    ensures RemoveMaintenance(text).Ok?
    ensures Steady(Cutover(text, p).value.0) <==> Even(DocOf(RemoveMaintenance(text).value))
  {
    hide RemoveMaintenance, Verdict, Cutover, DocOk, RenderDoc, Finished, Routed, DocOf, Meaning, Items, ServerIds,
      Accepted, RewriteItems, OneProxy, Occurs, Steady, Even;
    CutoverOk(text, p);
    CutoverDoc(text, p);
    var d := DocOf(RemoveMaintenance(text).value);
    var here := PointsSomewhere(d);
    SteadyEither(d, p, here);
    EvenIsSteady(d);
  }

  lemma NoMarkerNoBegin(text: string, p: Port)
    requires Cutover(text, p).Ok? && RemoveMaintenance(text).Ok?
    requires !Occurs(MAINTENANCE_BEGIN, RemoveMaintenance(text).value)
    ensures NoBegin(Lines(Cutover(text, p).value.0))
  {
    hide RemoveMaintenance, Verdict, Cutover, DocOk, RenderDoc, Finished, Routed, DocOf, Meaning, Items, ServerIds,
      Accepted, RewriteItems, OneProxy, Occurs, NoBegin, Lines, Unmarked;
    CutoverOk(text, p);
    CutoverDoc(text, p);
    Markers();
    RewriteFree(MAINTENANCE_BEGIN, DocOf(RemoveMaintenance(text).value), p);
    NoMarkerText(Cutover(text, p).value.0);
  }

  /** A site without begin-marker text: cutting over to one port and then to the same or the other one gives the text of
      the last cutover alone exactly when the original site is even. */
  lemma CutoverForgets(text: string, p: Port, q: Port)
    requires Cutover(text, p).Ok? && RemoveMaintenance(text).Ok?
    requires !Occurs(MAINTENANCE_BEGIN, RemoveMaintenance(text).value)
    ensures Cutover(Cutover(text, p).value.0, q).Ok?
    ensures Cutover(Cutover(text, p).value.0, q) == Cutover(text, q) <==> Even(DocOf(RemoveMaintenance(text).value))
  {
    hide RemoveMaintenance, Cutover, DocOf, Steady, NoBegin, Lines, Occurs, Even, Meaning;
    NoMarkerNoBegin(text, p);
    CutoverRollback(text, q, p);
    CutoverSteady(text, p);
  }

  /** Turning maintenance on twice is turning it on once exactly when the original site is even. */
  lemma MaintenanceForgets(text: string)
    requires ConfigureMaintenance(text).Ok?
    ensures RemoveMaintenance(text).Ok?
    ensures ConfigureMaintenance(ConfigureMaintenance(text).value.0) == ConfigureMaintenance(text)
      <==> Even(DocOf(RemoveMaintenance(text).value))
  {
    hide RemoveMaintenance, Cutover, DocOf, Steady, Even, ConfigureMaintenance, ActivePort, Coverable;
    MaintenanceAgain(text);
    MaintenanceTwice(text);
    CutoverSteady(text, ActivePort(RemoveMaintenance(text).value).value);
  }
}
