/** The independent auditor of a configuration, and when the statements of a configuration pass it. */
module NginxAudit {
  import opened PythonText
  import opened NginxText
  import opened NginxParser
  import opened NginxDocument
  import opened NginxRemoval
  import opened NginxMeaning
  import opened NginxPhrases
  import opened NginxInsertion
  import opened NginxServers
  import opened NginxUpstream

  function ShapesOf(ds: seq<Directive>): seq<Shape> {
    if ds == [] then [] else [ShapeOf(ds[0])] + ShapesOf(ds[1..])
  }

  function Identifiers(blocks: seq<Block>): seq<nat> {
    if blocks == [] then [] else [blocks[0].identifier] + Identifiers(blocks[1..])
  }

  predicate AccessLog(d: Shape) { d.name == ACCESS_LOG }

  predicate SafeAccessLog(d: Shape) { d.arguments == ACCESS_LOG_WORDS[1..] }

  predicate InServer(d: Shape, server: nat) { server in d.blocks }

  predicate DirectlyIn(d: Shape, server: nat) { d.blocks != [] && d.blocks[|d.blocks| - 1] == server }

  function DirectLogs(shapes: seq<Shape>, server: nat): nat {
    if shapes == [] then 0
    else (if AccessLog(shapes[0]) && DirectlyIn(shapes[0], server) then 1 else 0) + DirectLogs(shapes[1..], server)
  }

  predicate UnsafeLogIn(shapes: seq<Shape>, server: nat) {
    exists d <- shapes :: AccessLog(d) && InServer(d, server) && !SafeAccessLog(d)
  }

  /** Every server block has exactly one access log of its own, and only safe ones inside it. */
  function AuditServers(servers: seq<nat>, shapes: seq<Shape>): Result<nat> {
    if servers == [] then Ok(0)
    else if UnsafeLogIn(shapes, servers[0]) then Err(UnsafeAccessLog)
    else if DirectLogs(shapes, servers[0]) != 1 then Err(AccessLogCount)
    else
      var n :- AuditServers(servers[1..], shapes);
      Ok(n + 1)
  }

  /** A header directive of a scope that has a name and a value. */
  predicate NamedHeader(d: Shape, blocks: seq<nat>, name: string) {
    d.name == PROXY_SET_HEADER && d.blocks == blocks && |d.arguments| == 2 && Lower(d.arguments[0]) == name
  }

  /** The values a header gets in a scope. */
  function HeaderValues(shapes: seq<Shape>, blocks: seq<nat>, name: string): seq<string> {
    if shapes == [] then []
    else
      (if NamedHeader(shapes[0], blocks, name) then [shapes[0].arguments[1]] else [])
      + HeaderValues(shapes[1..], blocks, name)
  }

  /** Every Astra proxy overwrites both client-IP headers in its own scope. */
  function AuditProxies(proxies: seq<Shape>, shapes: seq<Shape>): Result<bool> {
    if proxies == [] then Ok(true)
    else if !AstraProxy(proxies[0]) then AuditProxies(proxies[1..], shapes)
    else if HeaderValues(shapes, proxies[0].blocks, "x-real-ip") == [REMOTE_ADDR]
         && HeaderValues(shapes, proxies[0].blocks, "x-forwarded-for") == [REMOTE_ADDR]
    then AuditProxies(proxies[1..], shapes)
    else Err(ClientIpHeaders)
  }

  predicate AstraFormat(d: Shape) { d.name == "log_format" && d.arguments != [] && d.arguments[0] == "astra_no_args" }

  predicate IsWordCharacter(c: char) { 'a' <= c <= 'z' || 'A' <= c <= 'Z' || '0' <= c <= '9' || c == '_' }

  function WordLength(s: string): nat { if s != "" && IsWordCharacter(s[0]) then 1 + WordLength(s[1..]) else 0 }

  lemma WordLengthBound(s: string)
    ensures WordLength(s) <= |s|
  {}

  /** The matches of `\$[a-zA-Z0-9_]+`. */
  function Variables(s: string): set<string>
    decreases |s|
  {
    if s == "" then {}
    else
      var n := WordLength(s[1..]);
      WordLengthBound(s[1..]);
      if s[0] == '$' && n > 0 then {s[..n + 1]} + Variables(s[n + 1..]) else Variables(s[1..])
  }

  predicate HasBrace(s: string) { exists i :: 0 <= i < |s| - 1 && s[i] == '$' && s[i + 1] == '{' }

  const SAFE_LOG_VARIABLES: set<string> := {
    "$body_bytes_sent", "$request_id", "$request_time", "$status", "$time_iso8601",
    "$upstream_response_time", "$upstream_status"
  }

  /** The site's own `astra_no_args` formats, by their raw texts: none, or one with exactly the safe variables. */
  function AuditFormats(raws: seq<string>): Result<bool> {
    if raws == [] then Ok(true)
    else if |raws| != 1 then Err(FormatCount)
    else if HasBrace(raws[0]) then Err(BracedVariable)
    else if Variables(raws[0]) != SAFE_LOG_VARIABLES then Err(UnsafeVariables)
    else Ok(true)
  }

  function RawsOf(text: string, ds: seq<Directive>): seq<string> {
    if ds == [] then [] else [Mid(text, ds[0].start, ds[0].end)] + RawsOf(text, ds[1..])
  }

  function FormatsOf(text: string, parsed: ParsedConfig): seq<string> {
    RawsOf(text, Select(parsed.directives, AstraFormat))
  }

  predicate HasInclude(shapes: seq<Shape>) { exists d <- shapes :: d.name == "include" }

  /** `_audit_parsed_config`: the number of servers and of safe logs. */
  function Audit(text: string, parsed: ParsedConfig): Result<(nat, nat)> {
    var shapes := ShapesOf(parsed.directives);
    var servers := Identifiers(ServerBlocks(parsed.blocks));
    if HasInclude(shapes) then Err(IncludeInAudit)
    else if servers == [] then Err(NoServers)
    else
      var safe :- AuditServers(servers, shapes);
      var _ :- AuditProxies(shapes, shapes);
      var _ :- AuditFormats(FormatsOf(text, parsed));
      Ok((|servers|, safe))
  }

  // ----- The audit looks only at the meaning and the raw formats

  function Shapes(items: seq<Item>): seq<Shape> {
    if items == [] then []
    else
      (if items[0].term == ';' && items[0].words != []
       then [Shape(items[0].name, items[0].words[1..], items[0].chain)] else [])
      + Shapes(items[1..])
  }

  function ServerIds(items: seq<Item>): seq<nat> {
    if items == [] then [] else (if OpensServerItem(items[0]) then [items[0].id] else []) + ServerIds(items[1..])
  }

  function FormatRaws(ss: seq<Stmt>): seq<string> {
    if ss == [] then [] else (if Picked(ss[0], AstraFormat) then [ss[0].raw] else []) + FormatRaws(ss[1..])
  }

  lemma {:induction false} ShapesOfDocument(ss: seq<Stmt>, at: int)
    requires Readable(ss)
    ensures ShapesOf(DocDirectives(ss, at)) == Shapes(Items(ss))
    decreases |ss|
  {
    hide Reads, DirectiveAt, ShapeOf;
    if ss != [] {
      var s, rest := ss[0], ss[1..];
      var here := at + |s.gap| + |s.raw|;
      ShapesOfDocument(rest, here);
      assert Items(ss)[0] == View(s) && Items(ss)[1..] == Items(rest);
      var ds := DocDirectives(rest, here);
      if IsDirective(s) {
        ShapeOfDirective(s, at);
        assert DocDirectives(ss, at) == [DirectiveAt(s, at)] + ds;
        assert ([DirectiveAt(s, at)] + ds)[1..] == ds;
      } else {
        assert [] + ds == ds;
        assert [] + Shapes(Items(rest)) == Shapes(Items(rest));
      }
    }
  }

  lemma {:induction false} ServerIdsOfDocument(ss: seq<Stmt>, at: int)
    requires Readable(ss)
    ensures Identifiers(DocServers(ss, at)) == ServerIds(Items(ss))
    decreases |ss|
  {
    hide Reads, OpensServer;
    if ss != [] {
      var s, rest := ss[0], ss[1..];
      var here := at + |s.gap| + |s.raw|;
      ServerIdsOfDocument(rest, here);
      assert Items(ss)[0] == View(s) && Items(ss)[1..] == Items(rest);
      var more := DocServers(rest, here);
      assert OpensServer(s) <==> OpensServerItem(View(s)) by { ServerView(s); }
      if OpensServer(s) {
        assert ([BlockAt(s, at)] + more)[1..] == more;
      } else {
        assert [] + more == more;
        assert [] + ServerIds(Items(rest)) == ServerIds(Items(rest));
      }
    }
  }

  lemma ServerView(s: Stmt)
    ensures OpensServer(s) <==> OpensServerItem(View(s))
  {}

  lemma RawsCons(text: string, d: Directive, ds: seq<Directive>)
    ensures RawsOf(text, [d] + ds) == [Mid(text, d.start, d.end)] + RawsOf(text, ds)
  {
    hide Mid;
    assert ([d] + ds)[1..] == ds;
  }

  lemma {:induction false} FormatsOfDocument(b: string, ss: seq<Stmt>, tail: string)
    requires Readable(ss)
    ensures RawsOf(b + (Render(ss) + tail), Select(DocDirectives(ss, |b|), AstraFormat)) == FormatRaws(ss)
    decreases |ss|
  {
    hide Reads, DirectiveAt, Select, Mid, Picked, AstraFormat;
    var text := b + (Render(ss) + tail);
    if ss == [] {
      SelectNothing(|b|, AstraFormat);
    } else {
      var s, rest := ss[0], ss[1..];
      var next, after := b + s.gap + s.raw, Render(rest) + tail;
      assert ss == [s] + rest;
      TextAround(b, s, rest, tail);
      SelectFirst(ss, |b|, AstraFormat);
      FormatsOfDocument(next, rest, tail);
      assert text == next + after;
      var more := Select(DocDirectives(rest, |next|), AstraFormat);
      if Picked(s, AstraFormat) {
        PickedHasWords(s, AstraFormat);
        DirectiveOffsets(s, |b|);
        RawsCons(text, DirectiveAt(s, |b|), more);
        SliceOfConcat(b + s.gap, s.raw, after);
      } else {
        assert [] + FormatRaws(rest) == FormatRaws(rest);
      }
    }
  }

  lemma PickedHasWords(s: Stmt, p: Shape -> bool)
    requires Picked(s, p)
    ensures s.words != []
  {}

  /** The audit of items and raw formats. */
  function AuditItems(items: seq<Item>, raws: seq<string>): Result<(nat, nat)> {
    if HasInclude(Shapes(items)) then Err(IncludeInAudit)
    else if ServerIds(items) == [] then Err(NoServers)
    else
      var safe :- AuditServers(ServerIds(items), Shapes(items));
      var _ :- AuditProxies(Shapes(items), Shapes(items));
      var _ :- AuditFormats(raws);
      Ok((|ServerIds(items)|, safe))
  }

  lemma AuditOfDocument(ss: seq<Stmt>, tail: string)
    requires WellFormed(OUTSIDE, ss, tail)
    ensures var text := Render(ss) + tail;
      ParseNginx(text).Ok? && Audit(text, ParseNginx(text).value) == AuditItems(Items(ss), FormatRaws(ss))
  {
    hide WellFormed, AuditServers, AuditProxies, AuditFormats, HasInclude, RawsOf, Select, ShapesOf, Identifiers,
      ServerBlocks, NodesOf, DirectivesOf, BlocksOf, Shapes, ServerIds, Items, Render, FormatRaws, DocDirectives,
      DocServers, Nodes;
    var text := Render(ss) + tail;
    ParseDocument(ss, tail);
    DirectivesOfDocument(ss, 0);
    ServersOfDocument(ss, 0);
    ShapesOfDocument(ss, 0);
    ServerIdsOfDocument(ss, 0);
    assert "" + text == text;
    FormatsOfDocument("", ss, tail);
  }

  // ----- What the rewrite guarantees about its items

  /** Blocks are numbered in the order in which they open. */
  predicate Numbered(items: seq<Item>, n: nat)
    decreases |items|
  {
    items == [] ||
    if items[0].term == '{' then items[0].id == n + 1 && Numbered(items[1..], n + 1) else Numbered(items[1..], n)
  }

  /** No block is opened by the last item. */
  predicate Continued(items: seq<Item>) {
    items == [] || ((items[0].term == '{' ==> |items| > 1) && Continued(items[1..]))
  }

  lemma {:induction false} DocumentNumbered(sc: Scope, ss: seq<Stmt>, tail: string)
    requires WellFormed(sc, ss, tail)
    ensures Numbered(Items(ss), sc.count) && Continued(Items(ss))
    decreases |ss|
  {
    hide Reads, TailOk, Ids;
    if ss != [] {
      DocumentNumbered(Enter(sc, ss[0]), ss[1..], tail);
      assert Items(ss)[0] == View(ss[0]) && Items(ss)[1..] == Items(ss[1..]);
      if ss[1..] == [] { assert Enter(sc, ss[0]).stack == []; }
    }
  }

  predicate NoneChosen(items: seq<Item>, p: Shape -> bool) {
    items == [] || (!Chosen(items[0], p) && NoneChosen(items[1..], p))
  }

  lemma {:induction false} DroppedNone(items: seq<Item>, p: Shape -> bool)
    ensures NoneChosen(Drop(items, p), p)
  {
    hide Chosen;
    if items != [] {
      DroppedNone(items[1..], p);
      if Chosen(items[0], p) {
        assert [] + Drop(items[1..], p) == Drop(items[1..], p);
      } else {
        assert ([items[0]] + Drop(items[1..], p))[1..] == Drop(items[1..], p);
      }
    }
  }
}
