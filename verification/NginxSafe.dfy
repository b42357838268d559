module NginxSafe {

  // What the auditor accepts, in literal words: no includes, one safe log of its own and only safe logs in every server,
  // overwritten client-IP headers around every Astra proxy, and a log format without unsafe variables.

  import opened PythonText
  import opened NginxText
  import opened NginxLexer
  import opened NginxParser
  import opened NginxRemoval
  import opened NginxInsertion
  import opened NginxUpstream
  import opened NginxAudit

  /** Equal up to the case of ASCII letters; `name` has no upper-case ones. */
  predicate AnyCase(w: string, name: string) {
    |w| == |name|
    && forall i :: 0 <= i < |w| ==> w[i] == name[i] || ('A' <= w[i] <= 'Z' && w[i] as int + 32 == name[i] as int)
  }

  lemma LowerIs(w: string, name: string)
    requires forall i :: 0 <= i < |name| ==> !('A' <= name[i] <= 'Z')
    ensures Lower(w) == name <==> AnyCase(w, name)
  {
    if |w| == |name| {
      assert Lower(w) == name <==> forall i :: 0 <= i < |w| ==> Lower(w)[i] == name[i];
    }
  }

  // ----- The condition

  /** The directive has exactly these arguments. */
  predicate Has2(d: Directive, first: string, second: string) {
    |d.arguments| == 2 && d.arguments[0].value == first && d.arguments[1].value == second
  }

  /** An access log anywhere inside the block. */
  predicate LogInside(d: Directive, block: nat) { d.name == "access_log" && block in d.blocks }

  /** An access log of the block's own. */
  predicate OwnLog(d: Directive, block: nat) {
    d.name == "access_log" && d.blocks != [] && d.blocks[|d.blocks| - 1] == block
  }

  predicate Proxies(d: Directive) {
    && d.name == "proxy_pass" && |d.arguments| == 1
    && (d.arguments[0].value == "http://127.0.0.1:3008" || d.arguments[0].value == "http://127.0.0.1:3009")
  }

  /** A header directive with a name and a value in the same scope as the proxy. */
  predicate HeaderBeside(proxy: Directive, d: Directive, name: string) {
    d.name == "proxy_set_header" && d.blocks == proxy.blocks && |d.arguments| == 2 && AnyCase(d.arguments[0].value, name)
  }

  predicate OwnFormat(d: Directive) {
    d.name == "log_format" && d.arguments != [] && d.arguments[0].value == "astra_no_args"
  }

  /** Exactly one of the directives is chosen by `p`. */
  ghost predicate ExactlyOne(ds: seq<Directive>, p: Directive -> bool) {
    exists i :: 0 <= i < |ds| && p(ds[i]) && forall j :: 0 <= j < |ds| && p(ds[j]) ==> j == i
  }

  predicate OfWord(c: char) { 'a' <= c <= 'z' || 'A' <= c <= 'Z' || '0' <= c <= '9' || c == '_' }

  /** A dollar sign with the word behind it, whole. */
  predicate VariableAt(s: string, i: int, j: int) {
    && 0 <= i < j - 1 < |s| && s[i] == '$' && (forall k :: i < k < j ==> OfWord(s[k]))
    && (j < |s| ==> !OfWord(s[j]))
  }

  predicate SafeVariable(v: string) {
    || v == "$body_bytes_sent" || v == "$request_id" || v == "$request_time" || v == "$status" || v == "$time_iso8601"
    || v == "$upstream_response_time" || v == "$upstream_status"
  }

  /** A format with all the safe variables, no others, and none in braces. */
  ghost predicate SafeFormat(s: string) {
    && (forall i :: 0 <= i < |s| - 1 && s[i] == '$' ==> s[i + 1] != '{')
    && forall v :: SafeVariable(v) <==> exists i, j :: VariableAt(s, i, j) && s[i..j] == v
  }

  ghost predicate SafeServer(ds: seq<Directive>, block: nat) {
    && (forall d <- ds :: LogInside(d, block) ==> Has2(d, "/var/log/nginx/access.log", "astra_no_args"))
    && ExactlyOne(ds, (d: Directive) => OwnLog(d, block))
  }

  ghost predicate SafeHeader(ds: seq<Directive>, proxy: Directive, name: string) {
    && ExactlyOne(ds, (d: Directive) => HeaderBeside(proxy, d, name))
    && forall d <- ds :: HeaderBeside(proxy, d, name) ==> d.arguments[1].value == "$remote_addr"
  }

  ghost predicate SafeFormats(text: string, ds: seq<Directive>) {
    && (forall i, j :: 0 <= i < |ds| && 0 <= j < |ds| && OwnFormat(ds[i]) && OwnFormat(ds[j]) ==> i == j)
    && forall d <- ds :: OwnFormat(d) ==> SafeFormat(Mid(text, d.start, d.end))
  }

  ghost predicate SafeConfig(text: string, parsed: ParsedConfig) {
    var ds := parsed.directives;
    && (forall d <- ds :: d.name != "include")
    && (exists b <- parsed.blocks :: b.name == "server")
    && (forall b <- parsed.blocks :: b.name == "server" ==> SafeServer(ds, b.identifier))
    && (forall d <- ds :: Proxies(d) ==> SafeHeader(ds, d, "x-real-ip") && SafeHeader(ds, d, "x-forwarded-for"))
    && SafeFormats(text, ds)
  }

  // ----- Selections of one

  /** The only choice is the one at `i`. */
  predicate OnlyAt(f: seq<bool>, i: int) {
    0 <= i < |f| && f[i] && forall j :: 0 <= j < |f| && f[j] ==> j == i
  }

  function Trues(f: seq<bool>): nat { if f == [] then 0 else (if f[0] then 1 else 0) + Trues(f[1..]) }

  lemma {:induction false} NoTrues(f: seq<bool>)
    ensures Trues(f) == 0 <==> forall i :: 0 <= i < |f| ==> !f[i]
  {
    if f != [] {
      NoTrues(f[1..]);
      assert forall i :: 0 < i < |f| ==> f[i] == f[1..][i - 1];
    }
  }

  lemma {:induction false} OneTrue(f: seq<bool>)
    ensures Trues(f) == 1 ==> exists i :: OnlyAt(f, i)
  {
    if f != [] && Trues(f) == 1 {
      var rest := f[1..];
      NoTrues(rest);
      assert forall j :: 0 < j < |f| ==> f[j] == rest[j - 1];
      if f[0] {
        assert OnlyAt(f, 0);
      } else {
        OneTrue(rest);
        var i :| OnlyAt(rest, i);
        assert OnlyAt(f, i + 1);
      }
    }
  }

  lemma {:induction false} TrueOnce(f: seq<bool>, i: int)
    requires OnlyAt(f, i)
    ensures Trues(f) == 1
  {
    var rest := f[1..];
    assert forall j :: 0 < j < |f| ==> f[j] == rest[j - 1];
    if i == 0 {
      NoTrues(rest);
    } else {
      TrueOnce(rest, i - 1);
    }
  }

  function Choices(ds: seq<Directive>, p: Shape -> bool): seq<bool> {
    seq(|ds|, i requires 0 <= i < |ds| => p(ShapeOf(ds[i])))
  }

  lemma {:induction false} SelectionSize(ds: seq<Directive>, p: Shape -> bool)
    ensures |Select(ds, p)| == Trues(Choices(ds, p))
  {
    hide ShapeOf;
    if ds != [] {
      SelectionSize(ds[1..], p);
      assert Choices(ds, p)[1..] == Choices(ds[1..], p);
    }
  }

  /** The literal rule `q` chooses what the rule `p` selects. */
  ghost predicate SameRule(p: Shape -> bool, q: Directive -> bool) {
    forall d :: p(ShapeOf(d)) <==> q(d)
  }

  lemma SelectedOne(ds: seq<Directive>, p: Shape -> bool, q: Directive -> bool)
    requires SameRule(p, q)
    ensures |Select(ds, p)| == 1 <==> ExactlyOne(ds, q)
  {
    hide ShapeOf, Trues;
    var f := Choices(ds, p);
    SelectionSize(ds, p);
    if |Select(ds, p)| == 1 {
      OneTrue(f);
      var i :| OnlyAt(f, i);
      OnlyChoice(ds, p, q, i);
    }
    if ExactlyOne(ds, q) {
      var i :| 0 <= i < |ds| && q(ds[i]) && forall j :: 0 <= j < |ds| && q(ds[j]) ==> j == i;
      TrueOnce(f, i);
    }
  }

  lemma OnlyChoice(ds: seq<Directive>, p: Shape -> bool, q: Directive -> bool, i: int)
    requires SameRule(p, q) && OnlyAt(Choices(ds, p), i)
    ensures ExactlyOne(ds, q)
  {
    hide ShapeOf;
    var f := Choices(ds, p);
    forall j | 0 <= j < |ds| && q(ds[j]) ensures j == i { assert f[j]; }
    assert f[i];
  }

  /** The selection holds exactly the chosen directives. */
  lemma {:induction false} SelectedAre(ds: seq<Directive>, p: Shape -> bool, d: Directive)
    ensures d in Select(ds, p) <==> d in ds && p(ShapeOf(d))
  {
    hide ShapeOf;
    if ds != [] { SelectedAre(ds[1..], p, d); }
  }

  // ----- Servers and their logs

  lemma ShapeValues(d: Directive)
    ensures var a := ShapeOf(d).arguments;
      |a| == |d.arguments| && forall i :: 0 <= i < |a| ==> a[i] == d.arguments[i].value
    ensures ShapeOf(d).name == d.name && ShapeOf(d).blocks == d.blocks
  {
    ValuesIndex(d.arguments);
  }

  lemma {:induction false} ShapesAre(ds: seq<Directive>, x: Shape)
    ensures x in ShapesOf(ds) <==> exists d <- ds :: x == ShapeOf(d)
  {
    hide ShapeOf;
    if ds != [] { ShapesAre(ds[1..], x); }
  }

  lemma LogShape(d: Directive, block: nat)
    ensures var x := ShapeOf(d);
      && (AccessLog(x) && InServer(x, block) <==> LogInside(d, block))
      && (AccessLog(x) && DirectlyIn(x, block) <==> OwnLog(d, block))
      && (SafeAccessLog(x) <==> Has2(d, "/var/log/nginx/access.log", "astra_no_args"))
  {
    ShapeValues(d);
    var a := ShapeOf(d).arguments;
    if |a| == 2 { assert a == [a[0], a[1]]; }
  }

  lemma UnsafeLogs(ds: seq<Directive>, block: nat)
    ensures UnsafeLogIn(ShapesOf(ds), block) <==>
      exists d <- ds :: LogInside(d, block) && !Has2(d, "/var/log/nginx/access.log", "astra_no_args")
  {
    hide ShapesOf, ShapeOf, AccessLog, InServer, SafeAccessLog, LogInside, Has2;
    if UnsafeLogIn(ShapesOf(ds), block) {
      var x :| x in ShapesOf(ds) && AccessLog(x) && InServer(x, block) && !SafeAccessLog(x);
      ShapesAre(ds, x);
      var d :| d in ds && x == ShapeOf(d);
      LogShape(d, block);
    }
    if d :| d in ds && LogInside(d, block) && !Has2(d, "/var/log/nginx/access.log", "astra_no_args") {
      ShapesAre(ds, ShapeOf(d));
      LogShape(d, block);
    }
  }

  /** An access log of the block's own, as a selection rule. */
  function OwnLogRule(block: nat): Shape -> bool { (x: Shape) => AccessLog(x) && DirectlyIn(x, block) }

  lemma {:induction false} DirectLogsAre(ds: seq<Directive>, block: nat)
    ensures DirectLogs(ShapesOf(ds), block) == |Select(ds, OwnLogRule(block))|
  {
    hide ShapeOf, AccessLog, DirectlyIn;
    if ds != [] {
      DirectLogsAre(ds[1..], block);
      assert ([ShapeOf(ds[0])] + ShapesOf(ds[1..]))[1..] == ShapesOf(ds[1..]);
    }
  }

  lemma ServerIsSafe(ds: seq<Directive>, block: nat)
    ensures !UnsafeLogIn(ShapesOf(ds), block) && DirectLogs(ShapesOf(ds), block) == 1 <==> SafeServer(ds, block)
  {
    hide ShapesOf, ShapeOf, LogInside, Has2, UnsafeLogIn, DirectLogs, Select, OwnLog, AccessLog, DirectlyIn;
    UnsafeLogs(ds, block);
    DirectLogsAre(ds, block);
    forall d ensures OwnLogRule(block)(ShapeOf(d)) <==> OwnLog(d, block) { LogShape(d, block); }
    SelectedOne(ds, OwnLogRule(block), (d: Directive) => OwnLog(d, block));
  }

  lemma {:induction false} ServersAreSafe(servers: seq<nat>, ds: seq<Directive>)
    ensures AuditServers(servers, ShapesOf(ds)).Ok? <==> forall k <- servers :: SafeServer(ds, k)
    ensures AuditServers(servers, ShapesOf(ds)).Ok? ==> AuditServers(servers, ShapesOf(ds)).value == |servers|
  {
    hide SafeServer, UnsafeLogIn, DirectLogs, ShapesOf;
    if servers != [] {
      ServersAreSafe(servers[1..], ds);
      ServerIsSafe(ds, servers[0]);
      assert servers == [servers[0]] + servers[1..];
    }
  }

  lemma {:induction false} IdentifiersAre(blocks: seq<Block>, k: nat)
    ensures k in Identifiers(ServerBlocks(blocks)) <==> exists b <- blocks :: b.name == "server" && b.identifier == k
  {
    if blocks != [] {
      var more := ServerBlocks(blocks[1..]);
      IdentifiersAre(blocks[1..], k);
      if blocks[0].name == "server" {
        assert ([blocks[0]] + more)[1..] == more;
      } else {
        assert [] + more == more;
      }
      assert blocks == [blocks[0]] + blocks[1..];
    }
  }

  lemma ServersOfBlocks(blocks: seq<Block>)
    ensures Identifiers(ServerBlocks(blocks)) != [] <==> exists b <- blocks :: b.name == "server"
  {
    var ids := Identifiers(ServerBlocks(blocks));
    if ids != [] {
      assert ids[0] in ids;
      IdentifiersAre(blocks, ids[0]);
    }
    if b :| b in blocks && b.name == "server" { IdentifiersAre(blocks, b.identifier); }
  }

  // ----- Headers

  /** A header of the proxy's scope, as a selection rule. */
  function HeaderRule(blocks: seq<nat>, name: string): Shape -> bool { (x: Shape) => NamedHeader(x, blocks, name) }

  lemma HeaderShape(proxy: Directive, d: Directive, name: string)
    requires name == "x-real-ip" || name == "x-forwarded-for"
    ensures NamedHeader(ShapeOf(d), proxy.blocks, name) <==> HeaderBeside(proxy, d, name)
    ensures HeaderBeside(proxy, d, name) ==> ShapeOf(d).arguments[1] == d.arguments[1].value
  {
    hide Lower, AnyCase;
    ShapeValues(d);
    if |d.arguments| == 2 { LowerIs(d.arguments[0].value, name); }
  }

  lemma {:induction false} HeaderValuesAre(ds: seq<Directive>, proxy: Directive, name: string, v: string)
    requires name == "x-real-ip" || name == "x-forwarded-for"
    ensures |HeaderValues(ShapesOf(ds), proxy.blocks, name)| == |Select(ds, HeaderRule(proxy.blocks, name))|
    ensures v in HeaderValues(ShapesOf(ds), proxy.blocks, name) <==>
      exists d <- ds :: HeaderBeside(proxy, d, name) && d.arguments[1].value == v
  {
    hide ShapeOf, HeaderBeside, NamedHeader;
    if ds != [] {
      HeaderValuesAre(ds[1..], proxy, name, v);
      HeaderShape(proxy, ds[0], name);
      assert ([ShapeOf(ds[0])] + ShapesOf(ds[1..]))[1..] == ShapesOf(ds[1..]);
      assert ds == [ds[0]] + ds[1..];
    }
  }

  lemma HeaderIsSafe(ds: seq<Directive>, proxy: Directive, name: string)
    requires name == "x-real-ip" || name == "x-forwarded-for"
    ensures HeaderValues(ShapesOf(ds), proxy.blocks, name) == ["$remote_addr"] <==> SafeHeader(ds, proxy, name)
  {
    hide ShapesOf, ShapeOf, HeaderValues, Select, HeaderBeside, NamedHeader, ExactlyOne;
    var values := HeaderValues(ShapesOf(ds), proxy.blocks, name);
    var rule := (d: Directive) => HeaderBeside(proxy, d, name);
    forall d ensures HeaderRule(proxy.blocks, name)(ShapeOf(d)) <==> rule(d) { HeaderShape(proxy, d, name); }
    SelectedOne(ds, HeaderRule(proxy.blocks, name), rule);
    HeaderValuesAre(ds, proxy, name, "");
    if |values| == 1 {
      HeaderValuesAre(ds, proxy, name, values[0]);
      assert forall v :: v in values <==> v == values[0];
      forall d | d in ds && HeaderBeside(proxy, d, name)
        ensures |d.arguments| == 2 && d.arguments[1].value == values[0]
      {
        HeaderShape(proxy, d, name);
        BesideHasTwo(proxy, d, name);
        HeaderValuesAre(ds, proxy, name, d.arguments[1].value);
      }
    }
  }

  lemma BesideHasTwo(proxy: Directive, d: Directive, name: string)
    requires HeaderBeside(proxy, d, name)
    ensures |d.arguments| == 2
  {}

  lemma ProxyShape(d: Directive)
    ensures AstraProxy(ShapeOf(d)) <==> Proxies(d)
  {
    ShapeValues(d);
    var a := ShapeOf(d).arguments;
    UpstreamTexts();
    if |a| == 1 { assert a == [a[0]]; }
  }

  lemma UpstreamTexts()
    ensures Upstream(P3008) == "http://127.0.0.1:3008" && Upstream(P3009) == "http://127.0.0.1:3009"
  {}

  lemma {:induction false} ProxiesAreSafe(proxies: seq<Directive>, ds: seq<Directive>)
    ensures AuditProxies(ShapesOf(proxies), ShapesOf(ds)).Ok? <==>
      forall d <- proxies :: Proxies(d) ==> SafeHeader(ds, d, "x-real-ip") && SafeHeader(ds, d, "x-forwarded-for")
  {
    hide ShapeOf, AstraProxy, Proxies, SafeHeader, HeaderValues;
    if proxies != [] {
      var d, rest := proxies[0], proxies[1..];
      ProxiesAreSafe(rest, ds);
      ProxyShape(d);
      ShapeValues(d);
      HeaderIsSafe(ds, d, "x-real-ip");
      HeaderIsSafe(ds, d, "x-forwarded-for");
      assert ([ShapeOf(d)] + ShapesOf(rest))[1..] == ShapesOf(rest);
      assert proxies == [d] + rest;
    }
  }

  // ----- Formats

  lemma {:induction false} WordLengthIs(s: string)
    ensures var n := WordLength(s);
      n <= |s| && (forall k :: 0 <= k < n ==> OfWord(s[k])) && (n < |s| ==> !OfWord(s[n]))
  {
    if s != "" && IsWordCharacter(s[0]) {
      WordLengthIs(s[1..]);
      assert forall k :: 0 < k < |s| ==> s[k] == s[1..][k - 1];
    }
  }

  lemma VariableShift(s: string, m: nat, i: int, j: int)
    requires m <= |s| && 0 <= i
    ensures VariableAt(s, i + m, j + m) <==> VariableAt(s[m..], i, j)
    ensures VariableAt(s[m..], i, j) ==> s[i + m..j + m] == s[m..][i..j]
  {
    hide OfWord;
    if VariableAt(s, i + m, j + m) {
      assert forall k :: i < k < j ==> s[m..][k] == s[k + m];
    } else if VariableAt(s[m..], i, j) {
      assert forall k :: i + m < k < j + m ==> s[m..][k - m] == s[k];
    }
  }

  /** Some variable of the text is `v`. */
  ghost predicate HasVariable(s: string, v: string) { exists i, j :: VariableAt(s, i, j) && s[i..j] == v }

  /** Behind the first `m` characters, in which no other variable begins, the variables are those of the rest. */
  lemma VariablesLater(s: string, m: nat, v: string)
    requires m <= |s| && forall i, j :: 0 <= i < m ==> !VariableAt(s, i, j)
    ensures HasVariable(s, v) <==> HasVariable(s[m..], v)
  {
    hide OfWord;
    if i, j :| VariableAt(s, i, j) && s[i..j] == v {
      VariableShift(s, m, i - m, j - m);
      assert VariableAt(s[m..], i - m, j - m);
    }
    if i, j :| VariableAt(s[m..], i, j) && s[m..][i..j] == v {
      VariableShift(s, m, i, j);
      assert VariableAt(s, i + m, j + m);
    }
  }

  /** A word behind a leading dollar sign is one variable, and no other begins inside it. */
  lemma LeadingVariable(s: string, v: string)
    requires s != "" && s[0] == '$' && WordLength(s[1..]) > 0
    ensures var n := WordLength(s[1..]) + 1; n <= |s| && (HasVariable(s, v) <==> v == s[..n] || HasVariable(s[n..], v))
  {
    hide OfWord, WordLength;
    var n := WordLength(s[1..]) + 1;
    WordLengthIs(s[1..]);
    assert forall k :: 0 < k < |s| ==> s[k] == s[1..][k - 1];
    OnlyFirst(s, n);
    if i, j :| VariableAt(s, i, j) && s[i..j] == v {
      if i > 0 {
        VariableShift(s, n, i - n, j - n);
        assert VariableAt(s[n..], i - n, j - n);
      }
    }
    if i, j :| VariableAt(s[n..], i, j) && s[n..][i..j] == v {
      VariableShift(s, n, i, j);
      assert VariableAt(s, i + n, j + n);
    }
    if v == s[..n] { assert VariableAt(s, 0, n) && s[0..n] == v; }
  }

  lemma OnlyFirst(s: string, n: int)
    requires 1 < n <= |s| && s[0] == '$' && (forall k :: 0 < k < n ==> OfWord(s[k])) && (n < |s| ==> !OfWord(s[n]))
    ensures VariableAt(s, 0, n)
    ensures forall i, j :: VariableAt(s, i, j) && i < n ==> i == 0 && j == n
  {}

  lemma NoLeadingVariable(s: string)
    requires s != "" && (s[0] != '$' || WordLength(s[1..]) == 0)
    ensures forall i, j :: 0 <= i < 1 ==> !VariableAt(s, i, j)
  {
    WordLengthIs(s[1..]);
    if |s| > 1 { assert s[1..][0] == s[1]; }
  }

  lemma {:induction false} VariablesAre(s: string, v: string)
    ensures v in Variables(s) <==> HasVariable(s, v)
    decreases |s|
  {
    hide HasVariable, WordLength;
    if s == "" {
      NoVariables(v);
    } else {
      var n := WordLength(s[1..]);
      WordLengthIs(s[1..]);
      if s[0] == '$' && n > 0 {
        VariablesAre(s[n + 1..], v);
        LeadingVariable(s, v);
      } else {
        VariablesAre(s[1..], v);
        NoLeadingVariable(s);
        VariablesLater(s, 1, v);
      }
    }
  }

  lemma NoVariables(v: string)
    ensures !HasVariable("", v)
  {}

  lemma SafeVariablesAre(v: string)
    ensures v in SAFE_LOG_VARIABLES <==> SafeVariable(v)
  {}

  lemma FormatIsSafe(s: string)
    ensures !HasBrace(s) && Variables(s) == SAFE_LOG_VARIABLES <==> SafeFormat(s)
  {
    hide Variables, SafeVariable, VariableAt;
    forall v ensures (v in SAFE_LOG_VARIABLES <==> SafeVariable(v)) && (v in Variables(s) <==> HasVariable(s, v)) {
      SafeVariablesAre(v);
      VariablesAre(s, v);
    }
    if SafeFormat(s) {
      forall v ensures v in Variables(s) <==> v in SAFE_LOG_VARIABLES { assert HasVariable(s, v) <==> SafeVariable(v); }
    }
  }

  lemma FormatShape(d: Directive)
    ensures AstraFormat(ShapeOf(d)) <==> OwnFormat(d)
  {
    ShapeValues(d);
  }

  lemma {:induction false} RawsAre(text: string, ds: seq<Directive>)
    ensures |RawsOf(text, ds)| == |ds|
    ensures forall i :: 0 <= i < |ds| ==> RawsOf(text, ds)[i] == Mid(text, ds[i].start, ds[i].end)
  {
    hide Mid;
    if ds != [] { RawsAre(text, ds[1..]); }
  }

  lemma FormatSelected(ds: seq<Directive>, d: Directive)
    ensures d in Select(ds, AstraFormat) <==> d in ds && OwnFormat(d)
  {
    hide ShapeOf, AstraFormat, OwnFormat;
    SelectedAre(ds, AstraFormat, d);
    FormatShape(d);
  }

  /** The selection has at most one member exactly when no two directives are chosen. */
  lemma AtMostOne(ds: seq<Directive>)
    ensures |Select(ds, AstraFormat)| <= 1 <==>
      forall i, j :: 0 <= i < |ds| && 0 <= j < |ds| && OwnFormat(ds[i]) && OwnFormat(ds[j]) ==> i == j
  {
    hide ShapeOf, AstraFormat, OwnFormat, Select;
    var q := (d: Directive) => OwnFormat(d);
    forall d ensures AstraFormat(ShapeOf(d)) <==> q(d) { FormatShape(d); }
    SelectedOne(ds, AstraFormat, q);
    if i :| 0 <= i < |ds| && OwnFormat(ds[i]) {
      FormatSelected(ds, ds[i]);
      if forall a, b :: 0 <= a < |ds| && 0 <= b < |ds| && OwnFormat(ds[a]) && OwnFormat(ds[b]) ==> a == b {
        assert q(ds[i]) && forall j :: 0 <= j < |ds| && q(ds[j]) ==> j == i;
      }
    } else {
      NoFormats(ds);
    }
  }

  lemma NoFormats(ds: seq<Directive>)
    requires forall i :: 0 <= i < |ds| ==> !OwnFormat(ds[i])
    ensures Select(ds, AstraFormat) == []
  {
    hide Select, AstraFormat, OwnFormat;
    var chosen := Select(ds, AstraFormat);
    if chosen != [] {
      FormatSelected(ds, chosen[0]);
    }
  }

  lemma FormatsAreSafe(text: string, ds: seq<Directive>)
    ensures AuditFormats(RawsOf(text, Select(ds, AstraFormat))).Ok? <==> SafeFormats(text, ds)
  {
    hide ShapeOf, AstraFormat, OwnFormat, Select, SafeFormat, Variables, HasBrace, Mid, RawsOf;
    var chosen := Select(ds, AstraFormat);
    AtMostOne(ds);
    RawsAre(text, chosen);
    forall d ensures d in chosen <==> d in ds && OwnFormat(d) { FormatSelected(ds, d); }
    if |chosen| == 1 {
      FormatIsSafe(Mid(text, chosen[0].start, chosen[0].end));
      assert forall d :: d in chosen <==> d == chosen[0];
    }
  }

  // ----- The auditor

  lemma NoIncludes(ds: seq<Directive>)
    ensures HasInclude(ShapesOf(ds)) <==> exists d <- ds :: d.name == "include"
  {
    hide ShapesOf;
    if HasInclude(ShapesOf(ds)) {
      var x :| x in ShapesOf(ds) && x.name == "include";
      ShapesAre(ds, x);
      var d :| d in ds && x == ShapeOf(d);
      ShapeValues(d);
    }
    if d :| d in ds && d.name == "include" {
      ShapesAre(ds, ShapeOf(d));
      ShapeValues(d);
    }
  }

  /** The auditor accepts exactly the safe configurations, and then reports one safe log for each server block. */
  lemma AuditAccepts(text: string, parsed: ParsedConfig)
    ensures Audit(text, parsed).Ok? <==> SafeConfig(text, parsed)
    ensures var n := |ServerBlocks(parsed.blocks)|; Audit(text, parsed).Ok? ==> Audit(text, parsed).value == (n, n)
  {
    hide ShapesOf, HasInclude, AuditServers, AuditProxies, AuditFormats, RawsOf, Select, Identifiers, ServerBlocks,
      SafeServer, SafeHeader, SafeFormats, Proxies, AstraFormat;
    var ds := parsed.directives;
    var ids := Identifiers(ServerBlocks(parsed.blocks));
    NoIncludes(ds);
    ServersOfBlocks(parsed.blocks);
    ServersAreSafe(ids, ds);
    forall k ensures k in ids <==> exists b <- parsed.blocks :: b.name == "server" && b.identifier == k {
      IdentifiersAre(parsed.blocks, k);
    }
    ProxiesAreSafe(ds, ds);
    FormatsAreSafe(text, ds);
    IdentifierCount(ServerBlocks(parsed.blocks));
    SafeServersOnly(parsed, ids);
  }

  lemma {:induction false} IdentifierCount(blocks: seq<Block>)
    ensures |Identifiers(blocks)| == |blocks|
  {
    if blocks != [] { IdentifierCount(blocks[1..]); }
  }

  lemma SafeServersOnly(parsed: ParsedConfig, ids: seq<nat>)
    requires forall k :: k in ids <==> exists b <- parsed.blocks :: b.name == "server" && b.identifier == k
    ensures (forall k <- ids :: SafeServer(parsed.directives, k)) <==>
      forall b <- parsed.blocks :: b.name == "server" ==> SafeServer(parsed.directives, b.identifier)
  {
    hide SafeServer;
  }

  lemma {:induction false} ServerFaults(servers: seq<nat>, shapes: seq<Shape>)
    ensures AuditServers(servers, shapes).Err? ==>
      AuditServers(servers, shapes).error == UnsafeAccessLog || AuditServers(servers, shapes).error == AccessLogCount
  {
    hide UnsafeLogIn, DirectLogs;
    if servers != [] { ServerFaults(servers[1..], shapes); }
  }

  lemma {:induction false} ProxyFaults(proxies: seq<Shape>, shapes: seq<Shape>)
    ensures AuditProxies(proxies, shapes).Err? ==> AuditProxies(proxies, shapes).error == ClientIpHeaders
  {
    hide HeaderValues, AstraProxy;
    if proxies != [] { ProxyFaults(proxies[1..], shapes); }
  }

  lemma FormatFaults(text: string, ds: seq<Directive>)
    ensures !SafeFormats(text, ds) ==>
      var r := AuditFormats(RawsOf(text, Select(ds, AstraFormat)));
      r == Err(FormatCount) || r == Err(BracedVariable) || r == Err(UnsafeVariables)
  {
    hide SafeFormats, Variables, HasBrace, RawsOf, Select;
    FormatsAreSafe(text, ds);
  }

  /** The first thing that is wrong with a configuration gives the error: includes, then servers, then their logs, then
      headers, then formats. */
  lemma AuditFaults(text: string, parsed: ParsedConfig)
    ensures var r, ds := Audit(text, parsed), parsed.directives;
      var includes := exists d <- ds :: d.name == "include";
      var servers := exists b <- parsed.blocks :: b.name == "server";
      var logs := forall b <- parsed.blocks :: b.name == "server" ==> SafeServer(ds, b.identifier);
      var headers := forall d <- ds :: Proxies(d) ==> SafeHeader(ds, d, "x-real-ip") && SafeHeader(ds, d, "x-forwarded-for");
      && (includes ==> r == Err(IncludeInAudit))
      && (!includes && !servers ==> r == Err(NoServers))
      && (!includes && servers && !logs ==> r == Err(UnsafeAccessLog) || r == Err(AccessLogCount))
      && (!includes && servers && logs && !headers ==> r == Err(ClientIpHeaders))
      && (!includes && servers && logs && headers && !SafeFormats(text, ds) ==>
            r == Err(FormatCount) || r == Err(BracedVariable) || r == Err(UnsafeVariables))
  {
    hide ShapesOf, HasInclude, AuditServers, AuditProxies, AuditFormats, RawsOf, Select, Identifiers, ServerBlocks,
      SafeServer, SafeHeader, SafeFormats, Proxies, AstraFormat;
    var ds := parsed.directives;
    var ids := Identifiers(ServerBlocks(parsed.blocks));
    NoIncludes(ds);
    ServersOfBlocks(parsed.blocks);
    ServersAreSafe(ids, ds);
    forall k ensures k in ids <==> exists b <- parsed.blocks :: b.name == "server" && b.identifier == k {
      IdentifiersAre(parsed.blocks, k);
    }
    SafeServersOnly(parsed, ids);
    ProxiesAreSafe(ds, ds);
    ServerFaults(ids, ShapesOf(ds));
    ProxyFaults(ShapesOf(ds), ShapesOf(ds));
    FormatFaults(text, ds);
    FormatsAreSafe(text, ds);
  }
}
