/** Characters, lines and substrings, as the Python built-ins used by the Nginx configurator see them. */
module NginxText {

  import opened PythonText

  datatype Error =
    | UnterminatedQuote | UnsupportedSyntax
    | QuotedName | MapContext | MapInclude | MapNesting
    | EmptyDirective | UnnamedBlock | UnterminatedDirective | UnmatchedBrace | UnterminatedBlock
    | UnterminatedSecurityDirective
    | NestedMarkers | UnmatchedEndMarker | UnterminatedMaintenance | MismatchedMarkers
    | SamePorts | UnknownPorts | IncludeInSite | IncludeInAudit | UpstreamCount | ProxyScopeCount | NoServers
    | UnsafeAccessLog | AccessLogCount | ClientIpHeaders | FormatCount | BracedVariable | UnsafeVariables
    | MaintenanceNotCovering

  /** `Err` models a raised `ValueError`. */
  datatype Result<+T> = Ok(value: T) | Err(error: Error) {
    predicate IsFailure() { Err? }
    function PropagateFailure<U>(): Result<U>
      requires Err?
    {
      Err(error)
    }
    function Extract(): T
      requires Ok?
    {
      value
    }
  }

  /** The characters at which `str.splitlines` ends a line. */
  predicate IsBreak(c: char) {
    var n := c as int;
    10 <= n <= 13 || 28 <= n <= 30 || n == 0x85 || n == 0x2028 || n == 0x2029
  }

  predicate IsPunct(c: char) { c == '{' || c == '}' || c == ';' }

  predicate IsQuote(c: char) { c == '\'' || c == '"' }

  /** The characters that end an unquoted token. */
  predicate IsDelimiter(c: char) { IsSpace(c) || IsPunct(c) || c == '#' }

  /** A character of an unquoted token that needs no escape handling. */
  predicate IsPlain(c: char) { !IsDelimiter(c) && !IsQuote(c) && c != '\\' }

  predicate Plain(s: string) { forall c <- s :: IsPlain(c) }

  predicate Blank(s: string) { forall c <- s :: IsSpace(c) }

  predicate HasNewline(s: string) { '\n' in s }

  // ----- Slices that clamp, as Python slices do

  function Upto(s: string, n: int): string {
    if n <= 0 then "" else if n >= |s| then s else s[..n]
  }

  function From(s: string, n: int): string {
    if n <= 0 then s else if n >= |s| then "" else s[n..]
  }

  function Mid(s: string, i: int, j: int): string { From(Upto(s, j), i) }

  // ----- Lines

  /** The text before the first newline. */
  function Head(s: string): string {
    if s == "" || s[0] == '\n' then "" else [s[0]] + Head(s[1..])
  }

  /** The text after the first newline, empty when there is none. */
  function AfterNewline(s: string): string {
    if s == "" then "" else if s[0] == '\n' then s[1..] else AfterNewline(s[1..])
  }

  /** The text after the last newline. */
  function LastLine(s: string): string {
    if s == "" || s[|s| - 1] == '\n' then "" else LastLine(s[..|s| - 1]) + [s[|s| - 1]]
  }

  /** The text up to and including the last newline. */
  function ThroughNewline(s: string): string {
    if s == "" || s[|s| - 1] == '\n' then s else ThroughNewline(s[..|s| - 1])
  }

  /** `text.rfind("\n", 0, p) + 1`. */
  function LineStart(text: string, p: int): int { p - |LastLine(Upto(text, p))| }

  /** `text.find("\n", p)`, or the length of the text when there is no newline. */
  function LineEnd(text: string, p: int): int { p + |Head(From(text, p))| }

  /** The match of `[ \t]*` at the start of a string. */
  function Margin(s: string): string {
    if s != "" && (s[0] == ' ' || s[0] == '\t') then [s[0]] + Margin(s[1..]) else ""
  }

  // ----- Substrings

  predicate OccursAt(m: string, s: string, i: int) { 0 <= i <= |s| - |m| && s[i..i + |m|] == m }

  ghost predicate Occurs(m: string, s: string) { exists i :: OccursAt(m, s, i) }

  /** `s.count(m)`: occurrences that do not overlap, counted from the left. */
  function Count(m: string, s: string): nat
    requires m != ""
    decreases |s|
  {
    if |s| < |m| then 0
    else if s[..|m|] == m then 1 + Count(m, s[|m|..])
    else Count(m, s[1..])
  }

  // ----- `str.splitlines(keepends=True)`

  function LineLength(s: string): (n: nat)
    ensures n <= |s| && (s != "" ==> 0 < n)
  {
    if s == "" then 0
    else if s[0] == '\r' then (if |s| > 1 && s[1] == '\n' then 2 else 1)
    else if IsBreak(s[0]) then 1
    else 1 + LineLength(s[1..])
  }

  function Lines(s: string): seq<string> {
    if s == "" then [] else [s[..LineLength(s)]] + Lines(s[LineLength(s)..])
  }

  // ----- Lemmas about lines

  lemma {:induction false} HeadSplit(s: string)
    ensures HasNewline(s) ==> s == Head(s) + "\n" + AfterNewline(s)
    ensures !HasNewline(s) ==> Head(s) == s && AfterNewline(s) == ""
    ensures !HasNewline(Head(s))
  {
    if s != "" && s[0] != '\n' {
      HeadSplit(s[1..]);
      assert s == [s[0]] + s[1..];
      assert HasNewline(s) <==> HasNewline(s[1..]);
    }
  }

  lemma {:induction false} LastSplit(s: string)
    ensures s == ThroughNewline(s) + LastLine(s)
    ensures !HasNewline(LastLine(s))
    ensures HasNewline(s) ==> ThroughNewline(s) != "" && ThroughNewline(s)[|ThroughNewline(s)| - 1] == '\n'
    ensures !HasNewline(s) ==> LastLine(s) == s && ThroughNewline(s) == ""
  {
    if s != "" && s[|s| - 1] != '\n' {
      LastSplit(s[..|s| - 1]);
      assert s == s[..|s| - 1] + [s[|s| - 1]];
      assert HasNewline(s) <==> HasNewline(s[..|s| - 1]);
    }
  }

  lemma {:induction false} HeadConcat(a: string, b: string)
    ensures Head(a + b) == if HasNewline(a) then Head(a) else a + Head(b)
    ensures AfterNewline(a + b) == if HasNewline(a) then AfterNewline(a) + b else AfterNewline(b)
  {
    if a == "" {
      assert a + b == b;
    } else {
      assert (a + b)[1..] == a[1..] + b;
      if a[0] != '\n' {
        HeadConcat(a[1..], b);
        assert a == [a[0]] + a[1..];
        assert HasNewline(a) <==> HasNewline(a[1..]);
      }
    }
  }

  lemma {:induction false} LastConcat(a: string, b: string)
    ensures LastLine(a + b) == if HasNewline(b) then LastLine(b) else LastLine(a) + b
    ensures ThroughNewline(a + b) == if HasNewline(b) then a + ThroughNewline(b) else ThroughNewline(a)
  {
    if b == "" {
      assert a + b == a;
    } else {
      var n := |b| - 1;
      assert (a + b)[..|a + b| - 1] == a + b[..n];
      assert (a + b)[|a + b| - 1] == b[n];
      assert b == b[..n] + [b[n]];
      if b[n] != '\n' {
        LastConcat(a, b[..n]);
        assert HasNewline(b) <==> HasNewline(b[..n]);
      }
    }
  }

  lemma BlankConcat(a: string, b: string)
    ensures Blank(a + b) <==> Blank(a) && Blank(b)
  {
    if Blank(a + b) {
      forall c | c in a ensures IsSpace(c) { assert c in a + b; }
      forall c | c in b ensures IsSpace(c) { assert c in a + b; }
    }
  }

  lemma {:induction false} MarginFacts(s: string)
    ensures Blank(Margin(s)) && !HasNewline(Margin(s)) && '#' !in Margin(s)
    ensures |Margin(s)| <= |s| && s[..|Margin(s)|] == Margin(s)
    ensures |Margin(s)| < |s| ==> s[|Margin(s)|] != ' ' && s[|Margin(s)|] != '\t'
  {
    hide IsSpace;
    if s != "" && (s[0] == ' ' || s[0] == '\t') {
      var m := Margin(s[1..]);
      MarginFacts(s[1..]);
      assert s[..|m| + 1] == [s[0]] + s[1..][..|m|];
      assert Blank([s[0]] + m) by { BlanksAreSpace(); }
    }
  }

  lemma BlanksAreSpace()
    ensures IsSpace(' ') && IsSpace('\t')
  {}

  // ----- Lemmas about slices

  lemma SliceOfConcat(a: string, b: string, c: string)
    ensures Upto(a + b + c, |a|) == a
    ensures From(a + b + c, |a|) == b + c
    ensures From(a + b + c, |a| + |b|) == c
    ensures Upto(a + b + c, |a| + |b|) == a + b
    ensures Mid(a + b + c, |a|, |a| + |b|) == b
  {
    assert (a + b + c)[..|a|] == a;
    assert (a + b + c)[|a|..] == b + c;
    assert (a + b + c)[|a| + |b|..] == c;
    assert (a + b + c)[..|a| + |b|] == a + b;
    assert (a + b)[|a|..] == b;
  }
}
