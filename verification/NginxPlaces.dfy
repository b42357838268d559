module NginxPlaces {

  // Where the configurator edits a text, in literal offsets and characters: whole lines or single statements go, log
  // lines and headers come with the margin of their line.

  import opened PythonText
  import opened NginxText
  import opened NginxParser
  import opened NginxRemoval
  import opened NginxPhrases
  import opened NginxInsertion
  import opened NginxHeaders

  /** The line with offset `p` begins at `b`. */
  predicate BeginsAt(text: string, p: int, b: int) {
    0 <= b <= p <= |text| && (b == 0 || text[b - 1] == '\n') && forall k :: b <= k < p ==> text[k] != '\n'
  }

  /** The line with offset `p` ends at `e`: at a newline or at the end of the text. */
  predicate EndsAt(text: string, p: int, e: int) {
    0 <= p <= e <= |text| && (e == |text| || text[e] == '\n') && forall k :: p <= k < e ==> text[k] != '\n'
  }

  predicate OnlySpace(text: string, i: int, j: int)
    requires 0 <= i <= j <= |text|
  {
    forall k :: i <= k < j ==> IsSpace(text[k])
  }

  /** The blanks and tabs from `b` reach to `m`, and no further before `p`. */
  predicate MarginTo(text: string, b: int, m: int, p: int)
    requires 0 <= b <= p <= |text|
  {
    && b <= m <= p && (forall k :: b <= k < m ==> text[k] == ' ' || text[k] == '\t')
    && (m < p ==> text[m] != ' ' && text[m] != '\t')
  }

  /** The rest of the line is blank, or a comment begins as the first thing in it. */
  predicate RestIsSilent(text: string, i: int, e: int)
    requires 0 <= i <= e <= |text|
  {
    OnlySpace(text, i, e) || exists k :: i <= k < e && text[k] == '#' && OnlySpace(text, i, k)
  }

  // ----- Lines by offsets

  lemma {:induction false} HeadIs(s: string, n: nat)
    requires n <= |s| && (n == |s| || s[n] == '\n') && forall k :: 0 <= k < n ==> s[k] != '\n'
    ensures Head(s) == s[..n]
  {
    if n > 0 {
      HeadIs(s[1..], n - 1);
      assert s[..n] == [s[0]] + s[1..][..n - 1];
    }
  }

  lemma {:induction false} LastIs(s: string, n: nat)
    requires n <= |s| && (n == 0 || s[n - 1] == '\n') && forall k :: n <= k < |s| ==> s[k] != '\n'
    ensures LastLine(s) == s[n..]
  {
    if n < |s| {
      var u := s[..|s| - 1];
      LastIs(u, n);
      assert s[n..] == u[n..] + [s[|s| - 1]];
    }
  }

  lemma {:induction false} MarginIs(s: string, n: nat)
    requires n <= |s| && (forall k :: 0 <= k < n ==> s[k] == ' ' || s[k] == '\t')
    requires n < |s| ==> s[n] != ' ' && s[n] != '\t'
    ensures Margin(s) == s[..n]
  {
    if n > 0 {
      MarginIs(s[1..], n - 1);
      assert s[..n] == [s[0]] + s[1..][..n - 1];
    }
  }

  lemma LineStartIs(text: string, p: int, b: int)
    requires BeginsAt(text, p, b)
    ensures LineStart(text, p) == b && Mid(text, b, p) == text[b..p]
  {
    assert Upto(text, p) == text[..p];
    assert text[..p][b..] == text[b..p];
    LastIs(text[..p], b);
  }

  lemma LineEndIs(text: string, p: int, e: int)
    requires EndsAt(text, p, e)
    ensures LineEnd(text, p) == e && Mid(text, p, e) == text[p..e]
  {
    HeadIs(text[p..], e - p);
  }

  lemma BlankIs(text: string, i: int, j: int)
    requires 0 <= i <= j <= |text|
    ensures Blank(text[i..j]) <==> OnlySpace(text, i, j)
  {
    hide IsSpace;
    if Blank(text[i..j]) {
      forall k | i <= k < j ensures IsSpace(text[k]) { assert text[i..j][k - i] in text[i..j]; }
    }
  }

  /** The first character that is not whitespace. */
  lemma {:induction false} FirstIs(s: string)
    ensures StripLeft(s) == "" <==> Blank(s)
    ensures StripLeft(s) != "" && StripLeft(s)[0] == '#' <==>
      exists k :: 0 <= k < |s| && s[k] == '#' && forall i :: 0 <= i < k ==> IsSpace(s[i])
  {
    hide IsSpace;
    HashIsText();
    if s != "" && IsSpace(s[0]) {
      var u := s[1..];
      FirstIs(u);
      assert s == [s[0]] + u;
      if k :| 0 <= k < |u| && u[k] == '#' && forall i :: 0 <= i < k ==> IsSpace(u[i]) {
        assert s[k + 1] == '#' && forall i :: 0 <= i < k + 1 ==> IsSpace(s[i]);
      }
      if k :| 0 <= k < |s| && s[k] == '#' && forall i :: 0 <= i < k ==> IsSpace(s[i]) {
        assert u[k - 1] == '#' && forall i :: 0 <= i < k - 1 ==> IsSpace(u[i]);
      }
    } else if s != "" {
      assert s[0] in s;
    }
  }

  lemma HashIsText()
    ensures !IsSpace('#')
  {}

  lemma SilentIs(text: string, i: int, e: int)
    requires 0 <= i <= e <= |text|
    ensures var rest := text[i..e];
      Blank(rest) || (StripLeft(rest) != "" && StripLeft(rest)[0] == '#') <==> RestIsSilent(text, i, e)
  {
    hide IsSpace, StripLeft;
    var rest := text[i..e];
    BlankIs(text, i, e);
    FirstIs(rest);
    if k :| 0 <= k < |rest| && rest[k] == '#' && forall j :: 0 <= j < k ==> IsSpace(rest[j]) {
      forall j | i <= j < i + k ensures IsSpace(text[j]) { assert rest[j - i] == text[j]; }
      assert text[i + k] == '#' && OnlySpace(text, i, i + k);
    }
    if k :| i <= k < e && text[k] == '#' && OnlySpace(text, i, k) {
      assert rest[k - i] == '#' && forall j :: 0 <= j < k - i ==> IsSpace(rest[j]);
    }
  }

  // ----- The edits

  /** A directive goes with its whole lines when nothing but whitespace stands beside it, else alone. */
  lemma RemovalIs(text: string, d: Directive, b: int, e: int)
    requires 0 <= d.start <= d.end <= |text| && BeginsAt(text, d.start, b) && EndsAt(text, d.end, e)
    ensures RemovalSpan(text, d) ==
      if OnlySpace(text, b, d.start) && OnlySpace(text, d.end, e) then Span(b, if e == |text| then e else e + 1)
      else Span(d.start, d.end)
  {
    hide LineStart, LineEnd, Mid, Blank, OnlySpace;
    LineStartIs(text, d.start, b);
    LineEndIs(text, d.end, e);
    BlankIs(text, b, d.start);
    BlankIs(text, d.end, e);
  }

  lemma PhraseOfThree(a: string, b: string, c: string)
    ensures Phrase([a, b, c]) == a + " " + b + " " + c + ";"
  {
    assert [a, b, c][1..] == [b, c] && [b, c][1..] == [c] && [c][1..] == [];
    assert Phrase([c]) == c + "" + ";" == c + ";";
    assert Phrase([b, c]) == b + " " + (c + ";");
    assert a + " " + (b + " " + (c + ";")) == a + " " + b + " " + c + ";";
  }

  lemma LogLineIs(margin: string)
    ensures var line := margin + "    " + ("access_log" + " " + "/var/log/nginx/access.log" + " " + "astra_no_args" + ";") + "\n";
      margin + INDENT + REDACTED_ACCESS_LOG + "\n" == line && "\n" + (margin + INDENT) + REDACTED_ACCESS_LOG + "\n" == "\n" + line
  {
    PhraseOfThree("access_log", "/var/log/nginx/access.log", "astra_no_args");
    var line := margin + INDENT + REDACTED_ACCESS_LOG + "\n";
    assert "\n" + (margin + INDENT) + REDACTED_ACCESS_LOG + "\n" == "\n" + line;
  }

  lemma IndentIs(text: string, server: Block, b: int, m: int)
    requires 0 <= server.opener.start <= |text|
    requires BeginsAt(text, server.opener.start, b) && MarginTo(text, b, m, server.opener.start)
    ensures IndentOf(text, server) == text[b..m] + INDENT
  {
    hide LineStart, Mid, StripLeft, Margin;
    LineStartIs(text, server.opener.start, b);
    MarginIs(text[b..server.opener.start], m - b);
    assert text[b..server.opener.start][..m - b] == text[b..m];
  }

  /** A log line goes to the line behind the brace when the rest of its line is silent, else right behind the brace onto a
      line of its own; its margin is that of the brace's line and four blanks. */
  lemma LogPlaceIs(text: string, server: Block, b: int, m: int, e: int)
    requires 0 <= server.opener.start <= server.opener.end <= |text|
    requires BeginsAt(text, server.opener.start, b) && MarginTo(text, b, m, server.opener.start)
    requires EndsAt(text, server.opener.end, e)
    ensures var log := "access_log" + " " + "/var/log/nginx/access.log" + " " + "astra_no_args" + ";";
      var line := text[b..m] + "    " + log + "\n";
      InsertionPoint(text, server) ==
        if e < |text| && RestIsSilent(text, server.opener.end, e) then Insertion(e + 1, line)
        else Insertion(server.opener.end, "\n" + line)
  {
    hide IndentOf, LineEnd, Mid, Blank, RestIsSilent;
    IndentIs(text, server, b, m);
    LogLineIs(text[b..m]);
    LineEndIs(text, server.opener.end, e);
    SilentIs(text, server.opener.end, e);
  }

  /** The headers take the place of the proxy, each on its own line with the proxy's margin; a proxy behind other text goes
      to a new line first, four blanks further in than its line. */
  lemma HeaderPlaceIs(text: string, proxy: Directive, b: int, m: int)
    requires 0 <= proxy.start <= |text| && BeginsAt(text, proxy.start, b) && MarginTo(text, b, m, proxy.start)
    ensures var x := "proxy_set_header" + " " + "X-Real-IP" + " " + "$remote_addr" + ";";
      var y := "proxy_set_header" + " " + "X-Forwarded-For" + " " + "$remote_addr" + ";";
      var before, inner := text[b..proxy.start], text[b..m] + "    ";
      HeaderInsertion(text, proxy) ==
        Insertion(proxy.start,
                  if OnlySpace(text, b, proxy.start) then x + "\n" + before + y + "\n" + before
                  else "\n" + inner + x + "\n" + inner + y + "\n" + inner)
  {
    hide LineStart, Mid, Blank, OnlySpace, Margin;
    LineStartIs(text, proxy.start, b);
    BlankIs(text, b, proxy.start);
    MarginIs(text[b..proxy.start], m - b);
    assert text[b..proxy.start][..m - b] == text[b..m];
    PhraseOfThree("proxy_set_header", "X-Real-IP", "$remote_addr");
    PhraseOfThree("proxy_set_header", "X-Forwarded-For", "$remote_addr");
  }
}
