module NginxFence {

  // The line scan on texts without markers, on its own results, and on texts with fences put at line starts.

  import opened PythonText
  import opened NginxText
  import opened NginxMarkers

  function Join(lines: seq<string>): string { if lines == [] then "" else lines[0] + Join(lines[1..]) }

  predicate IsMarkerLine(line: string) { Strip(line) == MAINTENANCE_BEGIN || Strip(line) == MAINTENANCE_END }

  predicate NoBegin(lines: seq<string>) {
    lines == [] || (Strip(lines[0]) != MAINTENANCE_BEGIN && NoBegin(lines[1..]))
  }

  predicate NoMarkers(lines: seq<string>) { lines == [] || (!IsMarkerLine(lines[0]) && NoMarkers(lines[1..])) }

  lemma {:induction false} JoinLines(s: string)
    ensures Join(Lines(s)) == s
    decreases |s|
  {
    if s != "" {
      var n := LineLength(s);
      JoinLines(s[n..]);
      assert Lines(s)[1..] == Lines(s[n..]);
    }
  }

  /** Each line ends with a line break, except perhaps the last. */
  predicate Broken(lines: seq<string>) {
    lines == [] || (lines[0] != "" && (|lines| > 1 ==> IsBreak(lines[0][|lines[0]| - 1])) && Broken(lines[1..]))
  }

  lemma {:induction false} LineEnds(s: string)
    requires s != "" && LineLength(s) < |s|
    ensures IsBreak(s[LineLength(s) - 1])
  {
    if !(s[0] == '\r' || IsBreak(s[0])) { LineEnds(s[1..]); }
  }

  lemma {:induction false} LinesBroken(s: string)
    ensures Broken(Lines(s))
    decreases |s|
  {
    hide IsBreak;
    if s != "" {
      var n := LineLength(s);
      LinesBroken(s[n..]);
      assert Lines(s)[1..] == Lines(s[n..]);
      if n < |s| { LineEnds(s); }
    }
  }

  // ----- Markers in lines

  lemma {:induction false} StripLeftSuffix(s: string)
    ensures |StripLeft(s)| <= |s| && s[|s| - |StripLeft(s)|..] == StripLeft(s)
  {
    if s != "" && IsSpace(s[0]) {
      StripLeftSuffix(s[1..]);
    }
  }

  lemma {:induction false} StripRightPrefix(s: string)
    ensures |StripRight(s)| <= |s| && s[..|StripRight(s)|] == StripRight(s)
  {
    if s != "" && IsSpace(s[|s| - 1]) {
      StripRightPrefix(s[..|s| - 1]);
    }
  }

  lemma StripOccurs(line: string)
    requires Strip(line) != ""
    ensures Occurs(Strip(line), line)
  {
    StripLeftSuffix(line);
    StripRightPrefix(StripLeft(line));
    var i := |line| - |StripLeft(line)|;
    assert line[i..i + |Strip(line)|] == line[i..][..|Strip(line)|];
    assert OccursAt(Strip(line), line, i);
  }

  lemma MarkersDiffer()
    ensures MAINTENANCE_BEGIN != MAINTENANCE_END && MAINTENANCE_BEGIN != "" && MAINTENANCE_END != ""
  {
    assert |MAINTENANCE_BEGIN| != |MAINTENANCE_END|;
  }

  /** A text without marker text has no marker lines. */
  lemma {:induction false} NoMarkerText(s: string)
    ensures !Occurs(MAINTENANCE_BEGIN, s) ==> NoBegin(Lines(s))
    ensures !Occurs(MAINTENANCE_BEGIN, s) && !Occurs(MAINTENANCE_END, s) ==> NoMarkers(Lines(s))
    ensures !Occurs(MAINTENANCE_END, s) && NoBegin(Lines(s)) ==> NoMarkers(Lines(s))
    decreases |s|
  {
    hide Strip, Occurs;
    if s != "" {
      var n := LineLength(s);
      var a, b := s[..n], s[n..];
      NoMarkerText(b);
      assert s == a + b;
      assert Lines(s)[0] == a && Lines(s)[1..] == Lines(b);
      OccursInPrefix(MAINTENANCE_BEGIN, a, b);
      OccursInPrefix(MAINTENANCE_END, a, b);
      MarkersDiffer();
      if Strip(a) != "" { StripOccurs(a); }
    }
  }

  /** The scan keeps a text without markers. */
  lemma {:induction false} ScanPlain(lines: seq<string>, found: nat)
    requires NoMarkers(lines)
    ensures Scan(lines, false, found) == Ok((Join(lines), found))
  {
    hide Strip;
    if lines != [] { ScanPlain(lines[1..], found); }
  }

  lemma {:induction false} ScanFinds(lines: seq<string>, inside: bool, found: nat)
    ensures var r := Scan(lines, inside, found); r.Ok? ==> r.value.1 >= found && (!NoBegin(lines) ==> r.value.1 > found)
  {
    hide Strip;
    if lines != [] {
      ScanFinds(lines[1..], inside, found);
      ScanFinds(lines[1..], true, found + 1);
      ScanFinds(lines[1..], false, found);
      MarkersDiffer();
    }
  }

  /** A text without end markers is kept whole exactly when no line of it is a begin marker; else the scan raises. */
  lemma RemoveIdle(text: string)
    requires !Occurs(MAINTENANCE_END, text)
    ensures RemoveMaintenance(text).Ok? <==> NoBegin(Lines(text))
    ensures RemoveMaintenance(text).Ok? ==> RemoveMaintenance(text).value == text
  {
    hide Scan, Lines, Occurs;
    MarkersDiffer();
    OccursCount(MAINTENANCE_END, text);
    ScanFinds(Lines(text), false, 0);
    if NoBegin(Lines(text)) {
      NoMarkerText(text);
      ScanPlain(Lines(text), 0);
      JoinLines(text);
    }
  }

  // ----- The result of a removal holds no end marker

  function Total(m: string, lines: seq<string>): nat
    requires m != ""
  {
    if lines == [] then 0 else Count(m, lines[0]) + Total(m, lines[1..])
  }

  lemma BreakNotInMarker(m: string, c: char)
    requires MarkerLike(m) && IsBreak(c)
    ensures c !in m && m != ""
  {}

  lemma {:induction false} CountLines(m: string, lines: seq<string>)
    requires MarkerLike(m) && Broken(lines)
    ensures Count(m, Join(lines)) == Total(m, lines)
  {
    assert m != "";
    hide MarkerLike, IsBreak, Count;
    if lines == [] {
      NoneInNothing(m);
    } else {
      var a, b := lines[0], lines[1..];
      CountLines(m, b);
      if b == [] {
        assert a + "" == a;
        NoneInNothing(m);
      } else {
        BreakNotInMarker(m, a[|a| - 1]);
        CountConcat(m, a, Join(b));
      }
    }
  }

  lemma NoneInNothing(m: string)
    requires m != ""
    ensures Count(m, "") == 0 && Count(m, Join([])) == 0
  {}

  /** The kept text has as many end markers as the lines beyond those that close a block. */
  lemma {:induction false} ScanCounts(lines: seq<string>, inside: bool, found: nat)
    requires Broken(lines) && Scan(lines, inside, found).Ok?
    ensures var (kept, n) := Scan(lines, inside, found).value;
      && n >= found
      && n - found + (if inside then 1 else 0) + Count(MAINTENANCE_END, kept) <= Total(MAINTENANCE_END, lines)
      && (kept != "" ==> lines != [])
  {
    hide Strip, IsBreak, Count, MarkerLike;
    Markers();
    MarkersDiffer();
    if lines == [] {
      NoneInNothing(MAINTENANCE_END);
    } else {
      var line, rest := lines[0], lines[1..];
      var marker := Strip(line);
      if marker == MAINTENANCE_BEGIN {
        ScanCounts(rest, true, found + 1);
      } else if marker == MAINTENANCE_END {
        ScanCounts(rest, false, found);
        StripOccurs(line);
        OccursCount(MAINTENANCE_END, line);
      } else {
        ScanCounts(rest, inside, found);
        if !inside {
          KeptCount(line, Scan(rest, inside, found).value.0, rest);
        }
      }
    }
  }

  lemma KeptCount(line: string, kept: string, rest: seq<string>)
    requires Broken([line] + rest) && (kept != "" ==> rest != [])
    ensures Count(MAINTENANCE_END, line + kept) == Count(MAINTENANCE_END, line) + Count(MAINTENANCE_END, kept)
  {
    hide Count, MarkerLike, IsBreak;
    Markers();
    if kept == "" {
      assert line + "" == line;
      NoneInNothing(MAINTENANCE_END);
    } else {
      BreakNotInMarker(MAINTENANCE_END, line[|line| - 1]);
      CountConcat(MAINTENANCE_END, line, kept);
    }
  }

  lemma RemovedHasNoEnd(text: string)
    requires RemoveMaintenance(text).Ok?
    ensures !Occurs(MAINTENANCE_END, RemoveMaintenance(text).value)
  {
    hide Scan, Count, Occurs, MarkerLike;
    Markers();
    MarkersDiffer();
    LinesBroken(text);
    JoinLines(text);
    CountLines(MAINTENANCE_END, Lines(text));
    ScanCounts(Lines(text), false, 0);
    OccursCount(MAINTENANCE_END, RemoveMaintenance(text).value);
  }

  // ----- Lines of concatenations

  predicate EndsLine(a: string) { a == "" || a[|a| - 1] == '\n' }

  lemma {:induction false} FirstLine(a: string, b: string)
    requires a != "" && a[|a| - 1] == '\n'
    ensures LineLength(a + b) == LineLength(a)
  {
    var s := a + b;
    assert s[0] == a[0];
    if a[0] == '\r' {
      assert s[1] == a[1];
    } else if !IsBreak(a[0]) {
      assert s[1..] == a[1..] + b;
      FirstLine(a[1..], b);
    }
  }

  lemma {:induction false} RestEndsLine(a: string)
    requires a != "" && a[|a| - 1] == '\n'
    ensures EndsLine(a[LineLength(a)..])
  {}

  lemma LinesOfNothing()
    ensures Lines("") == []
  {}

  lemma LinesFirst(s: string)
    requires s != ""
    ensures 0 < LineLength(s) <= |s| && Lines(s) == [s[..LineLength(s)]] + Lines(s[LineLength(s)..])
  {
    hide LineLength;
  }

  lemma {:induction false} LinesConcat(a: string, b: string)
    requires EndsLine(a)
    ensures Lines(a + b) == Lines(a) + Lines(b)
    decreases |a|
  {
    hide LineLength, Lines;
    if a == "" {
      assert a + b == b;
      LinesOfNothing();
    } else {
      var n := LineLength(a);
      FirstLine(a, b);
      RestEndsLine(a);
      LinesConcat(a[n..], b);
      LinesFirst(a);
      LinesFirst(a + b);
      assert (a + b)[..n] == a[..n];
      assert (a + b)[n..] == a[n..] + b;
    }
  }

  /** One line without inner breaks. */
  lemma {:induction false} OneLine(body: string)
    requires forall c <- body :: !IsBreak(c)
    ensures Lines(body + "\n") == [body + "\n"]
  {
    OneLineLength(body);
    var s := body + "\n";
    assert s[..|s|] == s && s[|s|..] == "";
    assert Lines("") == [];
  }

  lemma {:induction false} OneLineLength(body: string)
    requires forall c <- body :: !IsBreak(c)
    ensures LineLength(body + "\n") == |body| + 1
  {
    if body != "" {
      assert (body + "\n")[1..] == body[1..] + "\n";
      assert body[0] in body;
      assert forall c :: c in body[1..] ==> c in body;
      OneLineLength(body[1..]);
    }
  }

  // ----- Scanning over a fence

  lemma {:induction false} ScanOverPlain(a: seq<string>, b: seq<string>, found: nat)
    requires NoMarkers(a)
    ensures var r := Scan(b, false, found);
      Scan(a + b, false, found) == if r.Ok? then Ok((Join(a) + r.value.0, r.value.1)) else Err(r.error)
  {
    hide Strip;
    var r := Scan(b, false, found);
    if a == [] {
      assert a + b == b;
      assert r.Ok? ==> "" + r.value.0 == r.value.0;
    } else {
      assert (a + b)[1..] == a[1..] + b;
      ScanOverPlain(a[1..], b, found);
      assert r.Ok? ==> a[0] + (Join(a[1..]) + r.value.0) == Join(a) + r.value.0;
    }
  }

  lemma {:induction false} ScanInside(a: seq<string>, b: seq<string>, found: nat)
    requires NoMarkers(a)
    ensures Scan(a + b, true, found) == Scan(b, true, found)
  {
    hide Strip;
    if a == [] {
      assert a + b == b;
    } else {
      assert (a + b)[1..] == a[1..] + b;
      ScanInside(a[1..], b, found);
    }
  }

  /** A fence: a begin marker line, lines that are no markers, and an end marker line. */
  predicate IsFence(lines: seq<string>) {
    && |lines| >= 2
    && Strip(lines[0]) == MAINTENANCE_BEGIN && Strip(lines[|lines| - 1]) == MAINTENANCE_END
    && NoMarkers(lines[1..|lines| - 1])
  }

  lemma ScanOverFence(fence: seq<string>, b: seq<string>, found: nat)
    requires IsFence(fence)
    ensures Scan(fence + b, false, found) == Scan(b, false, found + 1)
  {
    hide Strip;
    var middle, last := fence[1..|fence| - 1], fence[|fence| - 1];
    MarkersDiffer();
    assert (fence + b)[1..] == middle + ([last] + b);
    ScanInside(middle, [last] + b, found + 1);
    assert ([last] + b)[1..] == b;
    assert fence + b != [];
  }

  lemma {:induction false} NoMarkersSplit(a: seq<string>, b: seq<string>)
    ensures NoMarkers(a + b) <==> NoMarkers(a) && NoMarkers(b)
  {
    if a == [] {
      assert a + b == b;
    } else {
      assert (a + b)[1..] == a[1..] + b;
      NoMarkersSplit(a[1..], b);
    }
  }
}
