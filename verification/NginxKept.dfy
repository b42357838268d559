module NginxKept {

  // The removal of maintenance blocks in literal words: what a line is, what a marker line is, which lines stay.

  import opened PythonText
  import opened NginxText
  import opened NginxMarkers
  import opened NginxFence

  // ----- Lines

  /** The characters that end a line, one at a time. */
  const BREAKS := "\n\U{0B}\U{0C}\r\U{1C}\U{1D}\U{1E}\U{85}\U{2028}\U{2029}"

  lemma BreaksAre(c: char)
    ensures IsBreak(c) <==> c in BREAKS
  {
    var n := c as int;
    var codes := [10, 11, 12, 13, 28, 29, 30, 0x85, 0x2028, 0x2029];
    assert |BREAKS| == |codes|;
    assert forall i :: 0 <= i < |codes| ==> BREAKS[i] as int == codes[i];
    if IsBreak(c) {
      assert n in codes;
      var i :| 0 <= i < |codes| && codes[i] == n;
      assert BREAKS[i] == c;
    }
  }

  /** The line ends at its first break; a carriage return takes a newline behind it along. */
  predicate LineAt(lines: seq<string>, k: nat)
    requires k < |lines|
  {
    var line := lines[k];
    var n := |line| - 1;
    && line != ""
    && (k + 1 < |lines| ==> line[n] in BREAKS)
    && (line[n] == '\r' && k + 1 < |lines| && lines[k + 1] != "" ==> lines[k + 1][0] != '\n')
    && forall i :: 0 <= i < n && line[i] in BREAKS ==> i == n - 1 && line[i] == '\r' && line[n] == '\n'
  }

  lemma {:induction false} FirstBreak(s: string)
    requires s != ""
    ensures var n := LineLength(s) - 1;
      && (n + 1 < |s| ==> s[n] in BREAKS)
      && (s[n] == '\r' && n + 1 < |s| ==> s[n + 1] != '\n')
      && forall i :: 0 <= i < n && s[i] in BREAKS ==> i == n - 1 && s[i] == '\r' && s[n] == '\n'
  {
    hide IsBreak;
    BreaksAre(s[0]);
    CarriageBreaks();
    if s[0] != '\r' && s[0] !in BREAKS && |s| > 1 {
      FirstBreak(s[1..]);
      assert forall i :: 0 < i < |s| ==> s[i] == s[1..][i - 1];
    }
  }

  lemma CarriageBreaks()
    ensures '\r' in BREAKS && '\n' in BREAKS
  {
    BreaksAre('\r');
    BreaksAre('\n');
  }

  /** The lines of a text are its pieces, each up to its first break. */
  lemma {:induction false} LinesAre(s: string)
    ensures Join(Lines(s)) == s
    ensures forall k: nat :: k < |Lines(s)| ==> LineAt(Lines(s), k)
    decreases |s|
  {
    hide LineLength;
    JoinLines(s);
    if s != "" {
      var n, lines := LineLength(s), Lines(s);
      LinesAre(s[n..]);
      FirstBreak(s);
      assert lines[1..] == Lines(s[n..]) && lines[0] == s[..n];
      forall k: nat | k < |lines| ensures LineAt(lines, k) {
        if k == 0 {
          FirstLineAt(s);
        } else {
          assert LineAt(lines[1..], k - 1);
        }
      }
    }
  }

  lemma NextLineStarts(s: string)
    ensures |Lines(s)| > 0 <==> s != ""
    ensures s != "" ==> Lines(s)[0] != "" && Lines(s)[0][0] == s[0]
  {}

  lemma FirstLineAt(s: string)
    requires s != ""
    ensures LineAt(Lines(s), 0)
  {
    hide LineLength;
    var n, lines := LineLength(s), Lines(s);
    FirstBreak(s);
    NextLineStarts(s[n..]);
    assert lines[1..] == Lines(s[n..]) && lines[0] == s[..n];
    if n < |s| { assert s[n..][0] == s[n] && lines[1] == lines[1..][0]; }
  }

  // ----- Marker lines

  /** The marker with blank text before `i` and behind it. */
  predicate MarkerAt(line: string, m: string, i: int) {
    0 <= i <= |line| - |m| && line[i..i + |m|] == m && Blank(line[..i]) && Blank(line[i + |m|..])
  }

  /** The marker with nothing but whitespace around it. */
  ghost predicate IsMarkerOf(line: string, m: string) {
    exists i :: MarkerAt(line, m, i)
  }

  lemma {:induction false} BlankLeft(a: string, s: string)
    requires Blank(a)
    ensures StripLeft(a + s) == StripLeft(s)
  {
    hide IsSpace;
    if a == "" {
      assert a + s == s;
    } else {
      assert (a + s)[1..] == a[1..] + s;
      assert a[0] in a && forall c :: c in a[1..] ==> c in a;
      BlankLeft(a[1..], s);
    }
  }

  lemma {:induction false} BlankRight(s: string, b: string)
    requires Blank(b)
    ensures StripRight(s + b) == StripRight(s)
  {
    hide IsSpace;
    if b == "" {
      assert s + b == s;
    } else {
      var n := |b| - 1;
      assert (s + b)[..|s + b| - 1] == s + b[..n];
      assert b[n] in b && forall c :: c in b[..n] ==> c in b;
      BlankRight(s, b[..n]);
    }
  }

  lemma {:induction false} StrippedLeft(s: string)
    ensures |StripLeft(s)| <= |s| && s[|s| - |StripLeft(s)|..] == StripLeft(s) && Blank(s[..|s| - |StripLeft(s)|])
  {
    hide IsSpace;
    if s != "" && IsSpace(s[0]) {
      StrippedLeft(s[1..]);
      var n := |s| - |StripLeft(s)|;
      assert s[..n] == [s[0]] + s[1..][..n - 1];
      assert s[n..] == s[1..][n - 1..];
    } else {
      assert s[..0] == "";
    }
  }

  lemma {:induction false} StrippedRight(s: string)
    ensures StripRight(s) <= s && Blank(s[|StripRight(s)|..])
  {
    hide IsSpace;
    if s != "" && IsSpace(s[|s| - 1]) {
      var u := s[..|s| - 1];
      StrippedRight(u);
      assert s[|StripRight(s)|..] == u[|StripRight(s)|..] + [s[|s| - 1]];
    } else {
      assert s[|s|..] == "";
    }
  }

  lemma StripLeaves(line: string)
    ensures IsMarkerOf(line, Strip(line))
  {
    hide IsSpace, StripLeft, StripRight;
    var l, m := StripLeft(line), Strip(line);
    StrippedLeft(line);
    StrippedRight(l);
    var i := |line| - |l|;
    assert line[i..] == l;
    assert line[i..i + |m|] == l[..|m|] && line[i + |m|..] == l[|m|..];
    assert MarkerAt(line, m, i);
  }

  lemma StripFinds(a: string, m: string, b: string)
    requires Blank(a) && Blank(b) && m != "" && !IsSpace(m[0]) && !IsSpace(m[|m| - 1])
    ensures Strip(a + (m + b)) == m
  {
    hide IsSpace, StripLeft, StripRight;
    BlankLeft(a, m + b);
    StripLeftEnds(m + b);
    BlankRight(m, b);
    StripRightEnds(m);
  }

  lemma ThreeParts(line: string, i: int, n: int)
    requires 0 <= i && 0 <= n && i + n <= |line|
    ensures line == line[..i] + (line[i..i + n] + line[i + n..])
  {}

  lemma StripsTo(line: string, m: string, i: int)
    requires m != "" && !IsSpace(m[0]) && !IsSpace(m[|m| - 1]) && MarkerAt(line, m, i)
    ensures Strip(line) == m
  {
    hide IsSpace, Strip, Blank;
    StripFinds(line[..i], m, line[i + |m|..]);
    ThreeParts(line, i, |m|);
  }

  /** A line strips to a text that itself neither starts nor ends with whitespace. */
  lemma StripMeans(line: string, m: string)
    requires m != "" && !IsSpace(m[0]) && !IsSpace(m[|m| - 1])
    ensures Strip(line) == m <==> IsMarkerOf(line, m)
  {
    hide IsSpace, Strip, MarkerAt;
    StripLeaves(line);
    if i :| MarkerAt(line, m, i) { StripsTo(line, m, i); }
  }

  // ----- Blocks

  ghost predicate BeginsBlock(line: string) { IsMarkerOf(line, "# ASTRA_DEPLOY_MAINTENANCE_BEGIN") }

  ghost predicate EndsBlock(line: string) { IsMarkerOf(line, "# ASTRA_DEPLOY_MAINTENANCE_END") }

  lemma MarkerLinesAre(line: string)
    ensures BeginsBlock(line) <==> Strip(line) == MAINTENANCE_BEGIN
    ensures EndsBlock(line) <==> Strip(line) == MAINTENANCE_END
  {
    hide Strip;
    StripMeans(line, MAINTENANCE_BEGIN);
    StripMeans(line, MAINTENANCE_END);
  }

  /** The begin markers among the first `k` lines. */
  ghost function Begins(lines: seq<string>, k: nat): nat
    requires k <= |lines|
  {
    if k == 0 then 0 else Begins(lines, k - 1) + if BeginsBlock(lines[k - 1]) then 1 else 0
  }

  ghost function Ends(lines: seq<string>, k: nat): nat
    requires k <= |lines|
  {
    if k == 0 then 0 else Ends(lines, k - 1) + if EndsBlock(lines[k - 1]) then 1 else 0
  }

  /** The markers so far: no block ends that did not begin, and at most one is open. */
  ghost predicate PairedUpto(lines: seq<string>, k: nat)
    requires k <= |lines|
  {
    forall j: nat :: j <= k ==> Ends(lines, j) <= Begins(lines, j) <= Ends(lines, j) + 1
  }

  /** Begin and end markers alternate, and every block is closed. */
  ghost predicate Paired(lines: seq<string>) {
    PairedUpto(lines, |lines|) && Begins(lines, |lines|) == Ends(lines, |lines|)
  }

  /** The lines among the first `k` that stand in no block and are no markers. */
  ghost function Outside(lines: seq<string>, k: nat): string
    requires k <= |lines|
  {
    if k == 0 then ""
    else
      var line, last: nat := lines[k - 1], k - 1;
      Outside(lines, last)
      + if BeginsBlock(line) || EndsBlock(line) || Begins(lines, last) != Ends(lines, last) then "" else line
  }

  /** One line of the scan. */
  lemma ScanLine(lines: seq<string>, k: nat)
    requires k < |lines| && PairedUpto(lines, k)
    ensures var b, e := Begins(lines, k), Ends(lines, k);
      Scan(lines[k..], b > e, b) ==
        if BeginsBlock(lines[k]) && b > e then Err(NestedMarkers)
        else if EndsBlock(lines[k]) && b == e then Err(UnmatchedEndMarker)
        else
          var r := Scan(lines[k + 1..], Begins(lines, k + 1) > Ends(lines, k + 1), Begins(lines, k + 1));
          if r.Err? then r
          else
            Ok(((if BeginsBlock(lines[k]) || EndsBlock(lines[k]) || b > e then "" else lines[k]) + r.value.0, r.value.1))
    ensures PairedUpto(lines, k + 1) <==>
      !(BeginsBlock(lines[k]) && Begins(lines, k) > Ends(lines, k))
      && !(EndsBlock(lines[k]) && Begins(lines, k) == Ends(lines, k))
  {
    hide BeginsBlock, EndsBlock, Strip;
    MarkerLinesAre(lines[k]);
    MarkersDiffer();
    assert lines[k..][1..] == lines[k + 1..];
    if Scan(lines[k + 1..], Begins(lines, k + 1) > Ends(lines, k + 1), Begins(lines, k + 1)).Ok? {
      var kept := Scan(lines[k + 1..], Begins(lines, k + 1) > Ends(lines, k + 1), Begins(lines, k + 1)).value.0;
      assert "" + kept == kept;
    }
  }

  /** The scan from line `k` on, when the lines before it are paired. */
  lemma {:induction false} ScanFrom(lines: seq<string>, k: nat)
    requires k <= |lines| && PairedUpto(lines, k)
    ensures var r := Scan(lines[k..], Begins(lines, k) > Ends(lines, k), Begins(lines, k));
      && (r.Ok? <==> Paired(lines))
      && (r.Ok? ==> Outside(lines, k) + r.value.0 == Outside(lines, |lines|) && r.value.1 == Begins(lines, |lines|))
    decreases |lines| - k
  {
    hide BeginsBlock, EndsBlock, Scan;
    if k < |lines| {
      ScanLine(lines, k);
      if PairedUpto(lines, k + 1) {
        ScanFrom(lines, k + 1);
      }
    } else {
      ScanNothing(lines);
    }
  }

  lemma ScanNothing(lines: seq<string>)
    ensures lines[|lines|..] == []
    ensures forall inside: bool, n: nat :: Scan([], inside, n) == if inside then Err(UnterminatedMaintenance) else Ok(("", n))
  {}

  /** The removal succeeds exactly when the marker lines of the text pair up and its end markers stand in no other place;
      it then keeps exactly the lines outside the blocks. */
  lemma RemovalMeans(text: string)
    ensures var r, lines := RemoveMaintenance(text), Lines(text);
      && (r.Ok? <==> Paired(lines) && Count("# ASTRA_DEPLOY_MAINTENANCE_END", text) == Ends(lines, |lines|))
      && (r.Ok? ==> r.value == Outside(lines, |lines|))
  {
    hide Scan, Count, BeginsBlock, EndsBlock;
    var lines := Lines(text);
    assert lines[0..] == lines;
    ScanFrom(lines, 0);
  }

  // ----- Counting markers

  /** The places at which the text holds `m`. */
  function Places(m: string, s: string): nat {
    if s == "" then 0 else (if |m| <= |s| && s[..|m|] == m then 1 else 0) + Places(m, s[1..])
  }

  /** Inside an occurrence of `m` no other begins. */
  lemma {:induction false} NoneInside(m: string, s: string, j: nat)
    requires m != "" && m[0] !in m[1..] && |m| <= |s| && s[..|m|] == m && 1 <= j <= |m|
    ensures Places(m, s[j..]) == Places(m, s[|m|..])
    decreases |m| - j
  {
    if j < |m| {
      NoneInside(m, s, j + 1);
      assert s[j] == s[..|m|][j] == m[1..][j - 1];
      assert s[j..][1..] == s[j + 1..] && s[j..][0] == s[j];
      assert |m| <= |s[j..]| ==> s[j..][..|m|][0] == s[j];
    }
  }

  /** Counting from the left without overlaps finds every place, for a text whose first character does not recur in it. */
  lemma {:induction false} CountsPlaces(m: string, s: string)
    requires m != "" && m[0] !in m[1..]
    ensures Count(m, s) == Places(m, s)
    decreases |s|
  {
    if |s| < |m| {
      NoPlaces(m, s);
    } else if s[..|m|] == m {
      CountsPlaces(m, s[|m|..]);
      NoneInside(m, s, 1);
    } else {
      CountsPlaces(m, s[1..]);
    }
  }

  lemma {:induction false} NoPlaces(m: string, s: string)
    requires |s| < |m|
    ensures Places(m, s) == 0
  {
    if s != "" { NoPlaces(m, s[1..]); }
  }

  lemma {:induction false} HashOnce(m: string, k: nat)
    requires 0 < k <= |m| && m[0] == '#' && forall i :: 0 < i < k ==> m[i] != '#'
    ensures '#' !in m[1..k]
  {}

  /** The marker counts of the status check and of the removal are the numbers of their places. */
  lemma MarkersCounted(text: string)
    ensures Count("# ASTRA_DEPLOY_MAINTENANCE_BEGIN", text) == Places("# ASTRA_DEPLOY_MAINTENANCE_BEGIN", text)
    ensures Count("# ASTRA_DEPLOY_MAINTENANCE_END", text) == Places("# ASTRA_DEPLOY_MAINTENANCE_END", text)
  {
    var b, e := "# ASTRA_DEPLOY_MAINTENANCE_BEGIN", "# ASTRA_DEPLOY_MAINTENANCE_END";
    HashOnce(b, |b|);
    HashOnce(e, |e|);
    CountsPlaces(b, text);
    CountsPlaces(e, text);
  }
}
