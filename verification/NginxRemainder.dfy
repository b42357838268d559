module NginxRemainder {

  // What a removal of maintenance blocks leaves behind has nothing left to remove.

  import opened PythonText
  import opened NginxText
  import opened NginxMarkers
  import opened NginxFence

  /** One line of a text, with its line break if it has one. */
  predicate Piece(l: string) { l != "" && LineLength(l) == |l| }

  predicate Pieces(lines: seq<string>) {
    lines == [] || (Piece(lines[0]) && (|lines| > 1 ==> IsBreak(lines[0][|lines[0]| - 1])) && Pieces(lines[1..]))
  }

  lemma {:induction false} FirstPiece(s: string)
    requires s != ""
    ensures LineLength(s[..LineLength(s)]) == LineLength(s)
  {
    var n := LineLength(s);
    var l := s[..n];
    if s[0] == '\r' || IsBreak(s[0]) {
    } else if n > 1 {
      FirstPiece(s[1..]);
      assert l[1..] == s[1..][..n - 1];
    }
  }

  lemma {:induction false} LinesPieces(s: string)
    ensures Pieces(Lines(s))
    decreases |s|
  {
    hide IsBreak, LineLength;
    if s != "" {
      var n := LineLength(s);
      LinesPieces(s[n..]);
      FirstPiece(s);
      assert Lines(s)[1..] == Lines(s[n..]);
      if n < |s| { LineEnds(s); }
    }
  }

  /** The lines that the scan keeps. */
  function Kept(lines: seq<string>, inside: bool): seq<string> {
    if lines == [] then []
    else if Strip(lines[0]) == MAINTENANCE_BEGIN then Kept(lines[1..], true)
    else if Strip(lines[0]) == MAINTENANCE_END then Kept(lines[1..], false)
    else (if inside then [] else [lines[0]]) + Kept(lines[1..], inside)
  }

  lemma {:induction false} ScanIsKept(lines: seq<string>, inside: bool, found: nat)
    requires Pieces(lines) && Scan(lines, inside, found).Ok?
    ensures Scan(lines, inside, found).value.0 == Join(Kept(lines, inside))
    ensures Pieces(Kept(lines, inside)) && NoMarkers(Kept(lines, inside))
    ensures |Kept(lines, inside)| <= |lines|
  {
    hide Strip, IsBreak, Piece;
    if lines != [] {
      var l, rest := lines[0], lines[1..];
      if Strip(l) == MAINTENANCE_BEGIN {
        ScanIsKept(rest, true, found + 1);
      } else if Strip(l) == MAINTENANCE_END {
        ScanIsKept(rest, false, found);
      } else {
        ScanIsKept(rest, inside, found);
        var k := Kept(rest, inside);
        if inside {
          assert [] + k == k;
        } else {
          assert ([l] + k)[0] == l && ([l] + k)[1..] == k;
        }
      }
    }
  }

  /** A line and the text behind it: a carriage return takes a newline that follows it. */
  lemma {:induction false} PieceThen(l: string, t: string)
    requires Piece(l) && IsBreak(l[|l| - 1]) && t != ""
    ensures LineLength(l + t) == |l| + if l[|l| - 1] == '\r' && t[0] == '\n' then 1 else 0
  {
    var s := l + t;
    assert s[0] == l[0];
    if l[0] == '\r' {
      if |l| == 1 { assert s[1] == t[0]; } else { assert s[1] == l[1]; }
    } else if !IsBreak(l[0]) {
      assert s[1..] == l[1..] + t;
      PieceThen(l[1..], t);
    }
  }

  lemma {:induction false} StripLeftNewline(l: string)
    ensures StripRight(StripLeft(l + "\n")) == StripRight(StripLeft(l))
  {
    if l == "" {
      assert StripLeft("\n") == StripLeft("\n"[1..]) == "";
      assert l + "\n" == "\n";
    } else if IsSpace(l[0]) {
      assert (l + "\n")[1..] == l[1..] + "\n";
      StripLeftNewline(l[1..]);
    } else {
      assert StripLeft(l + "\n") == l + "\n";
      assert (l + "\n")[..|l|] == l;
    }
  }

  lemma {:induction false} NoMarkersJoin(lines: seq<string>)
    requires Pieces(lines) && NoMarkers(lines)
    ensures NoMarkers(Lines(Join(lines)))
    decreases |lines|
  {
    hide Strip, LineLength;
    if lines != [] {
      var l, rest := lines[0], lines[1..];
      var t := Join(rest);
      if rest == [] {
        LinesOfLast(l);
      } else {
        PieceThen(l, t);
        if l[|l| - 1] == '\r' && t[0] == '\n' {
          NewlineLine(rest[0]);
          NoMarkersJoin(rest[1..]);
          MergedLine(l, Join(rest[1..]));
        } else {
          NoMarkersJoin(rest);
          assert (l + t)[..|l|] == l && (l + t)[|l|..] == t;
        }
      }
    }
  }

  lemma LinesOfLast(l: string)
    requires Piece(l) && !IsMarkerLine(l)
    ensures NoMarkers(Lines(l + ""))
  {
    hide Strip, LineLength;
    assert l + "" == l && l[..|l|] == l && l[|l|..] == "";
    assert Lines("") == [];
  }

  lemma NewlineLine(l: string)
    requires Piece(l) && l[0] == '\n'
    ensures l == "\n"
  {
    assert LineLength(l) == 1;
  }

  lemma MergedLine(l: string, more: string)
    requires l != "" && !IsMarkerLine(l) && NoMarkers(Lines(more))
    requires LineLength(l + ("\n" + more)) == |l| + 1
    ensures NoMarkers(Lines(l + ("\n" + more)))
  {
    hide LineLength, StripLeft, StripRight, Lines;
    var s := l + ("\n" + more);
    StripLeftNewline(l);
    LinesFirst(s);
    assert s[..|l| + 1] == l + "\n" && s[|l| + 1..] == more;
    assert Lines(s)[1..] == Lines(more);
  }

  /** A removal leaves no marker lines, so removing again changes nothing. */
  lemma RemovedTwice(text: string)
    requires RemoveMaintenance(text).Ok?
    ensures var kept := RemoveMaintenance(text).value;
      && NoMarkers(Lines(kept))
      && RemoveMaintenance(kept) == Ok(kept)
  {
    hide Scan, Lines, Occurs, Kept;
    var kept := RemoveMaintenance(text).value;
    LinesPieces(text);
    ScanIsKept(Lines(text), false, 0);
    NoMarkersJoin(Kept(Lines(text), false));
    RemovedHasNoEnd(text);
    NoMarkersNoBegin(Lines(kept));
    RemoveIdle(kept);
  }

  lemma {:induction false} NoMarkersNoBegin(lines: seq<string>)
    requires NoMarkers(lines)
    ensures NoBegin(lines)
  {
    hide Strip;
    if lines != [] { NoMarkersNoBegin(lines[1..]); }
  }
}
