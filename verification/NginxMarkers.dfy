module NginxMarkers {

  // Deployment-owned maintenance markers: the line scan that removes complete blocks, and where marker text can occur.

  import opened PythonText
  import opened NginxText

  const MAINTENANCE_BEGIN := "# ASTRA_DEPLOY_MAINTENANCE_BEGIN"
  const MAINTENANCE_END := "# ASTRA_DEPLOY_MAINTENANCE_END"

  /** The scan's result from one line on: the kept text, and the number of blocks found in all. */
  function Scan(lines: seq<string>, inside: bool, found: nat): Result<(string, nat)> {
    if lines == [] then (if inside then Err(UnterminatedMaintenance) else Ok(("", found)))
    else
      var marker := Strip(lines[0]);
      if marker == MAINTENANCE_BEGIN then
        if inside then Err(NestedMarkers) else Scan(lines[1..], true, found + 1)
      else if marker == MAINTENANCE_END then
        if !inside then Err(UnmatchedEndMarker) else Scan(lines[1..], false, found)
      else
        var r :- Scan(lines[1..], inside, found);
        Ok((if inside then r.0 else lines[0] + r.0, r.1))
  }

  /** `_remove_maintenance_blocks`. */
  function RemoveMaintenance(text: string): Result<string> {
    var r :- Scan(Lines(text), false, 0);
    if r.1 != Count(MAINTENANCE_END, text) then Err(MismatchedMarkers) else Ok(r.0)
  }

  method RemoveMaintenanceBlocks(text: string) returns (r: Result<string>)
    ensures r == RemoveMaintenance(text)
  {
    hide Strip;
    var lines := Lines(text);
    var output := "";
    var inside := false;
    var found := 0;
    var i := 0;
    assert lines[0..] == lines;
    ghost var whole := Scan(lines, false, 0);
    assert whole.Ok? ==> "" + whole.value.0 == whole.value.0;
    while i < |lines|
      invariant i <= |lines|
      invariant var rest := Scan(lines[i..], inside, found);
        whole == if rest.Ok? then Ok((output + rest.value.0, rest.value.1)) else Err(rest.error)
    {
      var marker := Strip(lines[i]);
      assert lines[i..][0] == lines[i] && lines[i..][1..] == lines[i + 1..];
      ghost var rest := Scan(lines[i + 1..], inside, found);
      var line := lines[i];
      i := i + 1;
      if marker == MAINTENANCE_BEGIN {
        if inside {
          return Err(NestedMarkers);
        }
        inside := true;
        found := found + 1;
        continue;
      }
      if marker == MAINTENANCE_END {
        if !inside {
          return Err(UnmatchedEndMarker);
        }
        inside := false;
        continue;
      }
      if !inside {
        assert rest.Ok? ==> output + (line + rest.value.0) == output + line + rest.value.0;
        output := output + line;
      }
    }
    assert lines[i..] == [];
    if inside {
      return Err(UnterminatedMaintenance);
    }
    assert output + "" == output;
    if found != Count(MAINTENANCE_END, text) {
      return Err(MismatchedMarkers);
    }
    return Ok(output);
  }

  // ----- Occurrences and counts

  /** A text like the markers: it begins with `#` and holds no newline and no punctuation mark. */
  predicate MarkerLike(m: string) { m != "" && m[0] == '#' && forall c <- m :: !IsSeal(c) && !IsBreak(c) }

  predicate IsSeal(c: char) { c == '\n' || IsPunct(c) }

  /** Upper-case letters, underscores, spaces and hashes only. */
  predicate IsMarkerCharacter(c: char) { 'A' <= c <= 'Z' || c == '_' || c == ' ' || c == '#' }

  predicate MarkerText(m: string) { MarkerLike(m) && forall c <- m :: IsMarkerCharacter(c) }

  lemma Markers()
    ensures MarkerText(MAINTENANCE_BEGIN) && MarkerText(MAINTENANCE_END)
  {
    MarkerCharacters(MAINTENANCE_BEGIN);
    MarkerCharacters(MAINTENANCE_END);
  }

  lemma MarkerCharacters(m: string)
    requires m != "" && m[0] == '#' && forall i :: 0 <= i < |m| ==> IsMarkerCharacter(m[i])
    ensures MarkerText(m)
  {
    forall c | c in m ensures IsMarkerCharacter(c) && !IsSeal(c) && !IsBreak(c) {
      var i :| 0 <= i < |m| && m[i] == c;
      assert IsMarkerCharacter(m[i]);
    }
  }

  lemma OccursInPart(m: string, a: string, b: string, c: string)
    requires Occurs(m, b)
    ensures Occurs(m, a + b + c)
  {
    var i :| OccursAt(m, b, i);
    assert (a + b + c)[|a| + i..|a| + i + |m|] == b[i..i + |m|];
    assert OccursAt(m, a + b + c, |a| + i);
  }

  lemma OccursInPrefix(m: string, a: string, b: string)
    ensures Occurs(m, a) ==> Occurs(m, a + b)
    ensures Occurs(m, b) ==> Occurs(m, a + b)
  {
    if Occurs(m, a) {
      OccursInPart(m, "", a, b);
      assert "" + a + b == a + b;
    }
    if Occurs(m, b) {
      OccursInPart(m, a, b, "");
      assert a + b + "" == a + b;
    }
  }

  /** Every hash is followed by a newline or a punctuation mark. */
  predicate Sealed(a: string) {
    forall i :: 0 <= i < |a| && a[i] == '#' ==> exists j :: i < j < |a| && IsSeal(a[j])
  }

  lemma SealedConcat(a: string, b: string)
    requires Sealed(a) && Sealed(b)
    ensures Sealed(a + b)
  {
    forall i | 0 <= i < |a + b| && (a + b)[i] == '#'
      ensures exists j :: i < j < |a + b| && IsSeal((a + b)[j])
    {
      if i < |a| {
        var j :| i < j < |a| && IsSeal(a[j]);
        assert (a + b)[j] == a[j];
      } else {
        var j :| i - |a| < j < |b| && IsSeal(b[j]);
        assert (a + b)[|a| + j] == b[j];
      }
    }
  }

  lemma SealedByEnd(a: string)
    requires a != "" ==> IsSeal(a[|a| - 1])
    ensures Sealed(a)
  {
    forall i | 0 <= i < |a| && a[i] == '#'
      ensures exists j :: i < j < |a| && IsSeal(a[j])
    {
      assert IsSeal(a[|a| - 1]);
    }
  }

  lemma NoHashSealed(a: string)
    requires '#' !in a
    ensures Sealed(a)
  {}

  /** A marker cannot straddle a sealed boundary. */
  lemma Straddle(m: string, a: string, b: string)
    requires MarkerLike(m) && Sealed(a) && Occurs(m, a + b)
    ensures Occurs(m, a) || Occurs(m, b)
  {
    var i :| OccursAt(m, a + b, i);
    if i + |m| <= |a| {
      assert a[i..i + |m|] == (a + b)[i..i + |m|];
      assert OccursAt(m, a, i);
    } else if i >= |a| {
      assert b[i - |a|..i - |a| + |m|] == (a + b)[i..i + |m|];
      assert OccursAt(m, b, i - |a|);
    } else {
      StraddleFails(m, a, b, i);
    }
  }

  lemma StraddleFails(m: string, a: string, b: string, i: int)
    requires MarkerLike(m) && Sealed(a) && 0 <= i < |a| < i + |m| <= |a + b|
    ensures !OccursAt(m, a + b, i)
  {
    if a[i] == '#' {
      var j :| i < j < |a| && IsSeal(a[j]);
      assert (a + b)[i..i + |m|][j - i] == a[j];
      assert m[j - i] in m;
    } else {
      assert (a + b)[i..i + |m|][0] == a[i];
    }
  }

  lemma NoHashNoMarker(m: string, a: string)
    requires MarkerLike(m) && '#' !in a
    ensures !Occurs(m, a)
  {
    forall i | 0 <= i <= |a| - |m| ensures !OccursAt(m, a, i) {
      assert a[i..i + |m|][0] == a[i] && a[i] in a;
    }
  }

  lemma {:induction false} OccursCount(m: string, s: string)
    requires m != ""
    ensures Occurs(m, s) <==> Count(m, s) > 0
    decreases |s|
  {
    if |s| < |m| {
      NotInShorter(m, s);
    } else if s[..|m|] == m {
      assert s[0..0 + |m|] == m;
      assert OccursAt(m, s, 0);
    } else {
      OccursCount(m, s[1..]);
      OccursInRest(m, s);
    }
  }

  lemma NotInShorter(m: string, s: string)
    requires |s| < |m|
    ensures !Occurs(m, s)
  {}

  lemma OccursInRest(m: string, s: string)
    requires m != "" && |s| >= |m| && s[..|m|] != m
    ensures Occurs(m, s) <==> Occurs(m, s[1..])
  {
    if Occurs(m, s) {
      var i :| OccursAt(m, s, i);
      assert s[0..0 + |m|] == s[..|m|];
      assert s[1..][i - 1..i - 1 + |m|] == s[i..i + |m|];
      assert OccursAt(m, s[1..], i - 1);
    }
    if Occurs(m, s[1..]) {
      var i :| OccursAt(m, s[1..], i);
      assert s[1..][i..i + |m|] == s[i + 1..i + 1 + |m|];
      assert OccursAt(m, s, i + 1);
    }
  }

  /** Counts add up where the boundary character cannot be inside an occurrence. */
  lemma {:induction false} CountConcat(m: string, a: string, b: string)
    requires m != "" && (a == "" || a[|a| - 1] !in m)
    ensures Count(m, a + b) == Count(m, a) + Count(m, b)
    decreases |a|
  {
    var s := a + b;
    if a == "" {
      assert s == b;
    } else if |s| < |m| {
    } else if |a| < |m| {
      assert s[..|m|][|a| - 1] == a[|a| - 1];
      assert s[..|m|] != m;
      assert s[1..] == a[1..] + b;
      CountConcat(m, a[1..], b);
    } else {
      assert s[..|m|] == a[..|m|];
      if a[..|m|] == m {
        assert s[|m|..] == a[|m|..] + b;
        CountConcat(m, a[|m|..], b);
      } else {
        assert s[1..] == a[1..] + b;
        CountConcat(m, a[1..], b);
      }
    }
  }
}
