module RuffGate {

  // The Ruff diff gate: issues above a baseline, found by a greedy loop that uses up the baseline's fingerprints.

  import opened Options

  datatype Fingerprint = Fingerprint(relative: string, code: string, message: string, source: string)

  datatype Issue = Issue(fingerprint: Fingerprint, row: int)

  // ----- Added lines

  /** One line of `git diff --unified=0`: a hunk header with the start and, unless it is one, the count of the new
      lines. */
  datatype DiffLine = Text | Hunk(start: nat, count: Option<nat>)

  /** A changed file: its line count when the base does not have it, else its diff. */
  datatype Change = Added(lines: nat) | Changed(diff: seq<DiffLine>)

  /** `range(start, start + count)`. */
  function Interval(start: nat, count: nat): (rows: set<int>)
    ensures forall row :: row in rows <==> start <= row < start + count
  {
    if count == 0 then {} else Interval(start, count - 1) + {start + count - 1}
  }

  function HunkRows(line: DiffLine): set<int> {
    match line
    case Text => {}
    case Hunk(start, count) => Interval(start, if count.Some? then count.value else 1)
  }

  /** A row is added when the file is new, or one of the diff's hunks covers it. */
  predicate IsAdded(change: Change, row: int) {
    match change
    case Added(lines) => 1 <= row <= lines
    case Changed(diff) => exists line <- diff :: row in HunkRows(line)
  }

  /** `_added_python_lines` for one file. */
  method AddedRows(change: Change) returns (rows: set<int>)
    ensures forall row :: row in rows <==> IsAdded(change, row)
  {
    match change {
      case Added(lines) => rows := Interval(1, lines);
      case Changed(diff) =>
        rows := {};
        var i := 0;
        while i < |diff|
          invariant i <= |diff|
          invariant forall row :: row in rows <==> exists line <- diff[..i] :: row in HunkRows(line)
        {
          assert diff[..i + 1] == diff[..i] + [diff[i]];
          if diff[i].Hunk? {
            rows := rows + HunkRows(diff[i]);
          }
          i := i + 1;
        }
        assert diff[..i] == diff;
    }
  }

  /** `_added_python_lines`. */
  method AddedPythonLines(changes: seq<(string, Change)>) returns (added: map<string, set<int>>)
    requires forall i, j :: 0 <= i < j < |changes| ==> changes[i].0 != changes[j].0
    ensures added.Keys == set c <- changes :: c.0
    ensures forall i :: 0 <= i < |changes| ==> changes[i].0 in added
    ensures forall i, row :: 0 <= i < |changes| ==> (row in added[changes[i].0] <==> IsAdded(changes[i].1, row))
  {
    hide IsAdded;
    added := map[];
    var i := 0;
    while i < |changes|
      invariant i <= |changes|
      invariant added.Keys == set c <- changes[..i] :: c.0
      invariant forall j :: 0 <= j < i ==> changes[j].0 in added
      invariant forall j, row :: 0 <= j < i ==> (row in added[changes[j].0] <==> IsAdded(changes[j].1, row))
    {
      var rows := AddedRows(changes[i].1);
      assert changes[..i + 1] == changes[..i] + [changes[i]];
      added := added[changes[i].0 := rows];
      i := i + 1;
    }
    assert changes[..i] == changes;
  }

  // ----- The matching loop

  /** The issue is on a line that the change added. */
  predicate OnAdded(issue: Issue, added: map<string, set<int>>) {
    issue.fingerprint.relative in added && issue.row in added[issue.fingerprint.relative]
  }

  /** The fingerprints of the issues off the added lines. */
  function Off(issues: seq<Issue>, added: map<string, set<int>>): multiset<Fingerprint> {
    if issues == [] then multiset{}
    else (if OnAdded(issues[0], added) then multiset{} else multiset{issues[0].fingerprint}) + Off(issues[1..], added)
  }

  function CountOn(issues: seq<Issue>, added: map<string, set<int>>): nat {
    if issues == [] then 0 else (if OnAdded(issues[0], added) then 1 else 0) + CountOn(issues[1..], added)
  }

  /** An issue is new when it is on an added line, or when the issues before it off the added lines use up all of the
      baseline's occurrences of its fingerprint. */
  predicate IsNew(issues: seq<Issue>, baseline: multiset<Fingerprint>, added: map<string, set<int>>, i: nat)
    requires i < |issues|
  {
    OnAdded(issues[i], added) || Off(issues[..i], added)[issues[i].fingerprint] >= baseline[issues[i].fingerprint]
  }

  /** The new ones among the first `n` issues. */
  function NewIndexes(issues: seq<Issue>, baseline: multiset<Fingerprint>, added: map<string, set<int>>,
                      n: nat): seq<nat>
    requires n <= |issues|
  {
    if n == 0 then []
    else
      var last: nat := n - 1;
      var before: seq<nat> := NewIndexes(issues, baseline, added, last);
      if IsNew(issues, baseline, added, last) then before + [last] else before
  }

  lemma {:induction false} OffConcat(a: seq<Issue>, b: seq<Issue>, added: map<string, set<int>>)
    ensures Off(a + b, added) == Off(a, added) + Off(b, added)
    ensures CountOn(a + b, added) == CountOn(a, added) + CountOn(b, added)
  {
    hide OnAdded;
    if a == [] {
      assert a + b == b;
    } else {
      assert (a + b)[1..] == a[1..] + b;
      OffConcat(a[1..], b, added);
    }
  }

  lemma OffNext(issues: seq<Issue>, i: nat, added: map<string, set<int>>)
    requires i < |issues|
    ensures Off(issues[..i + 1], added)
         == Off(issues[..i], added) + if OnAdded(issues[i], added) then multiset{} else multiset{issues[i].fingerprint}
    ensures CountOn(issues[..i + 1], added) == CountOn(issues[..i], added) + if OnAdded(issues[i], added) then 1 else 0
  {
    hide OnAdded;
    assert issues[..i + 1] == issues[..i] + [issues[i]];
    OffConcat(issues[..i], [issues[i]], added);
    assert [issues[i]][1..] == [];
  }

  lemma CounterStep(baseline: multiset<Fingerprint>, off: multiset<Fingerprint>, f: Fingerprint)
    ensures var counter := baseline - off;
      && (counter[f] > 0 <==> off[f] < baseline[f])
      && (counter[f] > 0 ==> counter[f := counter[f] - 1] == baseline - (off + multiset{f}))
      && (counter[f] == 0 ==> counter == baseline - (off + multiset{f}))
  {}

  /** What one round of the loop does to the counter and to the list of new issues. */
  lemma RoundGives(issues: seq<Issue>, baseline: multiset<Fingerprint>, added: map<string, set<int>>, i: nat)
    requires i < |issues|
    ensures var counter, next := baseline - Off(issues[..i], added), baseline - Off(issues[..i + 1], added);
      var f, before := issues[i].fingerprint, NewIndexes(issues, baseline, added, i);
      && (OnAdded(issues[i], added) || counter[f] == 0 ==>
            NewIndexes(issues, baseline, added, i + 1) == before + [i] && next == counter)
      && (!OnAdded(issues[i], added) && counter[f] > 0 ==>
            NewIndexes(issues, baseline, added, i + 1) == before && next == counter[f := counter[f] - 1])
  {
    hide OnAdded, Off;
    OffNext(issues, i, added);
    var off := Off(issues[..i], added);
    CounterStep(baseline, off, issues[i].fingerprint);
    assert off + multiset{} == off;
  }

  /** The loop of `main`: an issue off the added lines uses up one occurrence of its fingerprint in the baseline, if
      there is one. */
  method FindNewIssues(issues: seq<Issue>, baseline: seq<Fingerprint>, added: map<string, set<int>>) returns (indexes: seq<nat>)
    ensures indexes == NewIndexes(issues, multiset(baseline), added, |issues|)
  {
    hide OnAdded, Off, IsNew, NewIndexes;
    ghost var base := multiset(baseline);
    var counter := multiset(baseline);
    indexes := [];
    var index := 0;
    NothingYet(issues, base, added);
    while index < |issues|
      invariant index <= |issues|
      invariant counter == base - Off(issues[..index], added)
      invariant indexes == NewIndexes(issues, base, added, index)
    {
      var fingerprint := issues[index].fingerprint;
      RoundGives(issues, base, added, index);
      if OnAdded(issues[index], added) {
        indexes := indexes + [index];
      } else if counter[fingerprint] > 0 {
        counter := counter[fingerprint := counter[fingerprint] - 1];
      } else {
        indexes := indexes + [index];
      }
      index := index + 1;
    }
  }

  lemma NothingYet(issues: seq<Issue>, baseline: multiset<Fingerprint>, added: map<string, set<int>>)
    ensures baseline == baseline - Off(issues[..0], added) && NewIndexes(issues, baseline, added, 0) == []
  {
    OffNothing(added);
    assert issues[..0] == [];
  }

  lemma OffNothing(added: map<string, set<int>>)
    ensures Off([], added) == multiset{} && CountOn([], added) == 0
  {}

  // ----- The counting law

  lemma ExcessNext(off: multiset<Fingerprint>, baseline: multiset<Fingerprint>, f: Fingerprint)
    ensures |off + multiset{f} - baseline| == |off - baseline| + if off[f] >= baseline[f] then 1 else 0
  {
    if off[f] >= baseline[f] {
      assert off + multiset{f} - baseline == (off - baseline) + multiset{f};
    } else {
      assert off + multiset{f} - baseline == off - baseline;
    }
  }

  lemma {:induction false} CountUpto(issues: seq<Issue>, baseline: multiset<Fingerprint>, added: map<string, set<int>>,
                                     n: nat)
    requires n <= |issues|
    ensures |NewIndexes(issues, baseline, added, n)| == CountOn(issues[..n], added) + |Off(issues[..n], added) - baseline|
  {
    hide OnAdded, Off, CountOn;
    if n == 0 {
      OffNothing(added);
      assert multiset{} - baseline == multiset{};
    } else {
      var i := n - 1;
      CountUpto(issues, baseline, added, i);
      OffNext(issues, i, added);
      ExcessNext(Off(issues[..i], added), baseline, issues[i].fingerprint);
      assert Off(issues[..i], added) + multiset{} == Off(issues[..i], added);
    }
  }

  /** The number of reported issues is the number of issues on added lines plus, over all fingerprints, what the issues
      off the added lines have beyond the baseline. */
  lemma CountingLaw(issues: seq<Issue>, baseline: multiset<Fingerprint>, added: map<string, set<int>>)
    ensures |NewIndexes(issues, baseline, added, |issues|)| == CountOn(issues, added) + |Off(issues, added) - baseline|
    ensures forall f :: (Off(issues, added) - baseline)[f]
                     == if Off(issues, added)[f] <= baseline[f] then 0 else Off(issues, added)[f] - baseline[f]
  {
    assert issues[..|issues|] == issues;
    CountUpto(issues, baseline, added, |issues|);
  }

  lemma TakeOut(b: seq<Issue>, j: nat)
    requires j < |b|
    ensures multiset(b[..j] + b[j + 1..]) == multiset(b) - multiset{b[j]}
  {
    assert b == b[..j] + ([b[j]] + b[j + 1..]);
  }

  lemma OffTakeOut(b: seq<Issue>, j: nat, added: map<string, set<int>>)
    requires j < |b|
    ensures var x, rest := [b[j]], b[..j] + b[j + 1..];
      Off(b, added) == Off(x, added) + Off(rest, added) && CountOn(b, added) == CountOn(x, added) + CountOn(rest, added)
  {
    hide OnAdded, Off, CountOn;
    var x := [b[j]];
    OffConcat(b[..j], x + b[j + 1..], added);
    OffConcat(x, b[j + 1..], added);
    OffConcat(b[..j], b[j + 1..], added);
    assert b == b[..j] + (x + b[j + 1..]);
    Exchange(Off(b[..j], added), Off(x, added), Off(b[j + 1..], added));
  }

  lemma {:induction false} SameIssues(a: seq<Issue>, b: seq<Issue>, added: map<string, set<int>>)
    requires multiset(a) == multiset(b)
    ensures Off(a, added) == Off(b, added) && CountOn(a, added) == CountOn(b, added)
    decreases |a|
  {
    hide OnAdded, Off, CountOn;
    if a == [] {
      assert |b| == |multiset(b)| == 0;
    } else {
      assert a[0] in multiset(a);
      var j :| 0 <= j < |b| && b[j] == a[0];
      TakeOut(a, 0);
      TakeOut(b, j);
      SameIssues(a[..0] + a[0 + 1..], b[..j] + b[j + 1..], added);
      OffTakeOut(a, 0, added);
      OffTakeOut(b, j, added);
    }
  }

  lemma Exchange(p: multiset<Fingerprint>, x: multiset<Fingerprint>, q: multiset<Fingerprint>)
    ensures p + (x + q) == x + (p + q)
  {}

  /** The number of reported issues does not depend on the order in which Ruff reports them. */
  lemma OrderDoesNotMatter(a: seq<Issue>, b: seq<Issue>, baseline: multiset<Fingerprint>, added: map<string, set<int>>)
    requires multiset(a) == multiset(b)
    ensures |NewIndexes(a, baseline, added, |a|)| == |NewIndexes(b, baseline, added, |b|)|
  {
    CountingLaw(a, baseline, added);
    CountingLaw(b, baseline, added);
    SameIssues(a, b, added);
  }

  function Fingerprints(issues: seq<Issue>): multiset<Fingerprint> {
    if issues == [] then multiset{} else multiset{issues[0].fingerprint} + Fingerprints(issues[1..])
  }

  lemma {:induction false} NoneOn(issues: seq<Issue>, added: map<string, set<int>>)
    ensures CountOn(issues, added) == 0 <==> forall issue <- issues :: !OnAdded(issue, added)
    ensures CountOn(issues, added) == 0 ==> Off(issues, added) == Fingerprints(issues)
  {
    if issues != [] {
      NoneOn(issues[1..], added);
      assert issues == [issues[0]] + issues[1..];
      assert issues[0] in issues;
      assert forall issue <- issues[1..] :: issue in issues;
    }
  }

  /** The gate passes exactly when no issue is on an added line and the current fingerprints are contained, with their
      multiplicities, in the baseline's. */
  lemma GatePasses(issues: seq<Issue>, baseline: multiset<Fingerprint>, added: map<string, set<int>>)
    ensures NewIndexes(issues, baseline, added, |issues|) == [] <==>
      (forall issue <- issues :: !OnAdded(issue, added)) && Fingerprints(issues) <= baseline
  {
    CountingLaw(issues, baseline, added);
    NoneOn(issues, added);
    var off := Off(issues, added);
    NothingBeyond(off, baseline);
  }

  lemma ExcessOf(off: multiset<Fingerprint>, baseline: multiset<Fingerprint>, g: Fingerprint, f: Fingerprint)
    ensures (off + multiset{g} - baseline)[f] == (off - baseline)[f] + if f == g && off[g] >= baseline[g] then 1 else 0
  {}

  lemma NothingBeyond(off: multiset<Fingerprint>, baseline: multiset<Fingerprint>)
    ensures |off - baseline| == 0 <==> off <= baseline
  {
    if |off - baseline| == 0 {
      assert off - baseline == multiset{};
      forall f ensures off[f] <= baseline[f] {
        assert (off - baseline)[f] == 0;
      }
    }
    if off <= baseline { assert off - baseline == multiset{}; }
  }

  /** Every issue on an added line is reported, so a violation moved onto one cannot hide behind the baseline. */
  lemma {:induction false} AddedAreReported(issues: seq<Issue>, baseline: multiset<Fingerprint>, added: map<string,
                                            set<int>>, n: nat)
    requires n <= |issues|
    ensures forall i :: 0 <= i < n && OnAdded(issues[i], added) ==> i in NewIndexes(issues, baseline, added, n)
    ensures forall i <- NewIndexes(issues, baseline, added, n) :: i < n
  {
    hide OnAdded, Off;
    if n > 0 { AddedAreReported(issues, baseline, added, n - 1); }
  }

  lemma CountNext(issues: seq<Issue>, baseline: multiset<Fingerprint>, added: map<string, set<int>>, i: nat,
                  f: Fingerprint)
    requires i < |issues|
    ensures var off, g := Off(issues[..i], added), issues[i].fingerprint;
      CountReported(issues, NewIndexes(issues, baseline, added, i + 1), added, f)
        == CountReported(issues, NewIndexes(issues, baseline, added, i), added, f)
           + if !OnAdded(issues[i], added) && f == g && off[g] >= baseline[g] then 1 else 0
  {
    hide OnAdded, Off, CountReported;
    if IsNew(issues, baseline, added, i) { CountSnoc(issues, NewIndexes(issues, baseline, added, i), i, added, f); }
  }

  /** Off the added lines, a fingerprint is reported as often as the issues have it beyond the baseline. */
  lemma {:induction false} ReportedFingerprints(issues: seq<Issue>, baseline: multiset<Fingerprint>,
                                                added: map<string, set<int>>, n: nat,
                                                f: Fingerprint)
    requires n <= |issues|
    ensures CountReported(issues, NewIndexes(issues, baseline, added, n), added, f)
         == (Off(issues[..n], added) - baseline)[f]
  {
    hide OnAdded, Off, NewIndexes;
    if n == 0 {
      NothingYet(issues, baseline, added);
      OffNothing(added);
      assert issues[..0] == [];
    } else {
      var i := n - 1;
      ReportedFingerprints(issues, baseline, added, i, f);
      OffNext(issues, i, added);
      CountNext(issues, baseline, added, i, f);
      ExcessOf(Off(issues[..i], added), baseline, issues[i].fingerprint, f);
      assert Off(issues[..i], added) + multiset{} == Off(issues[..i], added);
    }
  }

  /** How many of the indexed issues are off the added lines and have the fingerprint. */
  function CountReported(issues: seq<Issue>, indexes: seq<nat>, added: map<string, set<int>>, f: Fingerprint): nat {
    if indexes == [] then 0
    else
      var i := indexes[|indexes| - 1];
      CountReported(issues, indexes[..|indexes| - 1], added, f)
      + if i < |issues| && !OnAdded(issues[i], added) && issues[i].fingerprint == f then 1 else 0
  }

  lemma CountSnoc(issues: seq<Issue>, indexes: seq<nat>, i: nat, added: map<string, set<int>>, f: Fingerprint)
    requires i < |issues|
    ensures CountReported(issues, indexes + [i], added, f)
         == CountReported(issues, indexes, added, f)
            + if !OnAdded(issues[i], added) && issues[i].fingerprint == f then 1 else 0
  {
    hide OnAdded;
    assert (indexes + [i])[..|indexes|] == indexes;
  }
}
