module RuffMeaning {

  // The Ruff gate in literal words: which rows are added, and which issues are reported.

  import opened Options
  import opened RuffGate

  /** The row lies in a hunk: one row without a count, else as many as the count says, from the start on. */
  predicate InHunk(line: DiffLine, row: int) {
    line.Hunk? && line.start <= row && row - line.start < if line.count == None then 1 else line.count.value
  }

  lemma HunkMeans(line: DiffLine, row: int)
    ensures row in HunkRows(line) <==> InHunk(line, row)
  {}

  /** All rows of a new file, or the rows of the hunks of its diff. */
  predicate RowAdded(change: Change, row: int) {
    || (change.Added? && 0 < row && row <= change.lines)
    || (change.Changed? && exists k :: 0 <= k < |change.diff| && InHunk(change.diff[k], row))
  }

  lemma AddedMeans(change: Change, row: int)
    ensures IsAdded(change, row) <==> RowAdded(change, row)
  {
    hide HunkRows, InHunk;
    if change.Changed? {
      forall k | 0 <= k < |change.diff|
        ensures row in HunkRows(change.diff[k]) <==> InHunk(change.diff[k], row) && change.diff[k] in change.diff
      {
        HunkMeans(change.diff[k], row);
      }
    }
  }

  /** The issue stands on an added row of its file. */
  predicate OnRow(issue: Issue, added: map<string, set<int>>) {
    issue.fingerprint.relative in added && issue.row in added[issue.fingerprint.relative]
  }

  /** How many of the first `n` issues have the fingerprint and stand on no added row. */
  function Seen(issues: seq<Issue>, added: map<string, set<int>>, f: Fingerprint, n: nat): nat
    requires n <= |issues|
  {
    if n == 0 then 0
    else Seen(issues, added, f, n - 1) + if !OnRow(issues[n - 1], added) && issues[n - 1].fingerprint == f then 1 else 0
  }

  lemma {:induction false} SeenMeans(issues: seq<Issue>, added: map<string, set<int>>, f: Fingerprint, n: nat)
    requires n <= |issues|
    ensures Off(issues[..n], added)[f] == Seen(issues, added, f, n)
  {
    hide Off, OnAdded, OnRow;
    if n == 0 {
      OffNothing(added);
      assert issues[..0] == [];
    } else {
      SeenMeans(issues, added, f, n - 1);
      OffNext(issues, n - 1, added);
      SameRow(issues[n - 1], added);
    }
  }

  lemma SameRow(issue: Issue, added: map<string, set<int>>)
    ensures OnAdded(issue, added) <==> OnRow(issue, added)
  {}

  /** The issue stands on an added row, or the baseline has no occurrence of its fingerprint left for it. */
  predicate Reported(issues: seq<Issue>, baseline: seq<Fingerprint>, added: map<string, set<int>>, i: nat)
    requires i < |issues|
  {
    OnRow(issues[i], added) || Seen(issues, added, issues[i].fingerprint, i) >= multiset(baseline)[issues[i].fingerprint]
  }

  lemma {:induction false} ReportedUpto(issues: seq<Issue>, baseline: seq<Fingerprint>, added: map<string, set<int>>, n: nat)
    requires n <= |issues|
    ensures var r := NewIndexes(issues, multiset(baseline), added, n);
      && (forall i: nat :: i in r <==> i < n && Reported(issues, baseline, added, i))
      && forall a, b :: 0 <= a < b < |r| ==> r[a] < r[b]
  {
    hide Off, OnAdded, OnRow, Seen;
    if n > 0 {
      var last: nat := n - 1;
      ReportedUpto(issues, baseline, added, last);
      SeenMeans(issues, added, issues[last].fingerprint, last);
      SameRow(issues[last], added);
      var before := NewIndexes(issues, multiset(baseline), added, last);
      AddedAreReported(issues, multiset(baseline), added, last);
      assert forall a :: 0 <= a < |before| ==> before[a] in before;
    }
  }

  /** The gate reports exactly these issues, in their order. */
  lemma GateReports(issues: seq<Issue>, baseline: seq<Fingerprint>, added: map<string, set<int>>)
    ensures var r := NewIndexes(issues, multiset(baseline), added, |issues|);
      && (forall i: nat :: i in r <==> i < |issues| && Reported(issues, baseline, added, i))
      && forall a, b :: 0 <= a < b < |r| ==> r[a] < r[b]
  {
    hide NewIndexes, Reported;
    ReportedUpto(issues, baseline, added, |issues|);
  }
}
