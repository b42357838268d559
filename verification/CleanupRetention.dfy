module CleanupRetention {

  // Which managed directories a cleanup retains: protected ones, the most recent ones, and the newest of each recent
  // day.

  import opened SortedNames
  import opened CleanupNames

  // ----- Lists without some names

  function Drop(names: seq<string>, gone: set<string>): seq<string> {
    if names == [] then []
    else if names[0] in gone then Drop(names[1..], gone)
    else [names[0]] + Drop(names[1..], gone)
  }

  lemma {:induction false} DropElements(names: seq<string>, gone: set<string>)
    ensures Elements(Drop(names, gone)) == Elements(names) - gone
  {
    if names != [] {
      DropElements(names[1..], gone);
      assert names == [names[0]] + names[1..];
      var r := Drop(names[1..], gone);
      assert forall x :: x in [names[0]] + r <==> x == names[0] || x in Elements(r);
    }
  }

  lemma {:induction false} DropAscending(names: seq<string>, gone: set<string>)
    requires Ascending(names)
    ensures Ascending(Drop(names, gone))
  {
    hide Before;
    if names != [] {
      AscendingTail(names);
      DropAscending(names[1..], gone);
      DropElements(names[1..], gone);
      var r := Drop(names[1..], gone);
      forall x | x in r ensures Before(names[0], x) { assert x in Elements(r); }
      AscendingCons(names[0], r);
    }
  }

  lemma {:induction false} DropTwice(names: seq<string>, a: set<string>, b: set<string>)
    ensures Drop(Drop(names, a), b) == Drop(names, a + b)
  {
    if names != [] {
      DropTwice(names[1..], a, b);
      var r := Drop(names[1..], a);
      if names[0] !in a { assert ([names[0]] + r)[1..] == r; }
    }
  }

  lemma {:induction false} DropConcat(a: seq<string>, b: seq<string>, gone: set<string>)
    ensures Drop(a + b, gone) == Drop(a, gone) + Drop(b, gone)
  {
    if a == [] {
      assert a + b == b;
    } else {
      assert (a + b)[1..] == a[1..] + b;
      DropConcat(a[1..], b, gone);
    }
  }

  lemma {:induction false} DropNothing(names: seq<string>, gone: set<string>)
    requires forall n <- names :: n !in gone
    ensures Drop(names, gone) == names
  {
    if names != [] {
      assert names[0] in names && forall n <- names[1..] :: n in names;
      DropNothing(names[1..], gone);
      assert names == [names[0]] + names[1..];
    }
  }

  lemma {:induction false} DropAll(names: seq<string>, gone: set<string>)
    requires forall n <- names :: n in gone
    ensures Drop(names, gone) == []
  {
    if names != [] {
      assert names[0] in names && forall n <- names[1..] :: n in names;
      DropAll(names[1..], gone);
    }
  }

  lemma PrefixApart(names: seq<string>, i: nat)
    requires Ascending(names) && i <= |names|
    ensures forall n <- names[i..] :: n !in Elements(names[..i])
  {
    hide Before;
    forall n | n in names[i..] ensures n !in Elements(names[..i]) {
      var j :| 0 <= j < |names| - i && names[i..][j] == n;
      forall h | 0 <= h < i ensures names[h] != names[i + j] {
        NotBeforeSelf(names[h]);
      }
    }
  }

  lemma DropPrefix(names: seq<string>, i: nat)
    requires Ascending(names) && i <= |names|
    ensures Drop(names, Elements(names[..i])) == names[i..]
  {
    hide Ascending;
    var gone := Elements(names[..i]);
    assert names == names[..i] + names[i..];
    DropConcat(names[..i], names[i..], gone);
    DropAll(names[..i], gone);
    PrefixApart(names, i);
    DropNothing(names[i..], gone);
    assert [] + names[i..] == names[i..];
  }

  // ----- The retention rules

  /** `paths[-k:]` for a positive `k`. */
  function Recent(names: seq<string>, k: nat): seq<string> { if |names| <= k then names else names[|names| - k..] }

  /** The newest directory of its day, on one of the last `d` days. */
  predicate IsAnchor(names: seq<string>, d: nat, n: string) {
    && d > 0 && n in names
    && (forall x <- names :: Day(x) - (d - 1) <= Day(n))
    && (forall x <- names :: Day(x) == Day(n) && x != n ==> Before(x, n))
  }

  function Anchors(names: seq<string>, d: nat): set<string> { set n <- names | IsAnchor(names, d, n) }

  function Retained(names: seq<string>, protected: set<string>, k: nat, d: nat): set<string> {
    protected + Elements(Recent(names, k)) + Anchors(names, d)
  }

  /** The directories to remove, in the order of their names. */
  function Targets(names: seq<string>, protected: set<string>, k: nat, d: nat): seq<string> {
    Drop(names, Retained(names, protected, k, d))
  }

  // ----- What is retained

  lemma TargetsPartition(names: seq<string>, protected: set<string>, k: nat, d: nat)
    ensures var targets, kept := Elements(Targets(names, protected, k, d)), Retained(names, protected, k, d) * Elements(names);
      && targets + kept == Elements(names) && targets * kept == {}
      && targets !! protected && targets !! Elements(Recent(names, k)) && targets !! Anchors(names, d)
  {
    DropElements(names, Retained(names, protected, k, d));
  }

  lemma RecentIndex(names: seq<string>, k: nat, i: nat)
    requires i < |names|
    ensures i >= |names| - k ==> names[i] in Recent(names, k)
  {
    if |names| > k && i >= |names| - k { assert names[|names| - k..][i - (|names| - k)] == names[i]; }
  }

  /** Every target is older than every retained recent directory. */
  lemma TargetsAreOlder(names: seq<string>, protected: set<string>, k: nat, d: nat, target: string, recent: string)
    requires Ascending(names)
    requires target in Targets(names, protected, k, d) && recent in Recent(names, k)
    ensures Before(target, recent)
  {
    TargetsPartition(names, protected, k, d);
    assert target in Elements(Targets(names, protected, k, d));
    assert target in Elements(names) && target !in Elements(Recent(names, k));
    var i :| 0 <= i < |names| && names[i] == target;
    if |names| > k {
      var m := |names| - k;
      RecentIndex(names, k, i);
      var j :| 0 <= j < k && names[m..][j] == recent;
      assert names[m + j] == recent;
    }
  }

  function Newer(names: seq<string>, n: string): set<string> { set x <- names | Before(n, x) }

  lemma {:induction false} CountElements(names: seq<string>)
    requires Ascending(names)
    ensures |Elements(names)| == |names|
  {
    hide Before;
    if names != [] {
      AscendingTail(names);
      CountElements(names[1..]);
      TailElements(names);
      assert names[0] in Elements(names);
    }
  }

  /** A directory is recent exactly when fewer than `k` are newer. */
  lemma RecentMeans(names: seq<string>, k: nat, n: string)
    requires Ascending(names) && n in names
    ensures n in Recent(names, k) <==> |Newer(names, n)| < k
  {
    hide Before;
    var i :| 0 <= i < |names| && names[i] == n;
    var rest := names[i + 1..];
    NewerRest(names, i);
    CountElements(rest);
    if |names| > k {
      var m := |names| - k;
      if i >= m {
        assert names[m..][i - m] == n;
      } else if n in names[m..] {
        var j :| 0 <= j < k && names[m..][j] == n;
        assert Before(names[i], names[m + j]);
        NotBeforeSelf(n);
      }
    }
  }

  lemma NewerRest(names: seq<string>, i: nat)
    requires Ascending(names) && i < |names|
    ensures Newer(names, names[i]) == Elements(names[i + 1..]) && Ascending(names[i + 1..])
  {
    hide Before;
    forall x | x in Newer(names, names[i]) ensures x in Elements(names[i + 1..]) {
      var j :| 0 <= j < |names| && names[j] == x;
      BeforeTotal(names[i], names[j]);
      assert j > i ==> names[i + 1..][j - i - 1] == x;
    }
    forall x | x in Elements(names[i + 1..]) ensures x in Newer(names, names[i]) {
      var j :| 0 <= j < |names| - i - 1 && names[i + 1..][j] == x;
      assert names[i + 1 + j] == x;
    }
  }

  /** The newest directory of a non-empty list whose days satisfy a bound. */
  lemma {:induction false} NewestDay(names: seq<string>) returns (m: string)
    requires names != []
    ensures m in names && forall x <- names :: Day(x) <= Day(m)
  {
    hide Day;
    if |names| == 1 {
      m := names[0];
    } else {
      var n := NewestDay(names[1..]);
      m := if Day(names[0]) > Day(n) then names[0] else n;
      forall x | x in names ensures Day(x) <= Day(m) {
        if x != names[0] { assert x in names[1..]; }
      }
    }
  }

  lemma {:induction false} NewestOf(names: seq<string>, day: int) returns (m: string)
    requires exists x <- names :: Day(x) == day
    ensures m in names && Day(m) == day && forall x <- names :: Day(x) == day && x != m ==> Before(x, m)
  {
    hide Day, Before;
    var n0 := names[0];
    assert names == [n0] + names[1..];
    if exists x <- names[1..] :: Day(x) == day {
      var n := NewestOf(names[1..], day);
      BeforeTotal(n, n0);
      m := if Day(n0) == day && Before(n, n0) then n0 else n;
      forall x | x in names && Day(x) == day && x != m ensures Before(x, m) {
        if x != n0 {
          assert x in names[1..];
          if m != n && x != n { BeforeTransitive(x, n, n0); }
        }
      }
    } else {
      m := n0;
      assert forall x <- names :: Day(x) == day ==> x == n0;
    }
  }

  /** Each of the last `d` days on which there is a directory has exactly one anchor, its newest directory. */
  lemma OneAnchorPerDay(names: seq<string>, d: nat, n: string) returns (anchor: string)
    requires d > 0 && n in names && forall x <- names :: Day(x) - (d - 1) <= Day(n)
    ensures IsAnchor(names, d, anchor) && Day(anchor) == Day(n)
    ensures forall x :: IsAnchor(names, d, x) && Day(x) == Day(n) ==> x == anchor
  {
    hide Day, Before;
    anchor := NewestOf(names, Day(n));
    forall x | IsAnchor(names, d, x) && Day(x) == Day(n) ensures x == anchor {
      if x != anchor { BeforeTotal(x, anchor); }
    }
  }

  function Range(lo: int, d: nat): set<int> { if d == 0 then {} else Range(lo, d - 1) + {lo + d - 1} }

  lemma {:induction false} RangeSize(lo: int, d: nat)
    ensures |Range(lo, d)| == d
    ensures forall i :: i in Range(lo, d) <==> lo <= i < lo + d
  {
    if d > 0 { RangeSize(lo, d - 1); }
  }

  lemma SubsetSize(a: set<int>, b: set<int>)
    requires a <= b
    ensures |a| <= |b|
  {
    assert b == a + (b - a);
  }

  lemma {:induction false} DaysSize(s: set<string>)
    requires forall x, y :: x in s && y in s && x != y ==> Day(x) != Day(y)
    ensures |set x | x in s :: Day(x)| == |s|
    decreases |s|
  {
    hide Day;
    if s == {} {
      assert (set x | x in s :: Day(x)) == {};
    } else {
      var n :| n in s;
      var rest := s - {n};
      DaysSize(rest);
      assert (set x | x in s :: Day(x)) == (set x | x in rest :: Day(x)) + {Day(n)};
    }
  }

  /** There are at most `d` anchors. */
  lemma FewAnchors(names: seq<string>, d: nat)
    ensures |Anchors(names, d)| <= d
  {
    hide Day, Before;
    if Anchors(names, d) != {} {
      var newest := NewestDay(names);
      var lo := Day(newest) - (d - 1);
      var s := Anchors(names, d);
      forall x, y | x in s && y in s && x != y ensures Day(x) != Day(y) {
        BeforeTotal(x, y);
      }
      DaysSize(s);
      RangeSize(lo, d);
      SubsetSize(set x | x in s :: Day(x), Range(lo, d));
    }
  }

  // ----- Monotony

  /** Keeping more never adds a target. */
  lemma KeepingMore(names: seq<string>, protected: set<string>, k: nat, d: nat, k1: nat, d1: nat)
    requires k <= k1 && d <= d1
    ensures Elements(Targets(names, protected, k1, d1)) <= Elements(Targets(names, protected, k, d))
  {
    hide Day, Before;
    DropElements(names, Retained(names, protected, k, d));
    DropElements(names, Retained(names, protected, k1, d1));
    forall n | n in Recent(names, k) ensures n in Recent(names, k1) {
      if |names| > k {
        var j :| 0 <= j < k && names[|names| - k..][j] == n;
        assert names[|names| - k + j] == n;
        if |names| > k1 { assert names[|names| - k1..][k1 - k + j] == n; }
      }
    }
    forall n | n in Anchors(names, d) ensures n in Anchors(names, d1) {
      assert IsAnchor(names, d, n);
    }
  }

  // ----- Removing targets

  /** Removing directories that are not recent keeps the recent ones. */
  lemma RecentStays(names: seq<string>, k: nat, gone: set<string>)
    requires gone !! Elements(Recent(names, k))
    ensures Recent(Drop(names, gone), k) == Recent(names, k)
  {
    var recent := Recent(names, k);
    var older := names[..|names| - |recent|];
    assert names == older + recent;
    DropConcat(older, recent, gone);
    forall n | n in recent ensures n !in gone { assert n in Elements(recent); }
    DropNothing(recent, gone);
    var rest := Drop(names, gone);
    assert rest == Drop(older, gone) + recent;
    if |names| <= k {
      assert older == [];
    } else {
      assert rest[|rest| - k..] == recent;
    }
  }

  /** Removing directories that are no anchors keeps the anchors. */
  lemma AnchorsStay(names: seq<string>, d: nat, gone: set<string>)
    requires gone !! Anchors(names, d)
    ensures Anchors(Drop(names, gone), d) == Anchors(names, d)
  {
    hide Day, Before;
    var rest := Drop(names, gone);
    DropElements(names, gone);
    forall n ensures n in rest <==> n in names && n !in gone {
      assert n in rest <==> n in Elements(rest);
      assert n in names <==> n in Elements(names);
    }
    forall n | n in Anchors(names, d) ensures n in Anchors(rest, d) {
      assert IsAnchor(names, d, n);
      assert IsAnchor(rest, d, n);
    }
    forall n | n in Anchors(rest, d) ensures n in Anchors(names, d) {
      assert IsAnchor(rest, d, n);
      AnchorReturns(names, d, gone, n);
    }
  }

  lemma AnchorReturns(names: seq<string>, d: nat, gone: set<string>, n: string)
    requires gone !! Anchors(names, d) && d > 0 && n in names && n !in gone
    requires forall x <- names :: x !in gone ==> Day(x) - (d - 1) <= Day(n)
    requires forall x <- names :: x !in gone && Day(x) == Day(n) && x != n ==> Before(x, n)
    ensures IsAnchor(names, d, n)
  {
    hide Day, Before;
    var newest := NewestDay(names);
    var top := OneAnchorPerDay(names, d, newest);
    assert top in Anchors(names, d);
    forall x | x in names ensures Day(x) - (d - 1) <= Day(n) {
      assert Day(x) <= Day(newest);
    }
    var best := OneAnchorPerDay(names, d, n);
    assert best in Anchors(names, d);
    if best != n {
      BeforeTotal(best, n);
    }
  }

  /** After any number of the planned removals, a fresh plan with the same parameters is what is left of the plan. */
  lemma PlanShrinks(names: seq<string>, protected: set<string>, k: nat, d: nat, i: nat)
    requires Ascending(names) && i <= |Targets(names, protected, k, d)|
    ensures var targets := Targets(names, protected, k, d);
      Targets(Drop(names, Elements(targets[..i])), protected, k, d) == targets[i..]
  {
    hide Day, Before, IsAnchor, Recent;
    var kept, targets := Retained(names, protected, k, d), Targets(names, protected, k, d);
    var gone := Elements(targets[..i]);
    var rest := Drop(names, gone);
    TargetsPartition(names, protected, k, d);
    forall n | n in gone ensures n in Elements(targets) {}
    RecentStays(names, k, gone);
    AnchorsStay(names, d, gone);
    assert Retained(rest, protected, k, d) == kept;
    DropTwice(names, gone, kept);
    DropTwice(names, kept, gone);
    assert gone + kept == kept + gone;
    DropAscending(names, kept);
    DropPrefix(targets, i);
  }
}
