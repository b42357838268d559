module CleanupMeaning {

  // The cleanup in literal words: what a release id is, what the pointers protect, which directories a plan removes, and
  // what is still there at every point of its application.

  import opened SortedNames
  import opened CleanupNames
  import opened CleanupRetention
  import opened CleanupStore

  // ----- Names and days

  predicate DigitAt(s: string, i: nat)
    requires i < |s|
  {
    '0' <= s[i] <= '9'
  }

  /** Eight digits, six digits, twelve and eight lower-case hexadecimal digits, and one of the two product names. */
  predicate ReleaseName(s: string) {
    && ((|s| == 48 && s[38..] == "astra-saas") || (|s| == 50 && s[38..] == "clawith-saas"))
    && s[8] == '-' && s[15] == '-' && s[28] == '-' && s[37] == '-'
    && (forall i :: 0 <= i < 15 && i != 8 ==> DigitAt(s, i))
    && (forall i :: 16 <= i < 37 && i != 28 ==> DigitAt(s, i) || 'a' <= s[i] <= 'f')
  }

  lemma DigitsFrom(s: string, i: nat, j: nat)
    requires i <= j <= |s|
    ensures Digits(s[i..j]) <==> forall k :: i <= k < j ==> DigitAt(s, k)
    ensures Hexes(s[i..j]) <==> forall k :: i <= k < j ==> DigitAt(s, k) || 'a' <= s[k] <= 'f'
  {
    var t := s[i..j];
    forall k | i <= k < j ensures s[k] in t { assert t[k - i] == s[k]; }
    forall c | c in t ensures exists k :: i <= k < j && s[k] == c {
      var k :| 0 <= k < |t| && t[k] == c;
      assert s[i + k] == c;
    }
    if forall k :: i <= k < j ==> DigitAt(s, k) {
      forall c | c in t ensures IsDigit(c) {
        var k :| i <= k < j && s[k] == c;
        assert DigitAt(s, k);
      }
    }
    if forall k :: i <= k < j ==> DigitAt(s, k) || 'a' <= s[k] <= 'f' {
      forall c | c in t ensures IsHex(c) {
        var k :| i <= k < j && s[k] == c;
        assert DigitAt(s, k) || 'a' <= s[k] <= 'f';
      }
    }
  }

  lemma ReleaseNameIs(s: string)
    ensures IsReleaseId(s) <==> ReleaseName(s)
  {
    hide Digits, Hexes;
    if |s| > 38 {
      DigitsFrom(s, 0, 8);
      DigitsFrom(s, 9, 15);
      DigitsFrom(s, 16, 28);
      DigitsFrom(s, 29, 37);
      assert s[0..8] == s[..8];
      assert |s[38..]| == |s| - 38;
    }
  }

  /** The texts agree up to `i`, where `a` ends or has the smaller character. */
  predicate SmallerAt(a: string, b: string, i: int) {
    0 <= i <= |a| && i < |b| && a[..i] == b[..i] && (i == |a| || a[i] < b[i])
  }

  /** The order of names, character by character. */
  lemma {:induction false} BeforeMeans(a: string, b: string)
    ensures Before(a, b) <==> exists i :: SmallerAt(a, b, i)
  {
    if a != "" && b != "" && a[0] == b[0] {
      var u, v := a[1..], b[1..];
      BeforeMeans(u, v);
      forall i ensures SmallerAt(u, v, i) ==> SmallerAt(a, b, i + 1) {
        if SmallerAt(u, v, i) { assert a[..i + 1] == [a[0]] + u[..i] && b[..i + 1] == [b[0]] + v[..i]; }
      }
      forall i ensures SmallerAt(a, b, i) ==> SmallerAt(u, v, i - 1) {
        if SmallerAt(a, b, i) { assert u[..i - 1] == a[..i][1..] && v[..i - 1] == b[..i][1..]; }
      }
      if i :| SmallerAt(u, v, i) { assert SmallerAt(a, b, i + 1); }
      if i :| SmallerAt(a, b, i) { assert SmallerAt(u, v, i - 1); }
    } else {
      assert SmallerAt(a, b, 0) <==> Before(a, b) by { FirstSmaller(a, b); }
      forall i ensures SmallerAt(a, b, i) && i > 0 ==> a != "" && b != "" && a[0] == b[0] {
        if SmallerAt(a, b, i) && i > 0 { LaterAgrees(a, b, i); }
      }
    }
  }

  lemma FirstSmaller(a: string, b: string)
    requires a == "" || b == "" || a[0] != b[0]
    ensures SmallerAt(a, b, 0) <==> Before(a, b)
  {
    if b != "" { assert a[..0] == b[..0]; }
  }

  lemma LaterAgrees(a: string, b: string, i: int)
    requires SmallerAt(a, b, i) && i > 0
    ensures a != "" && b != "" && a[0] == b[0]
  {
    assert a[..i][0] == a[0] && b[..i][0] == b[0];
  }

  function DigitOf(s: string, i: nat): int
    requires i < |s|
  {
    s[i] as int - '0' as int
  }

  lemma NumberTwo(s: string)
    requires |s| == 2 && Digits(s)
    ensures Number(s) == 10 * DigitOf(s, 0) + DigitOf(s, 1)
  {
    assert s[0] in s && s[1] in s;
    assert s[..1] == [s[0]] && s[..1][..0] == "";
    assert Number(s[..1]) == DigitOf(s, 0);
  }

  lemma NumberFour(s: string)
    requires |s| == 4 && Digits(s)
    ensures Number(s) == 1000 * DigitOf(s, 0) + 100 * DigitOf(s, 1) + 10 * DigitOf(s, 2) + DigitOf(s, 3)
  {
    assert forall c <- s[..3] :: c in s;
    assert forall c <- s[..2] :: c in s;
    assert s[..3][..2] == s[..2];
    NumberTwo(s[..2]);
    assert Number(s[..3]) == 10 * Number(s[..2]) + DigitOf(s, 2);
  }

  /** The month of a name whose first eight characters are digits. */
  function MonthOf(s: string): int
    requires |s| >= 8
  {
    10 * DigitOf(s, 4) + DigitOf(s, 5)
  }

  /** The day of a release is the calendar day its first eight digits spell. */
  lemma DayMeans(s: string)
    requires ReleaseName(s) && 1 <= MonthOf(s) <= 12
    ensures 0 <= 1000 * DigitOf(s, 0) + 100 * DigitOf(s, 1) + 10 * DigitOf(s, 2) + DigitOf(s, 3)
    ensures 0 <= 10 * DigitOf(s, 6) + DigitOf(s, 7)
    ensures Day(s) == Ordinal(1000 * DigitOf(s, 0) + 100 * DigitOf(s, 1) + 10 * DigitOf(s, 2) + DigitOf(s, 3),
                              MonthOf(s), 10 * DigitOf(s, 6) + DigitOf(s, 7))
  {
    hide Ordinal;
    DigitsFrom(s, 0, 8);
    DigitsFrom(s, 0, 4);
    DigitsFrom(s, 4, 6);
    DigitsFrom(s, 6, 8);
    assert s[0..8] == s[..8] && s[0..4] == s[..4];
    NumberFour(s[..4]);
    NumberTwo(s[4..6]);
    NumberTwo(s[6..8]);
    assert DigitAt(s, 0) && DigitAt(s, 1) && DigitAt(s, 2) && DigitAt(s, 3) && DigitAt(s, 6) && DigitAt(s, 7);
  }

  /** The length of a month in the Gregorian calendar. */
  function MonthLength(y: nat, m: nat): nat {
    if m == 4 || m == 6 || m == 9 || m == 11 then 30
    else if m != 2 then 31
    else if y % 400 == 0 || (y % 4 == 0 && y % 100 != 0) then 29
    else 28
  }

  /** Ordinals count the days one by one, from the first of January of the year 1. */
  lemma CalendarSteps(y: nat, m: nat, d: nat)
    requires 1 <= y && 1 <= m <= 12
    ensures Ordinal(1, 1, 1) == 1
    ensures Ordinal(y, m, d + 1) == Ordinal(y, m, d) + 1
    ensures m < 12 ==> Ordinal(y, m + 1, 1) == Ordinal(y, m, MonthLength(y, m)) + 1
    ensures Ordinal(y + 1, 1, 1) == Ordinal(y, 12, 31) + 1
  {
    YearSteps(y);
  }

  lemma YearSteps(y: nat)
    requires 1 <= y
    ensures y / 4 == (y - 1) / 4 + if y % 4 == 0 then 1 else 0
    ensures y / 100 == (y - 1) / 100 + if y % 100 == 0 then 1 else 0
    ensures y / 400 == (y - 1) / 400 + if y % 400 == 0 then 1 else 0
    ensures (y % 400 == 0 ==> y % 100 == 0) && (y % 100 == 0 ==> y % 4 == 0)
  {}

  // ----- What the pointers protect

  /** Some of the seven pointers names the release. */
  predicate Pointed(p: Pointers, r: string) {
    || p.current == Names(r) || p.activeState == Names(r) || p.activeRelease == Names(r)
    || p.slotA == Names(r) || p.slotB == Names(r) || p.cutoverState == Names(r) || p.pendingDrain == Names(r)
  }

  /** Only the first two pointers must be there; none may be unusable. */
  predicate Usable(p: Pointers) {
    && p.current.Names? && p.activeState.Names?
    && !p.activeRelease.Invalid? && !p.slotA.Invalid? && !p.slotB.Invalid?
    && !p.cutoverState.Invalid? && !p.pendingDrain.Invalid?
  }

  /** Every pointed release is a managed release directory. */
  ghost predicate AllThere(s: Store) {
    forall r :: Pointed(s.pointers, r) ==> ReleaseName(r) && r in s.releases && s.releases[r] == Directory
  }

  lemma RequiredIs(p: Pointer)
    ensures Required(p).Ok? <==> p.Names? && ReleaseName(p.release)
    ensures Required(p).Ok? ==> Required(p).value == {p.release}
    ensures Optional(p).Ok? <==> p.Absent? || (p.Names? && ReleaseName(p.release))
    ensures Optional(p).Ok? ==> Optional(p).value == if p.Names? then {p.release} else {}
  {
    hide IsReleaseId, ReleaseName;
    if p.Names? { ReleaseNameIs(p.release); }
  }

  lemma PathIs(p: Pointer, releases: map<string, Entry>)
    ensures OptionalPath(p, releases).Ok? <==> p.Absent? || (p.Names? && ReleaseName(p.release) && Exists(releases, p.release))
    ensures OptionalPath(p, releases).Ok? ==> OptionalPath(p, releases).value == if p.Names? then {p.release} else {}
  {
    hide IsReleaseId, ReleaseName, Optional, Required;
    RequiredIs(p);
  }

  lemma PointersRead(s: Store)
    ensures var p := s.pointers;
      CollectProtected(s).Ok? ==>
        && Usable(p)
        && (forall r :: r in CollectProtected(s).value <==> Pointed(p, r))
        && forall r :: Pointed(p, r) ==> ReleaseName(r)
  {
    hide ReleaseName, Required, Optional, OptionalPath, Exists;
    var p := s.pointers;
    RequiredIs(p.current);
    RequiredIs(p.activeState);
    RequiredIs(p.activeRelease);
    PathIs(p.slotA, s.releases);
    PathIs(p.slotB, s.releases);
    RequiredIs(p.cutoverState);
    PathIs(p.pendingDrain, s.releases);
  }

  lemma PointersReadable(s: Store)
    requires Usable(s.pointers) && AllThere(s)
    ensures CollectProtected(s).Ok?
  {
    hide ReleaseName, Required, Optional, OptionalPath;
    var p := s.pointers;
    RequiredIs(p.current);
    RequiredIs(p.activeState);
    RequiredIs(p.activeRelease);
    PathIs(p.slotA, s.releases);
    PathIs(p.slotB, s.releases);
    RequiredIs(p.cutoverState);
    PathIs(p.pendingDrain, s.releases);
    EachPointed(p);
  }

  lemma EachPointed(p: Pointers)
    ensures p.current.Names? ==> Pointed(p, p.current.release)
    ensures p.activeState.Names? ==> Pointed(p, p.activeState.release)
    ensures p.activeRelease.Names? ==> Pointed(p, p.activeRelease.release)
    ensures p.slotA.Names? ==> Pointed(p, p.slotA.release)
    ensures p.slotB.Names? ==> Pointed(p, p.slotB.release)
    ensures p.cutoverState.Names? ==> Pointed(p, p.cutoverState.release)
    ensures p.pendingDrain.Names? ==> Pointed(p, p.pendingDrain.release)
  {}

  /** The protected releases can be read exactly when every pointer is usable and every pointed release is there; they
      are then exactly the pointed releases. */
  lemma ProtectedMeans(s: Store)
    ensures CollectProtected(s).Ok? <==> Usable(s.pointers) && AllThere(s)
    ensures CollectProtected(s).Ok? ==> forall r :: r in CollectProtected(s).value <==> Pointed(s.pointers, r)
  {
    hide CollectProtected, Usable, Pointed, ReleaseName;
    PointersRead(s);
    if CollectProtected(s).Ok? {
      ProtectedExist(s);
    }
    if Usable(s.pointers) && AllThere(s) { PointersReadable(s); }
  }

  // ----- The plan

  /** Every entry with the name of a release is a real directory. */
  predicate RealDirectories(entries: map<string, Entry>) {
    forall n <- entries :: ReleaseName(n) ==> entries[n] == Directory
  }

  lemma ManagedMeans(entries: map<string, Entry>)
    ensures Managed(entries).Ok? <==> RealDirectories(entries)
    ensures Managed(entries).Ok? ==> forall n :: n in Managed(entries).value <==> n in entries && ReleaseName(n)
  {
    hide IsReleaseId, ReleaseName;
    forall n ensures IsReleaseId(n) <==> ReleaseName(n) { ReleaseNameIs(n); }
  }

  /** A plan is made exactly within the allowed numbers, for readable pointers and real directories. */
  lemma PlanAccepts(s: Store, keepRecent: int, keepDailyDays: int)
    ensures BuildPlan(s, keepRecent, keepDailyDays).Ok? <==>
      && 2 <= keepRecent <= 50 && 0 <= keepDailyDays <= 365
      && Usable(s.pointers) && AllThere(s) && RealDirectories(s.releases) && RealDirectories(s.backups)
  {
    hide CollectProtected, Managed, PlanFor, Usable, AllThere, RealDirectories;
    ProtectedMeans(s);
    ManagedMeans(s.releases);
    ManagedMeans(s.backups);
  }

  /** The releases of the same root that are newer. */
  function NewerThan(entries: map<string, Entry>, n: string): set<string> {
    set x <- entries | ReleaseName(x) && Before(n, x)
  }

  /** The newest release of its day in its root, on one of the last `d` days. */
  predicate NewestOfDay(entries: map<string, Entry>, d: nat, n: string) {
    && d > 0
    && forall x <- entries :: ReleaseName(x) ==>
         Day(x) - (d - 1) <= Day(n) && (Day(x) == Day(n) && x != n ==> Before(x, n))
  }

  /** A directory that the cleanup gives up: a release without a pointer to it, with enough newer ones in its root, and
      not the newest of one of the last days. */
  predicate GivenUp(s: Store, keepRecent: int, keepDailyDays: nat, t: Target) {
    var entries := if t.kind.Release? then s.releases else s.backups;
    && t.release in entries && ReleaseName(t.release) && !Pointed(s.pointers, t.release)
    && |NewerThan(entries, t.release)| >= keepRecent && !NewestOfDay(entries, keepDailyDays, t.release)
  }

  lemma SortedManaged(entries: map<string, Entry>, n: string)
    requires Managed(entries).Ok?
    ensures var names := Sorted(Managed(entries).value);
      Ascending(names) && (n in names <==> n in entries && ReleaseName(n))
  {
    hide ReleaseName, Managed, Before;
    ManagedMeans(entries);
    var names := Sorted(Managed(entries).value);
    assert n in names <==> n in Elements(names);
  }

  lemma NewerAre(entries: map<string, Entry>, n: string)
    requires Managed(entries).Ok?
    ensures Newer(Sorted(Managed(entries).value), n) == NewerThan(entries, n)
  {
    hide ReleaseName, Managed, Before, Ascending;
    forall x ensures x in Sorted(Managed(entries).value) <==> x in entries && ReleaseName(x) { SortedManaged(entries, x); }
  }

  lemma AnchorsAre(entries: map<string, Entry>, d: nat, n: string)
    requires Managed(entries).Ok? && n in entries && ReleaseName(n)
    ensures IsAnchor(Sorted(Managed(entries).value), d, n) <==> NewestOfDay(entries, d, n)
  {
    hide ReleaseName, Managed, Before, Ascending, Day;
    var names := Sorted(Managed(entries).value);
    forall x ensures x in names <==> x in entries && ReleaseName(x) { SortedManaged(entries, x); }
  }

  lemma TargetsIn(s: Store, k: nat, d: nat, kind: Kind, n: string)
    requires CollectProtected(s).Ok? && Managed(EntriesOf(s, kind)).Ok?
    ensures n in Targets(Sorted(Managed(EntriesOf(s, kind)).value), CollectProtected(s).value, k, d) <==>
      GivenUp(s, k, d, Target(kind, n))
  {
    hide ReleaseName, Managed, Before, Ascending, Day, CollectProtected, Pointed, IsAnchor, NewestOfDay, Recent, NewerThan,
      Newer, Drop;
    var entries, p := EntriesOf(s, kind), CollectProtected(s).value;
    var names := Sorted(Managed(entries).value);
    ProtectedMeans(s);
    SortedManaged(entries, n);
    DropElements(names, Retained(names, p, k, d));
    var x := Targets(names, p, k, d);
    assert n in x <==> n in Elements(x);
    assert Elements(x) == Elements(names) - Retained(names, p, k, d);
    assert n in names <==> n in Elements(names);
    if n in names {
      RecentMeans(names, k, n);
      NewerAre(entries, n);
      AnchorsAre(entries, d, n);
    }
  }

  lemma InTags(kind: Kind, names: seq<string>, t: Target)
    ensures t in Tag(kind, names) <==> t.kind == kind && t.release in names
  {
    TagNames(kind, names);
    if t.kind == kind && t.release in names {
      var i :| 0 <= i < |names| && names[i] == t.release;
      assert Tag(kind, names)[i] == t;
    }
  }

  /** The targets of a plan are exactly the directories that the cleanup gives up. */
  lemma TargetsMean(s: Store, keepRecent: int, keepDailyDays: int, t: Target)
    requires BuildPlan(s, keepRecent, keepDailyDays).Ok?
    ensures keepDailyDays >= 0
    ensures t in BuildPlan(s, keepRecent, keepDailyDays).value.targets <==> GivenUp(s, keepRecent, keepDailyDays, t)
  {
    hide Managed, CollectProtected, Targets, Tag, GivenUp, Recent, Anchors;
    var p := CollectProtected(s).value;
    var x := Targets(Sorted(Managed(s.releases).value), p, keepRecent, keepDailyDays);
    var y := Targets(Sorted(Managed(s.backups).value), p, keepRecent, keepDailyDays);
    InTags(Release, x, t);
    InTags(Backup, y, t);
    TargetsIn(s, keepRecent, keepDailyDays, t.kind, t.release);
  }

  lemma RecentAre(entries: map<string, Entry>, k: nat, n: string)
    requires Managed(entries).Ok?
    ensures n in Recent(Sorted(Managed(entries).value), k) <==>
      n in entries && ReleaseName(n) && |NewerThan(entries, n)| < k
    ensures Ascending(Recent(Sorted(Managed(entries).value), k))
  {
    hide ReleaseName, Managed, Before, NewerThan, Newer;
    var names := Sorted(Managed(entries).value);
    SortedManaged(entries, n);
    if n in names {
      RecentMeans(names, k, n);
      NewerAre(entries, n);
    }
  }

  lemma DailyAre(entries: map<string, Entry>, d: nat, n: string)
    requires Managed(entries).Ok?
    ensures n in Anchors(Sorted(Managed(entries).value), d) <==>
      n in entries && ReleaseName(n) && NewestOfDay(entries, d, n)
  {
    hide ReleaseName, Managed, NewestOfDay, Day, Before;
    SortedManaged(entries, n);
    if n in Sorted(Managed(entries).value) { AnchorsAre(entries, d, n); }
  }

  /** What a plan reports as kept: the pointed releases, the most recent ones of each root in the order of their names,
      and the newest of the last days of each root. */
  lemma PlanReports(s: Store, keepRecent: int, keepDailyDays: int, n: string)
    requires BuildPlan(s, keepRecent, keepDailyDays).Ok?
    ensures keepRecent >= 0 && keepDailyDays >= 0
    ensures var plan := BuildPlan(s, keepRecent, keepDailyDays).value;
      && (n in plan.protected <==> Pointed(s.pointers, n))
      && (n in plan.recentReleases <==>
            n in s.releases && ReleaseName(n) && |NewerThan(s.releases, n)| < keepRecent)
      && (n in plan.recentBackups <==> n in s.backups && ReleaseName(n) && |NewerThan(s.backups, n)| < keepRecent)
      && Ascending(plan.recentReleases) && Ascending(plan.recentBackups)
      && (n in plan.dailyReleases <==> n in s.releases && ReleaseName(n) && NewestOfDay(s.releases, keepDailyDays, n))
      && (n in plan.dailyBackups <==> n in s.backups && ReleaseName(n) && NewestOfDay(s.backups, keepDailyDays, n))
  {
    hide Managed, CollectProtected, Targets, Tag, Recent, Anchors, ReleaseName, NewestOfDay, NewerThan, Pointed, Ascending;
    ProtectedMeans(s);
    RecentAre(s.releases, keepRecent, n);
    RecentAre(s.backups, keepRecent, n);
    DailyAre(s.releases, keepDailyDays, n);
    DailyAre(s.backups, keepDailyDays, n);
  }

  /** Releases come before backups, and each in the order of their names. */
  lemma TargetsOrdered(s: Store, keepRecent: int, keepDailyDays: int, i: nat, j: nat)
    requires BuildPlan(s, keepRecent, keepDailyDays).Ok?
    requires i < j < |BuildPlan(s, keepRecent, keepDailyDays).value.targets|
    ensures var t, u := BuildPlan(s, keepRecent, keepDailyDays).value.targets[i],
                        BuildPlan(s, keepRecent, keepDailyDays).value.targets[j];
      (t.kind == Release && u.kind == Backup) || (t.kind == u.kind && Before(t.release, u.release))
  {
    hide Managed, CollectProtected, Drop, Tag, Recent, Anchors, Before, Retained;
    var p := CollectProtected(s).value;
    var names, backups := Sorted(Managed(s.releases).value), Sorted(Managed(s.backups).value);
    var x, y := Targets(names, p, keepRecent, keepDailyDays), Targets(backups, p, keepRecent, keepDailyDays);
    DropAscending(names, Retained(names, p, keepRecent, keepDailyDays));
    DropAscending(backups, Retained(backups, p, keepRecent, keepDailyDays));
    TagNames(Release, x);
    TagNames(Backup, y);
  }

  /** No target of a plan is named by a pointer. */
  lemma PlanSparesPointed(s: Store, keepRecent: int, keepDailyDays: int, t: Target)
    requires BuildPlan(s, keepRecent, keepDailyDays).Ok? && t in BuildPlan(s, keepRecent, keepDailyDays).value.targets
    ensures !Pointed(s.pointers, t.release)
  {
    hide BuildPlan, Pointed, NewestOfDay, NewerThan, ReleaseName;
    TargetsMean(s, keepRecent, keepDailyDays, t);
  }

  /** After any part of the planned removals every release named by a pointer is still a directory. */
  lemma PointedStay(s: Store, keepRecent: int, keepDailyDays: int, i: nat)
    requires BuildPlan(s, keepRecent, keepDailyDays).Ok?
    requires i <= |BuildPlan(s, keepRecent, keepDailyDays).value.targets|
    ensures var t := Removed(s, BuildPlan(s, keepRecent, keepDailyDays).value.targets[..i]);
      t.pointers == s.pointers && forall r :: Pointed(s.pointers, r) ==> r in t.releases && t.releases[r] == Directory
  {
    hide BuildPlan, Pointed, CollectProtected, Usable, ReleaseName;
    PlanProtects(s, keepRecent, keepDailyDays);
    ProtectedSurvive(s, keepRecent, keepDailyDays, s, i);
    ProtectedMeans(Removed(s, BuildPlan(s, keepRecent, keepDailyDays).value.targets[..i]));
  }

  // ----- Its application

  /** What one removal takes away. */
  function LessOne(s: Store, t: Target): Store {
    if t.kind.Release? then Store(s.releases - {t.release}, s.backups, s.pointers)
    else Store(s.releases, s.backups - {t.release}, s.pointers)
  }

  /** A removal succeeds exactly for a managed real directory whose removal does not fail. */
  lemma RemovalMeans(s: Store, t: Target, faulty: set<Target>)
    ensures var entries := if t.kind.Release? then s.releases else s.backups;
      RemoveTarget(s, t, faulty) ==
        if ReleaseName(t.release) && t.release in entries && entries[t.release] == Directory && t !in faulty
        then Ok(LessOne(s, t)) else Refused
  {
    hide IsReleaseId, ReleaseName;
    ReleaseNameIs(t.release);
  }

  /** Whatever plan is applied to a store whose pointed releases are all there, and whichever removals fail, they are all
      there afterwards; and a plan that protects other releases than the pointed ones removes nothing. */
  lemma ApplicationSpares(planned: Store, keepRecent: int, keepDailyDays: int, s: Store, faulty: set<Target>)
    requires BuildPlan(planned, keepRecent, keepDailyDays).Ok?
    ensures var plan := BuildPlan(planned, keepRecent, keepDailyDays).value; var r := ApplyPlan(s, plan, faulty);
      && r.store.pointers == s.pointers
      && (AllThere(s) ==> AllThere(r.store))
      && (r.removed != [] || r.completed ==> forall n :: n in plan.protected <==> Pointed(s.pointers, n))
      && (r.removed == [] ==> r.store == s)
  {
    hide BuildPlan, Pointed, CollectProtected, Usable, ReleaseName, ApplyTargets, AllThere, NamesOf;
    var plan := BuildPlan(planned, keepRecent, keepDailyDays).value;
    ProtectedMeans(s);
    if CollectProtected(s) == Ok(plan.protected) {
      AppliesPrefix(s, plan.targets, faulty);
      var n := |ApplyPlan(s, plan, faulty).removed|;
      assert plan.targets[..n] == ApplyPlan(s, plan, faulty).removed;
      ProtectedSurvive(planned, keepRecent, keepDailyDays, s, n);
      ProtectedMeans(Removed(s, plan.targets[..n]));
      NothingRemoved(s);
    }
  }

  lemma NothingRemoved(s: Store)
    ensures Removed(s, []) == s
  {
    assert NamesOf([], Release) == {} && NamesOf([], Backup) == {};
    assert s.releases - {} == s.releases && s.backups - {} == s.backups;
  }

  /** An application that starts stops before its end exactly in front of a target that cannot be removed. */
  lemma {:induction false} StopsAtFault(s: Store, targets: seq<Target>, faulty: set<Target>)
    ensures var r := ApplyTargets(s, targets, faulty);
      && |r.removed| <= |targets|
      && (|r.removed| < |targets| ==> !r.completed && RemoveTarget(r.store, targets[|r.removed|], faulty).Refused?)
      && (|r.removed| == |targets| ==> r.completed)
    decreases |targets|
  {
    hide RemoveTarget;
    if targets != [] && RemoveTarget(s, targets[0], faulty).Ok? {
      StopsAtFault(RemoveTarget(s, targets[0], faulty).value, targets[1..], faulty);
    }
  }
}
