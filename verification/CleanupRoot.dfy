module CleanupRoot {

  // The cleanup procedures on an application root whose directories they remove.

  import opened SortedNames
  import opened CleanupNames
  import opened CleanupRetention
  import opened CleanupStore

  /** A directory listing: every entry once, in no particular order. */
  predicate Lists(listing: seq<string>, entries: map<string, Entry>) {
    && (forall n <- listing :: n in entries)
    && (forall n <- entries :: n in listing)
  }

  /** `_managed_directories`. */
  method ManagedDirectories(entries: map<string, Entry>, listing: seq<string>) returns (r: Outcome<seq<string>>)
    requires Lists(listing, entries)
    ensures r.Ok? <==> Managed(entries).Ok?
    ensures r.Ok? ==> r.value == Sorted(Managed(entries).value)
  {
    hide IsReleaseId, Before;
    var managed: seq<string> := [];
    var i := 0;
    while i < |listing|
      invariant i <= |listing|
      invariant Ascending(managed)
      invariant Elements(managed) == set n <- listing[..i] | IsReleaseId(n)
      invariant forall n <- listing[..i] :: IsReleaseId(n) ==> entries[n].Directory?
    {
      var candidate := listing[i];
      assert listing[..i + 1] == listing[..i] + [candidate];
      i := i + 1;
      if !IsReleaseId(candidate) {
        continue;
      }
      if entries[candidate] != Directory {
        return Refused;
      }
      InsertSorted(managed, candidate);
      managed := Insert(managed, candidate);
    }
    assert listing[..i] == listing;
    assert Elements(managed) == set n <- entries | IsReleaseId(n);
    SortedUnique(managed, Sorted(Elements(managed)));
    return Ok(managed);
  }

  /** What `newest_by_day` holds after some of the paths: for every day from the cutoff on, its newest path so far. */
  predicate NewestSoFar(newestByDay: map<int, string>, seen: seq<string>, cutoff: int) {
    && (forall day <- newestByDay ::
          && day >= cutoff && newestByDay[day] in seen && Day(newestByDay[day]) == day
          && (forall x <- seen :: Day(x) == day && x != newestByDay[day] ==> Before(x, newestByDay[day])))
    && (forall x <- seen :: Day(x) >= cutoff ==> Day(x) in newestByDay)
  }

  /** `_daily_anchor_ids`. */
  method DailyAnchorIds(names: seq<string>, keepDailyDays: nat) returns (r: set<string>)
    ensures r == Anchors(names, keepDailyDays)
  {
    hide Day, Before;
    if names == [] || keepDailyDays == 0 {
      assert Anchors(names, keepDailyDays) == {};
      return {};
    }
    var newestDay := Day(names[0]);
    ghost var top := names[0];
    var i := 1;
    while i < |names|
      invariant 1 <= i <= |names|
      invariant forall x <- names[..i] :: Day(x) <= newestDay
      invariant top in names && Day(top) == newestDay
    {
      assert names[..i + 1] == names[..i] + [names[i]];
      if Day(names[i]) > newestDay {
        newestDay := Day(names[i]);
        top := names[i];
      }
      i := i + 1;
    }
    assert names[..i] == names;
    var cutoff := newestDay - (keepDailyDays - 1);
    var newestByDay: map<int, string> := map[];
    i := 0;
    while i < |names|
      invariant i <= |names|
      invariant NewestSoFar(newestByDay, names[..i], cutoff)
    {
      var name := names[i];
      var day := Day(name);
      assert names[..i + 1] == names[..i] + [name];
      if day >= cutoff {
        BetterKept(newestByDay, names[..i], cutoff, name);
        newestByDay := newestByDay[day := Better(newestByDay, day, name)];
      }
      i := i + 1;
    }
    assert names[..i] == names;
    r := ValuesOf(newestByDay);
    AnchorsCollected(names, keepDailyDays, top, newestDay, newestByDay);
  }

  /** `max(newest_by_day.get(day, ""), name)`. */
  function Better(newestByDay: map<int, string>, day: int, name: string): string {
    var current := if day in newestByDay then newestByDay[day] else "";
    if Before(current, name) then name else current
  }

  lemma BetterKept(newestByDay: map<int, string>, seen: seq<string>, cutoff: int, name: string)
    requires NewestSoFar(newestByDay, seen, cutoff) && Day(name) >= cutoff
    ensures NewestSoFar(newestByDay[Day(name) := Better(newestByDay, Day(name), name)], seen + [name], cutoff)
  {
    hide Day, Before;
    var day := Day(name);
    var best := Better(newestByDay, day, name);
    var current := if day in newestByDay then newestByDay[day] else "";
    BeforeTotal(current, name);
    NothingBeforeEmpty(name);
    forall x | x in seen + [name] && Day(x) == day && x != best ensures Before(x, best) {
      if x in seen && x != current && best != current { BeforeTransitive(x, current, name); }
    }
    var next := newestByDay[day := best];
    forall d | d in next
      ensures d >= cutoff && next[d] in seen + [name] && Day(next[d]) == d
      ensures forall x <- seen + [name] :: Day(x) == d && x != next[d] ==> Before(x, next[d])
    {}
  }

  lemma NothingBeforeEmpty(name: string)
    ensures !Before(name, "")
  {}

  /** `set(newest_by_day.values())`. */
  function ValuesOf(newestByDay: map<int, string>): set<string> { set day <- newestByDay :: newestByDay[day] }

  lemma AnchorsCollected(names: seq<string>, d: nat, top: string, newestDay: int, newestByDay: map<int, string>)
    requires d > 0 && NewestSoFar(newestByDay, names, newestDay - (d - 1))
    requires forall x <- names :: Day(x) <= newestDay
    requires top in names && Day(top) == newestDay
    ensures ValuesOf(newestByDay) == Anchors(names, d)
  {
    hide Day, Before;
    forall n | n in ValuesOf(newestByDay) ensures n in Anchors(names, d) {
      var day :| day in newestByDay && newestByDay[day] == n;
      assert IsAnchor(names, d, n);
    }
    forall n | n in Anchors(names, d) ensures n in ValuesOf(newestByDay) {
      assert IsAnchor(names, d, n) && Day(n) >= newestDay - (d - 1);
      var best := newestByDay[Day(n)];
      if best != n { BeforeTotal(best, n); }
      assert Day(n) in newestByDay.Keys;
    }
  }

  class AppRoot {
    var releases: map<string, Entry>
    var backups: map<string, Entry>
    var pointers: Pointers

    constructor (releases: map<string, Entry>, backups: map<string, Entry>, pointers: Pointers)
      ensures Current() == Store(releases, backups, pointers)
    {
      this.releases, this.backups, this.pointers := releases, backups, pointers;
    }

    /** The root as a value. */
    function Current(): Store
      reads this
    {
      Store(releases, backups, pointers)
    }

    /** `collect_protected_release_ids`: the pointers are read one after the other. */
    method CollectProtectedReleaseIds() returns (r: Outcome<set<string>>)
      ensures r == CollectProtected(Current())
    {
      hide IsReleaseId;
      var protected :- Required(pointers.current);
      var active :- Required(pointers.activeState);
      protected := protected + active;
      var release :- Optional(pointers.activeRelease);
      protected := protected + release;
      var slot :- OptionalPath(pointers.slotA, releases);
      protected := protected + slot;
      slot :- OptionalPath(pointers.slotB, releases);
      protected := protected + slot;
      var cutover :- Optional(pointers.cutoverState);
      protected := protected + cutover;
      var drain :- OptionalPath(pointers.pendingDrain, releases);
      protected := protected + drain;
      if exists p <- protected :: !Exists(releases, p) {
        return Refused;
      }
      return Ok(protected);
    }

    /** The target loop of `build_cleanup_plan` over one artifact root. */
    method CollectTargets(kind: Kind, names: seq<string>, protected: set<string>, keepRecent: nat, keepDailyDays: nat)
      returns (targets: seq<Target>)
      ensures targets == Tag(kind, Targets(names, protected, keepRecent, keepDailyDays))
    {
      hide Before, Day, IsAnchor;
      var retained := Elements(Recent(names, keepRecent));
      var daily := DailyAnchorIds(names, keepDailyDays);
      ghost var kept := Retained(names, protected, keepRecent, keepDailyDays);
      targets := [];
      var i := 0;
      assert names[0..] == names && [] + Tag(kind, Drop(names, kept)) == Tag(kind, Drop(names, kept));
      while i < |names|
        invariant i <= |names|
        invariant Tag(kind, Drop(names, kept)) == targets + Tag(kind, Drop(names[i..], kept))
      {
        var name := names[i];
        assert names[i..][0] == name && names[i..][1..] == names[i + 1..];
        i := i + 1;
        if name in protected || name in retained || name in daily {
          continue;
        }
        ghost var more := Drop(names[i..], kept);
        assert ([name] + more)[1..] == more;
        assert targets + ([Target(kind, name)] + Tag(kind, more)) == targets + [Target(kind, name)] + Tag(kind, more);
        targets := targets + [Target(kind, name)];
      }
      assert names[i..] == [];
      assert targets + [] == targets;
    }

    /** `build_cleanup_plan`. */
    method BuildCleanupPlan(keepRecent: int, keepDailyDays: int, releaseListing: seq<string>,
                            backupListing: seq<string>)
      returns (r: Outcome<Plan>)
      requires Lists(releaseListing, releases) && Lists(backupListing, backups)
      ensures r == BuildPlan(Current(), keepRecent, keepDailyDays)
    {
      hide CollectProtected, Managed, Targets, Recent, Anchors, Lists;
      if keepRecent < 2 || keepRecent > 50 {
        return Refused;
      }
      if keepDailyDays < 0 || keepDailyDays > 365 {
        return Refused;
      }
      var protected :- CollectProtectedReleaseIds();
      var releaseNames :- ManagedDirectories(releases, releaseListing);
      var backupNames :- ManagedDirectories(backups, backupListing);
      var releaseTargets := CollectTargets(Release, releaseNames, protected, keepRecent, keepDailyDays);
      var backupTargets := CollectTargets(Backup, backupNames, protected, keepRecent, keepDailyDays);
      var dailyReleases := DailyAnchorIds(releaseNames, keepDailyDays);
      var dailyBackups := DailyAnchorIds(backupNames, keepDailyDays);
      return Ok(Plan(protected, Recent(releaseNames, keepRecent), Recent(backupNames, keepRecent), dailyReleases, dailyBackups,
                     releaseTargets + backupTargets));
    }

    /** `_remove_artifact_target`. */
    method RemoveArtifactTarget(t: Target, faulty: set<Target>) returns (ok: bool)
      modifies this
      ensures ok == RemoveTarget(old(Current()), t, faulty).Ok?
      ensures Current() == if ok then Without(old(Current()), t) else old(Current())
    {
      hide IsReleaseId;
      if !IsReleaseId(t.release) || !Exists(EntriesOf(Current(), t.kind), t.release) {
        return false;
      }
      if t in faulty {
        return false;
      }
      match t.kind {
        case Release => releases := releases - {t.release};
        case Backup => backups := backups - {t.release};
      }
      return true;
    }

    /** `apply_cleanup_plan`. */
    method ApplyCleanupPlan(plan: Plan, faulty: set<Target>) returns (removed: seq<Target>, completed: bool)
      modifies this
      ensures Applied(Current(), removed, completed) == ApplyPlan(old(Current()), plan, faulty)
      ensures removed <= plan.targets && (completed ==> removed == plan.targets)
    {
      hide CollectProtected, RemoveTarget;
      AppliesPrefix(Current(), plan.targets, faulty);
      removed := [];
      var currentProtected := CollectProtectedReleaseIds();
      if currentProtected != Ok(plan.protected) {
        return [], false;
      }
      ghost var start := Current();
      ghost var whole := ApplyTargets(start, plan.targets, faulty);
      var i := 0;
      assert plan.targets[0..] == plan.targets;
      assert [] + whole.removed == whole.removed;
      while i < |plan.targets|
        invariant i <= |plan.targets|
        invariant var rest := ApplyTargets(Current(), plan.targets[i..], faulty);
          whole == rest.(removed := removed + rest.removed)
      {
        var target := plan.targets[i];
        assert plan.targets[i..][0] == target && plan.targets[i..][1..] == plan.targets[i + 1..];
        Unfold(Current(), plan.targets[i..], faulty);
        ghost var before := Current();
        var ok := RemoveArtifactTarget(target, faulty);
        RemoveGives(before, target, faulty);
        if !ok {
          assert removed + [] == removed;
          return removed, false;
        }
        ghost var more := ApplyTargets(Current(), plan.targets[i + 1..], faulty).removed;
        assert removed + ([target] + more) == removed + [target] + more;
        removed := removed + [target];
        i := i + 1;
      }
      assert plan.targets[i..] == [];
      assert removed + [] == removed;
      completed := true;
    }
  }

  lemma Unfold(s: Store, targets: seq<Target>, faulty: set<Target>)
    requires targets != []
    ensures var r := RemoveTarget(s, targets[0], faulty);
      ApplyTargets(s, targets, faulty) ==
        if r.Refused? then Applied(s, [], false)
        else
          var rest := ApplyTargets(r.value, targets[1..], faulty);
          rest.(removed := [targets[0]] + rest.removed)
  {
    hide RemoveTarget;
  }

  lemma RemoveGives(s: Store, t: Target, faulty: set<Target>)
    ensures RemoveTarget(s, t, faulty).Ok? ==> RemoveTarget(s, t, faulty).value == Without(s, t)
  {
    hide IsReleaseId;
  }
}
