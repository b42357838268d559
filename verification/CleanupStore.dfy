module CleanupStore {

  // The cleanup of one application root: protected releases, the plan, and its application step by step.

  import opened SortedNames
  import opened CleanupNames
  import opened CleanupRetention

  datatype Entry = Directory | Link | Other

  /** What a pointer says once its text is read: nothing, something unusable, or a release. */
  datatype Pointer = Absent | Invalid | Names(release: string)

  datatype Pointers = Pointers(current: Pointer, activeState: Pointer, activeRelease: Pointer,
                               slotA: Pointer, slotB: Pointer, cutoverState: Pointer, pendingDrain: Pointer)

  datatype Store = Store(releases: map<string, Entry>, backups: map<string, Entry>, pointers: Pointers)

  /** `Refused` models a raised `CleanupSafetyError`. */
  datatype Outcome<+T> = Ok(value: T) | Refused {
    predicate IsFailure() { Refused? }
    function PropagateFailure<U>(): Outcome<U>
      requires Refused?
    {
      Refused
    }
    function Extract(): T
      requires Ok?
    {
      value
    }
  }

  // ----- Protected releases

  /** A pointer that must name a managed release id. */
  function Required(p: Pointer): Outcome<set<string>> {
    if p.Names? && IsReleaseId(p.release) then Ok({p.release}) else Refused
  }

  function Optional(p: Pointer): Outcome<set<string>> { if p.Absent? then Ok({}) else Required(p) }

  predicate Exists(entries: map<string, Entry>, n: string) { n in entries && entries[n].Directory? }

  /** A pointer that, when there, must hold the path of a release directory. */
  function OptionalPath(p: Pointer, releases: map<string, Entry>): Outcome<set<string>> {
    if p.Names? && !Exists(releases, p.release) then Refused else Optional(p)
  }

  /** `collect_protected_release_ids`. */
  function CollectProtected(s: Store): Outcome<set<string>> {
    var current :- Required(s.pointers.current);
    var active :- Required(s.pointers.activeState);
    var release :- Optional(s.pointers.activeRelease);
    var a :- OptionalPath(s.pointers.slotA, s.releases);
    var b :- OptionalPath(s.pointers.slotB, s.releases);
    var cutover :- Optional(s.pointers.cutoverState);
    var drain :- OptionalPath(s.pointers.pendingDrain, s.releases);
    var protected := current + active + release + a + b + cutover + drain;
    if forall p <- protected :: Exists(s.releases, p) then Ok(protected) else Refused
  }

  // ----- The plan

  /** The managed names of an artifact root. */
  function Managed(entries: map<string, Entry>): Outcome<set<string>> {
    if exists n <- entries :: IsReleaseId(n) && !entries[n].Directory? then Refused
    else Ok(set n <- entries | IsReleaseId(n))
  }

  datatype Kind = Release | Backup

  datatype Target = Target(kind: Kind, release: string)

  datatype Plan = Plan(protected: set<string>, recentReleases: seq<string>, recentBackups: seq<string>,
                       dailyReleases: set<string>, dailyBackups: set<string>, targets: seq<Target>)

  function Tag(kind: Kind, names: seq<string>): seq<Target> {
    if names == [] then [] else [Target(kind, names[0])] + Tag(kind, names[1..])
  }

  function PlanFor(protected: set<string>, releases: seq<string>, backups: seq<string>, k: nat, d: nat): Plan {
    Plan(protected, Recent(releases, k), Recent(backups, k), Anchors(releases, d), Anchors(backups, d),
         Tag(Release, Targets(releases, protected, k, d)) + Tag(Backup, Targets(backups, protected, k, d)))
  }

  /** `build_cleanup_plan` without Docker images. */
  ghost function BuildPlan(s: Store, keepRecent: int, keepDailyDays: int): Outcome<Plan> {
    if keepRecent < 2 || keepRecent > 50 then Refused
    else if keepDailyDays < 0 || keepDailyDays > 365 then Refused
    else
      var protected :- CollectProtected(s);
      var releases :- Managed(s.releases);
      var backups :- Managed(s.backups);
      Ok(PlanFor(protected, Sorted(releases), Sorted(backups), keepRecent, keepDailyDays))
  }

  // ----- Its application

  function EntriesOf(s: Store, kind: Kind): map<string, Entry> { if kind.Release? then s.releases else s.backups }

  function Without(s: Store, t: Target): Store {
    match t.kind
    case Release => s.(releases := s.releases - {t.release})
    case Backup => s.(backups := s.backups - {t.release})
  }

  /** `_remove_artifact_target`: only a managed real directory that is still there is removed. */
  function RemoveTarget(s: Store, t: Target, faulty: set<Target>): Outcome<Store> {
    if !IsReleaseId(t.release) || !Exists(EntriesOf(s, t.kind), t.release) || t in faulty then Refused
    else Ok(Without(s, t))
  }

  /** The result of an application: the store, the targets removed, and whether all were. */
  datatype Applied = Applied(store: Store, removed: seq<Target>, completed: bool)

  function ApplyTargets(s: Store, targets: seq<Target>, faulty: set<Target>): Applied
    decreases |targets|
  {
    if targets == [] then Applied(s, [], true)
    else
      match RemoveTarget(s, targets[0], faulty)
      case Refused => Applied(s, [], false)
      case Ok(t) =>
        var rest := ApplyTargets(t, targets[1..], faulty);
        rest.(removed := [targets[0]] + rest.removed)
  }

  /** `apply_cleanup_plan` without Docker images. `faulty` are the targets whose removal fails. */
  function ApplyPlan(s: Store, plan: Plan, faulty: set<Target>): Applied {
    if CollectProtected(s) != Ok(plan.protected) then Applied(s, [], false) else ApplyTargets(s, plan.targets, faulty)
  }

  // ----- Targets as names

  function NamesOf(targets: seq<Target>, kind: Kind): set<string> { set t <- targets | t.kind == kind :: t.release }

  lemma {:induction false} TagNames(kind: Kind, names: seq<string>)
    ensures |Tag(kind, names)| == |names|
    ensures forall i :: 0 <= i < |names| ==> Tag(kind, names)[i] == Target(kind, names[i])
  {
    if names != [] { TagNames(kind, names[1..]); }
  }

  lemma {:induction false} TagPrefix(kind: Kind, names: seq<string>, i: nat)
    requires i <= |names|
    ensures |Tag(kind, names)| == |names|
    ensures Tag(kind, names)[..i] == Tag(kind, names[..i]) && Tag(kind, names)[i..] == Tag(kind, names[i..])
  {
    TagNames(kind, names);
    TagNames(kind, names[..i]);
    TagNames(kind, names[i..]);
  }

  lemma NamesOfTag(kind: Kind, names: seq<string>)
    ensures NamesOf(Tag(kind, names), kind) == Elements(names)
    ensures forall other :: other != kind ==> NamesOf(Tag(kind, names), other) == {}
  {
    TagNames(kind, names);
    var ts := Tag(kind, names);
    forall n | n in Elements(names) ensures n in NamesOf(ts, kind) {
      var i :| 0 <= i < |names| && names[i] == n;
      assert ts[i] in ts;
    }
    forall n | n in NamesOf(ts, kind) ensures n in Elements(names) {
      var t :| t in ts && t.kind == kind && t.release == n;
      var i :| 0 <= i < |ts| && ts[i] == t;
    }
  }

  lemma NamesOfConcat(a: seq<Target>, b: seq<Target>, kind: Kind)
    ensures NamesOf(a + b, kind) == NamesOf(a, kind) + NamesOf(b, kind)
  {}

  // ----- What an application does

  /** The store after removing targets. */
  function Removed(s: Store, targets: seq<Target>): Store {
    s.(releases := s.releases - NamesOf(targets, Release), backups := s.backups - NamesOf(targets, Backup))
  }

  /** However an application ends, the removed targets are a prefix of the plan, nothing else has changed, and it
      completes exactly when the whole plan is removed. */
  lemma {:induction false} AppliesPrefix(s: Store, targets: seq<Target>, faulty: set<Target>)
    ensures var r := ApplyTargets(s, targets, faulty);
      && r.removed <= targets
      && r.store == Removed(s, r.removed)
      && (r.completed <==> r.removed == targets)
    decreases |targets|
  {
    hide RemoveTarget;
    var r := ApplyTargets(s, targets, faulty);
    if targets == [] {
      assert NamesOf([], Release) == {} && NamesOf([], Backup) == {};
      assert s.releases - {} == s.releases && s.backups - {} == s.backups;
    } else if RemoveTarget(s, targets[0], faulty).Refused? {
      assert s.releases - {} == s.releases && s.backups - {} == s.backups;
      assert NamesOf([], Release) == {} && NamesOf([], Backup) == {};
    } else {
      var t := RemoveTarget(s, targets[0], faulty).value;
      AppliesPrefix(t, targets[1..], faulty);
      var rest := ApplyTargets(t, targets[1..], faulty);
      assert targets == [targets[0]] + targets[1..];
      NamesOfConcat([targets[0]], rest.removed, Release);
      NamesOfConcat([targets[0]], rest.removed, Backup);
      OneRemoved(s, targets[0], faulty);
      assert Removed(t, rest.removed) == Removed(s, [targets[0]] + rest.removed);
    }
  }

  lemma OneRemoved(s: Store, t: Target, faulty: set<Target>)
    requires RemoveTarget(s, t, faulty).Ok?
    ensures RemoveTarget(s, t, faulty).value == Removed(s, [t])
  {
    assert NamesOf([t], t.kind) == {t.release};
    assert forall other :: other != t.kind ==> NamesOf([t], other) == {};
    assert s.releases - {} == s.releases && s.backups - {} == s.backups;
  }

  /** The protected releases read from a store stay the same when others go. */
  lemma ProtectedStay(s: Store, t: Store, protected: set<string>)
    requires CollectProtected(s) == Ok(protected) && t.pointers == s.pointers
    requires forall n :: Exists(t.releases, n) ==> Exists(s.releases, n)
    requires forall n <- protected :: Exists(t.releases, n)
    ensures CollectProtected(t) == Ok(protected)
  {
    hide IsReleaseId;
  }

  /** At every point of an application, however far it got and whatever changed since the plan was made, every protected
      release is still there and the pointers still protect the same releases. */
  lemma ProtectedSurvive(planned: Store, keepRecent: int, keepDailyDays: int, s: Store, i: nat)
    requires BuildPlan(planned, keepRecent, keepDailyDays).Ok?
    requires var plan := BuildPlan(planned, keepRecent, keepDailyDays).value;
      i <= |plan.targets| && CollectProtected(s) == Ok(plan.protected)
    ensures var plan := BuildPlan(planned, keepRecent, keepDailyDays).value; var t := Removed(s, plan.targets[..i]);
      && (forall p <- plan.protected :: Exists(t.releases, p))
      && CollectProtected(t) == Ok(plan.protected)
  {
    hide CollectProtected, IsReleaseId, Targets;
    var plan := BuildPlan(planned, keepRecent, keepDailyDays).value;
    var releases := Sorted(Managed(planned.releases).value);
    var backups := Sorted(Managed(planned.backups).value);
    var targets := Targets(releases, plan.protected, keepRecent, keepDailyDays);
    TargetsPartition(releases, plan.protected, keepRecent, keepDailyDays);
    NamesOfTag(Release, targets);
    NamesOfTag(Backup, Targets(backups, plan.protected, keepRecent, keepDailyDays));
    NamesOfConcat(Tag(Release, targets), Tag(Backup, Targets(backups, plan.protected, keepRecent, keepDailyDays)), Release);
    var gone := NamesOf(plan.targets[..i], Release);
    forall n | n in gone ensures n !in plan.protected {
      assert n in NamesOf(plan.targets, Release);
    }
    ProtectedExist(s);
    ProtectedStay(s, Removed(s, plan.targets[..i]), plan.protected);
  }

  lemma ProtectedExist(s: Store)
    requires CollectProtected(s).Ok?
    ensures forall p <- CollectProtected(s).value :: Exists(s.releases, p)
  {}

  // ----- The plan after removals

  lemma ManagedWithout(entries: map<string, Entry>, gone: set<string>)
    requires Managed(entries).Ok?
    ensures Managed(entries - gone) == Ok(Managed(entries).value - gone)
    ensures Sorted(Managed(entries).value - gone) == Drop(Sorted(Managed(entries).value), gone)
  {
    hide IsReleaseId, Before;
    var names := Managed(entries).value;
    assert (set n <- entries - gone | IsReleaseId(n)) == names - gone;
    DropElements(Sorted(names), gone);
    DropAscending(Sorted(names), gone);
    SortedUnique(Sorted(names - gone), Drop(Sorted(names), gone));
  }

  lemma SplitTargets(a: seq<Target>, b: seq<Target>, i: nat)
    requires i <= |a + b|
    ensures var j := if i <= |a| then i else |a|; var h := i - j;
      && h <= |b| && (a + b)[..i] == a[..j] + b[..h] && (a + b)[i..] == a[j..] + b[h..]
  {}

  /** After any part of the planned removals, in particular after an aborted application, a fresh plan with the same
      parameters has exactly the remaining targets; after all of them it has none. */
  lemma FreshPlan(s: Store, keepRecent: int, keepDailyDays: int, i: nat)
    requires BuildPlan(s, keepRecent, keepDailyDays).Ok?
    requires i <= |BuildPlan(s, keepRecent, keepDailyDays).value.targets|
    ensures var plan := BuildPlan(s, keepRecent, keepDailyDays).value;
      var again := BuildPlan(Removed(s, plan.targets[..i]), keepRecent, keepDailyDays);
      again.Ok? && again.value.targets == plan.targets[i..] && again.value.protected == plan.protected
  {
    hide CollectProtected, Managed, Targets, Recent, Anchors, Tag, NamesOf, Drop;
    var plan := BuildPlan(s, keepRecent, keepDailyDays).value;
    var p := plan.protected;
    var releases, backups := Sorted(Managed(s.releases).value), Sorted(Managed(s.backups).value);
    var x, y := Targets(releases, p, keepRecent, keepDailyDays), Targets(backups, p, keepRecent, keepDailyDays);
    SplitTargets(Tag(Release, x), Tag(Backup, y), i);
    TagPrefix(Release, x, |x|);
    TagPrefix(Backup, y, |y|);
    var j := if i <= |x| then i else |x|;
    var h := i - j;
    TagPrefix(Release, x, j);
    TagPrefix(Backup, y, h);
    NamesOfTag(Release, x[..j]);
    NamesOfTag(Backup, y[..h]);
    NamesOfConcat(Tag(Release, x[..j]), Tag(Backup, y[..h]), Release);
    NamesOfConcat(Tag(Release, x[..j]), Tag(Backup, y[..h]), Backup);
    assert Backup != Release;
    var t := Removed(s, plan.targets[..i]);
    assert t.releases == s.releases - Elements(x[..j]) && t.backups == s.backups - Elements(y[..h]);
    ManagedWithout(s.releases, Elements(x[..j]));
    ManagedWithout(s.backups, Elements(y[..h]));
    PlanShrinks(releases, p, keepRecent, keepDailyDays, j);
    PlanShrinks(backups, p, keepRecent, keepDailyDays, h);
    ProtectedSurvive(s, keepRecent, keepDailyDays, s, i);
  }

  lemma {:induction false} TargetsThere(s: Store, targets: seq<Target>)
    requires forall t <- targets :: IsReleaseId(t.release) && Exists(EntriesOf(s, t.kind), t.release)
    requires AllDistinct(targets)
    ensures ApplyTargets(s, targets, {}).completed
    decreases |targets|
  {
    hide IsReleaseId;
    if targets != [] {
      var u := Without(s, targets[0]);
      assert targets[0] in targets;
      forall t | t in targets[1..] ensures Exists(EntriesOf(u, t.kind), t.release) {
        var i :| 0 <= i < |targets[1..]| && targets[1..][i] == t;
        assert targets[i + 1] == t && t in targets && t != targets[0];
      }
      assert forall t <- targets[1..] :: t in targets;
      TargetsThere(u, targets[1..]);
    }
  }

  predicate AllDistinct<T(==)>(xs: seq<T>) { forall i, j :: 0 <= i < j < |xs| ==> xs[i] != xs[j] }

  /** The targets of one artifact root are managed directories, each once. */
  lemma TargetsManaged(entries: map<string, Entry>, protected: set<string>, k: nat, d: nat)
    requires Managed(entries).Ok?
    ensures var x := Targets(Sorted(Managed(entries).value), protected, k, d);
      && (forall n <- x :: IsReleaseId(n) && Exists(entries, n))
      && AllDistinct(x)
  {
    hide IsReleaseId, Before, Retained;
    var names := Sorted(Managed(entries).value);
    var kept := Retained(names, protected, k, d);
    DropElements(names, kept);
    DropAscending(names, kept);
    var x := Targets(names, protected, k, d);
    Distinct(x);
    forall n | n in x ensures IsReleaseId(n) && Exists(entries, n) { assert n in Elements(x); }
  }

  lemma TagsDistinct(x: seq<string>, y: seq<string>)
    requires AllDistinct(x) && AllDistinct(y)
    ensures var ts := Tag(Release, x) + Tag(Backup, y);
      && AllDistinct(ts)
      && (forall t <- ts :: t.release in if t.kind.Release? then x else y)
  {
    TagNames(Release, x);
    TagNames(Backup, y);
  }

  lemma PlanTargets(s: Store, keepRecent: int, keepDailyDays: int)
    requires BuildPlan(s, keepRecent, keepDailyDays).Ok?
    ensures var targets := BuildPlan(s, keepRecent, keepDailyDays).value.targets;
      && (forall t <- targets :: IsReleaseId(t.release) && Exists(EntriesOf(s, t.kind), t.release))
      && AllDistinct(targets)
  {
    hide CollectProtected, IsReleaseId, Targets, Managed, Tag, Exists, Anchors, Recent, AllDistinct;
    var p := BuildPlan(s, keepRecent, keepDailyDays).value.protected;
    TargetsManaged(s.releases, p, keepRecent, keepDailyDays);
    TargetsManaged(s.backups, p, keepRecent, keepDailyDays);
    TagsDistinct(Targets(Sorted(Managed(s.releases).value), p, keepRecent, keepDailyDays),
                 Targets(Sorted(Managed(s.backups).value), p, keepRecent, keepDailyDays));
  }

  lemma Distinct(names: seq<string>)
    requires Ascending(names)
    ensures AllDistinct(names)
  {
    hide Before;
    forall i, j | 0 <= i < j < |names| ensures names[i] != names[j] {
      NotBeforeSelf(names[i]);
    }
  }

  /** A plan applied to the store it was made for, without faults, removes exactly its targets, and there is nothing
      left to do. */
  lemma CleanupReachesFixpoint(s: Store, keepRecent: int, keepDailyDays: int)
    requires BuildPlan(s, keepRecent, keepDailyDays).Ok?
    ensures var plan := BuildPlan(s, keepRecent, keepDailyDays).value; var r := ApplyPlan(s, plan, {});
      && r.completed && r.removed == plan.targets && r.store == Removed(s, plan.targets)
      && CollectProtected(r.store) == CollectProtected(s)
      && BuildPlan(r.store, keepRecent, keepDailyDays).Ok?
      && BuildPlan(r.store, keepRecent, keepDailyDays).value.targets == []
  {
    hide CollectProtected, Managed, PlanFor, ApplyTargets;
    var plan := BuildPlan(s, keepRecent, keepDailyDays).value;
    assert CollectProtected(s) == Ok(plan.protected) by { PlanProtects(s, keepRecent, keepDailyDays); }
    PlanTargets(s, keepRecent, keepDailyDays);
    TargetsThere(s, plan.targets);
    AppliesPrefix(s, plan.targets, {});
    var n := |plan.targets|;
    assert plan.targets[..n] == plan.targets && plan.targets[n..] == [];
    FreshPlan(s, keepRecent, keepDailyDays, n);
    ProtectedSurvive(s, keepRecent, keepDailyDays, s, n);
  }

  lemma PlanProtects(s: Store, keepRecent: int, keepDailyDays: int)
    requires BuildPlan(s, keepRecent, keepDailyDays).Ok?
    ensures CollectProtected(s) == Ok(BuildPlan(s, keepRecent, keepDailyDays).value.protected)
  {
    hide CollectProtected, Managed;
  }
}
