module WorkerHealth {

  // The health of the dedicated worker process: flags driven by startup, shutdown and the exit callbacks of background
  // tasks.

  /** The module's flags. `terminations` counts the scheduled terminations. */
  datatype Runtime = Runtime(started: bool, ready: bool, failed: bool, critical: set<string>, scheduled: bool,
                             terminations: nat)

  const INITIAL := Runtime(false, false, false, {}, false, 0)

  /** How a task ended. */
  datatype Exit = Cancelled | Returned | Raised

  datatype Event =
    | Begin(names: set<string>)
    | Ready
    | MarkFailed(name: string)
    | TaskExit(name: string, exit: Exit)
    | Stop

  // ----- The transitions

  function BeginTracking(s: Runtime, names: set<string>): Runtime {
    s.(started := true, ready := false, failed := false, critical := names, scheduled := false)
  }

  function MarkReady(s: Runtime): Runtime { if s.started && !s.failed then s.(ready := true) else s }

  function Fail(s: Runtime, name: string): Runtime {
    if s.started && name in s.critical then s.(ready := false, failed := true) else s
  }

  function StopTracking(s: Runtime): Runtime { s.(started := false, ready := false, scheduled := false) }

  /** The exit is ignored: a cancellation, a critical task outside tracking, or an ordinary task that just returned. */
  predicate Ignored(s: Runtime, name: string, exit: Exit) {
    exit.Cancelled? || (name in s.critical && !s.started) || (exit.Returned? && name !in s.critical)
  }

  /** `_bg_task_error`; `worker` says that this is the dedicated worker process. */
  function OnExit(s: Runtime, worker: bool, name: string, exit: Exit): Runtime {
    if Ignored(s, name, exit) then s
    else
      var t := Fail(s, name);
      if worker && !t.scheduled then t.(scheduled := true, terminations := t.terminations + 1) else t
  }

  function Step(s: Runtime, worker: bool, e: Event): Runtime {
    match e
    case Begin(names) => BeginTracking(s, names)
    case Ready => MarkReady(s)
    case MarkFailed(name) => Fail(s, name)
    case TaskExit(name, exit) => OnExit(s, worker, name, exit)
    case Stop => StopTracking(s)
  }

  function Run(s: Runtime, worker: bool, events: seq<Event>): Runtime
    decreases |events|
  {
    if events == [] then s else Run(Step(s, worker, events[0]), worker, events[1..])
  }

  /** What `health_check` demands of the flags. */
  predicate Healthy(s: Runtime) { s.started && s.ready && !s.failed }

  // ----- Every order of events

  /** Ready means that tracking has started and nothing has failed. */
  predicate Valid(s: Runtime) { s.ready ==> s.started && !s.failed }

  lemma {:induction false} RunKeeps(s: Runtime, worker: bool, events: seq<Event>)
    requires Valid(s)
    ensures Valid(Run(s, worker, events))
    decreases |events|
  {
    if events != [] { RunKeeps(Step(s, worker, events[0]), worker, events[1..]); }
  }

  /** The event makes one of these critical tasks fail. */
  predicate Breaks(e: Event, names: set<string>) {
    (e.MarkFailed? && e.name in names) || (e.TaskExit? && e.name in names && !e.exit.Cancelled?)
  }

  /** Outside of a begin the critical tasks stay the same. */
  lemma CriticalStays(s: Runtime, worker: bool, e: Event)
    requires !e.Begin?
    ensures Step(s, worker, e).critical == s.critical
  {}

  /** What an epoch leads to: the events since the last begin, by themselves. */
  predicate Up(names: set<string>, events: seq<Event>) {
    && (exists e <- events :: e.Ready?)
    && (forall e <- events :: !e.Stop? && !Breaks(e, names))
  }

  predicate NoBegin(events: seq<Event>) { forall e <- events :: !e.Begin? }

  lemma {:induction false} RunConcat(s: Runtime, worker: bool, a: seq<Event>, b: seq<Event>)
    ensures Run(s, worker, a + b) == Run(Run(s, worker, a), worker, b)
    decreases |a|
  {
    hide Step;
    if a == [] {
      assert a + b == b;
    } else {
      assert (a + b)[1..] == a[1..] + b;
      RunConcat(Step(s, worker, a[0]), worker, a[1..], b);
    }
  }

  /** Once tracking has stopped or a critical task has failed, nothing but a begin makes the worker healthy again. */
  lemma {:induction false} DownStaysDown(s: Runtime, worker: bool, events: seq<Event>)
    requires Valid(s) && (!s.started || s.failed) && NoBegin(events)
    ensures var t := Run(s, worker, events); !Healthy(t) && (!t.started || t.failed)
    decreases |events|
  {
    if events != [] {
      assert events[0] in events && forall e <- events[1..] :: e in events;
      DownStaysDown(Step(s, worker, events[0]), worker, events[1..]);
    }
  }

  /** The events of an epoch, from a state in which tracking runs and nothing has failed. */
  lemma {:induction false} EpochTells(s: Runtime, worker: bool, events: seq<Event>)
    requires Valid(s) && s.started && !s.failed && NoBegin(events)
    ensures Healthy(Run(s, worker, events)) <==>
      && (s.ready || exists e <- events :: e.Ready?)
      && (forall e <- events :: !e.Stop? && !Breaks(e, s.critical))
    decreases |events|
  {
    if events != [] {
      var e, rest := events[0], events[1..];
      var t := Step(s, worker, e);
      assert events == [e] + rest;
      assert e in events && forall x <- rest :: x in events;
      if e.Stop? || Breaks(e, s.critical) {
        DownStaysDown(t, worker, rest);
      } else {
        CriticalStays(s, worker, e);
        EpochTells(t, worker, rest);
      }
    }
  }

  /** The worker is healthy exactly when, since the last begin, it was marked ready, tracking was not stopped, and no
      critical task failed, whatever came before and in whatever order. */
  lemma HealthMeans(before: seq<Event>, names: set<string>, epoch: seq<Event>, worker: bool)
    requires NoBegin(epoch)
    ensures Healthy(Run(INITIAL, worker, before + [Begin(names)] + epoch)) <==> Up(names, epoch)
  {
    hide Step, Breaks;
    var s := Run(INITIAL, worker, before);
    RunConcat(INITIAL, worker, before + [Begin(names)], epoch);
    RunConcat(INITIAL, worker, before, [Begin(names)]);
    RunKeeps(INITIAL, worker, before);
    assert [Begin(names)][1..] == [];
    var t := Step(s, worker, Begin(names));
    assert Run(s, worker, [Begin(names)]) == t;
    BeginIs(s, worker, names);
    EpochTells(t, worker, epoch);
  }

  lemma BeginIs(s: Runtime, worker: bool, names: set<string>)
    ensures Step(s, worker, Begin(names)) == BeginTracking(s, names)
  {}

  /** Before any begin the worker is not healthy. */
  lemma NeverBegun(events: seq<Event>, worker: bool)
    requires NoBegin(events)
    ensures !Healthy(Run(INITIAL, worker, events))
  {
    DownStaysDown(INITIAL, worker, events);
  }

  predicate NoReset(events: seq<Event>) { forall e <- events :: !e.Begin? && !e.Stop? }

  /** Between resets at most one termination is scheduled, and only in the worker process. */
  lemma {:induction false} OneTermination(s: Runtime, worker: bool, events: seq<Event>)
    requires NoReset(events)
    ensures var t := Run(s, worker, events);
      && s.terminations <= t.terminations
      && t.terminations <= s.terminations + (if worker && !s.scheduled then 1 else 0)
      && (t.terminations > s.terminations ==> t.scheduled)
      && (s.scheduled ==> t.scheduled)
    decreases |events|
  {
    if events != [] {
      assert events[0] in events && forall e <- events[1..] :: e in events;
      OneTermination(Step(s, worker, events[0]), worker, events[1..]);
    }
  }

  function Resets(events: seq<Event>): nat {
    if events == [] then 0 else (if events[0].Begin? || events[0].Stop? then 1 else 0) + Resets(events[1..])
  }

  /** Over any run there is at most one termination for each reset, and one before the first. */
  lemma {:induction false} TerminationsBounded(s: Runtime, worker: bool, events: seq<Event>)
    ensures Run(s, worker, events).terminations <= s.terminations + Resets(events) + (if s.scheduled then 0 else 1)
    decreases |events|
  {
    if events != [] { TerminationsBounded(Step(s, worker, events[0]), worker, events[1..]); }
  }

  /** A failing critical task makes the worker unhealthy for the rest of the epoch; in the worker process it schedules a
      termination, unless one is scheduled already. */
  lemma CriticalFailure(s: Runtime, worker: bool, name: string, exit: Exit, events: seq<Event>)
    requires Valid(s) && s.started && name in s.critical && !exit.Cancelled? && NoBegin(events)
    ensures var t := Step(s, worker, TaskExit(name, exit));
      && t.started && !t.ready && t.failed && t.critical == s.critical && t.scheduled == (s.scheduled || worker)
      && t.terminations == s.terminations + (if worker && !s.scheduled then 1 else 0)
      && !Healthy(Run(t, worker, events))
  {
    hide Run;
    var t := Step(s, worker, TaskExit(name, exit));
    DownStaysDown(t, worker, events);
  }

  /** An exit changes nothing, now or later, when the task was cancelled, when an ordinary task just returned, or when the
      task is critical and tracking is off. */
  lemma HarmlessExit(s: Runtime, worker: bool, name: string, exit: Exit, later: seq<Event>)
    requires exit == Cancelled || (exit == Returned && name !in s.critical) || (name in s.critical && !s.started)
    ensures Run(s, worker, [TaskExit(name, exit)] + later) == Run(s, worker, later)
  {
    assert ([TaskExit(name, exit)] + later)[1..] == later;
  }

  /** Every begin and every stop lets the next failure schedule a termination again. */
  lemma ResetsRearm(s: Runtime, names: set<string>, name: string)
    ensures var t := Run(s, true, [Begin(names), TaskExit(name, Raised)]);
      t.scheduled && t.terminations == s.terminations + 1
    ensures name !in s.critical ==>
      var t := Run(s, true, [Stop, TaskExit(name, Raised)]); t.scheduled && t.terminations == s.terminations + 1
  {
    hide Step;
    RunTwo(s, Begin(names), TaskExit(name, Raised));
    RunTwo(s, Stop, TaskExit(name, Raised));
    ResetThenCrash(s, names, name);
  }

  lemma RunTwo(s: Runtime, a: Event, b: Event)
    ensures Run(s, true, [a, b]) == Step(Step(s, true, a), true, b)
  {
    hide Step;
    var t := Step(s, true, a);
    assert [a, b][1..] == [b] && [b][1..] == [];
    assert Run(s, true, [a, b]) == Run(t, true, [b]) == Run(Step(t, true, b), true, []);
  }

  lemma ResetThenCrash(s: Runtime, names: set<string>, name: string)
    ensures var t := Step(Step(s, true, Begin(names)), true, TaskExit(name, Raised));
      t.scheduled && t.terminations == s.terminations + 1
    ensures name !in s.critical ==>
      var t := Step(Step(s, true, Stop), true, TaskExit(name, Raised)); t.scheduled && t.terminations == s.terminations + 1
  {}

  /** An ordinary task that raises schedules a termination exactly in the worker process and when none is scheduled yet,
      and changes nothing else: the worker stays as healthy as it was. */
  lemma OrdinaryCrash(s: Runtime, worker: bool, name: string)
    requires name !in s.critical
    ensures var t := Step(s, worker, TaskExit(name, Raised));
      && t == s.(scheduled := s.scheduled || worker, terminations := s.terminations + if worker && !s.scheduled then 1 else 0)
      && (Healthy(t) <==> Healthy(s))
  {}

  /** A healthy worker whose termination is scheduled. */
  lemma HealthyButTerminating()
    ensures var t := Run(INITIAL, true, [Begin({"critical"}), Ready, TaskExit("ordinary", Raised)]);
      Healthy(t) && t.scheduled && t.terminations == 1
  {
    assert "ordinary"[0] != "critical"[0];
    var a, b, c := Begin({"critical"}), Ready, TaskExit("ordinary", Raised);
    assert [a, b, c][1..] == [b, c] && [b, c][1..] == [c] && [c][1..] == [];
    var s := Step(Step(INITIAL, true, a), true, b);
    assert Run(INITIAL, true, [a, b, c]) == Run(Step(INITIAL, true, a), true, [b, c]) == Run(s, true, [c]) == Step(s, true, c);
  }

  // ----- The process

  datatype Task = Task(name: string, done: bool)

  /** The names of the tasks that have not ended, in their order. */
  function Unfinished(tasks: seq<Task>): seq<string> {
    if tasks == [] then [] else (if tasks[0].done then [] else [tasks[0].name]) + Unfinished(tasks[1..])
  }

  lemma {:induction false} UnfinishedMeans(tasks: seq<Task>, name: string)
    ensures name in Unfinished(tasks) <==> exists t <- tasks :: t.name == name && !t.done
    ensures |Unfinished(tasks)| == |tasks| <==> forall t <- tasks :: !t.done
    ensures |Unfinished(tasks)| <= |tasks|
  {
    if tasks != [] {
      UnfinishedMeans(tasks[1..], name);
      assert tasks == [tasks[0]] + tasks[1..];
      assert tasks[0] in tasks && forall t <- tasks[1..] :: t in tasks;
    }
  }

  class WorkerProcess {
    const worker: bool
    var trackingStarted: bool
    var ready: bool
    var failed: bool
    var criticalTaskNames: set<string>
    var terminationScheduled: bool
    var terminations: nat

    constructor (worker: bool)
      ensures this.worker == worker && Current() == INITIAL
    {
      this.worker := worker;
      trackingStarted, ready, failed, terminationScheduled := false, false, false, false;
      criticalTaskNames, terminations := {}, 0;
    }

    function Current(): Runtime
      reads this
    {
      Runtime(trackingStarted, ready, failed, criticalTaskNames, terminationScheduled, terminations)
    }

    method BeginRuntimeTracking(names: set<string>)
      modifies this
      ensures Current() == Step(old(Current()), worker, Begin(names))
    {
      trackingStarted := true;
      ready := false;
      failed := false;
      criticalTaskNames := names;
      terminationScheduled := false;
    }

    method MarkRuntimeReady()
      modifies this
      ensures Current() == Step(old(Current()), worker, Ready)
    {
      if trackingStarted && !failed {
        ready := true;
      }
    }

    method MarkRuntimeFailed(name: string)
      modifies this
      ensures Current() == Step(old(Current()), worker, MarkFailed(name))
    {
      if trackingStarted && name in criticalTaskNames {
        ready := false;
        failed := true;
      }
    }

    method StopRuntimeTracking()
      modifies this
      ensures Current() == Step(old(Current()), worker, Stop)
    {
      trackingStarted := false;
      ready := false;
      terminationScheduled := false;
    }

    /** `_bg_task_error`. */
    method TaskStopped(name: string, exit: Exit)
      modifies this
      ensures Current() == Step(old(Current()), worker, TaskExit(name, exit))
    {
      if exit.Cancelled? {
        return;
      }
      if name in criticalTaskNames && !trackingStarted {
        return;
      }
      if exit.Returned? && name !in criticalTaskNames {
        return;
      }
      MarkRuntimeFailed(name);
      if worker {
        if terminationScheduled {
          return;
        }
        terminationScheduled := true;
        terminations := terminations + 1;
      }
    }

    /** `health_check`, without the monitors of other services. */
    method HealthCheck() returns (ok: bool)
      ensures ok <==> !worker || (trackingStarted && ready && !failed)
      ensures worker ==> (ok <==> Healthy(Current()))
    {
      if worker && (!trackingStarted || !ready || failed) {
        return false;
      }
      return true;
    }

    /** The check of the worker's startup: after one turn of the event loop, no critical task may have ended. Otherwise
        every critical task is marked failed, and the tasks that still go on are cancelled. */
    method CheckStartup(tasks: seq<Task>) returns (ok: bool, cancelled: seq<string>)
      requires worker && trackingStarted && !ready
      modifies this
      ensures ok <==>
        && (exists t <- tasks :: t.name in criticalTaskNames)
        && (forall t <- tasks :: t.name in criticalTaskNames ==> !t.done)
      ensures ok ==> Current() == Step(old(Current()), worker, Ready) && cancelled == []
      ensures !ok ==> Current() == old(Current()).(failed := old(failed) || old(criticalTaskNames) != {})
      ensures !ok ==> cancelled == Unfinished(tasks)
      ensures !ok ==> forall name :: name in cancelled <==> exists t <- tasks :: t.name == name && !t.done
      ensures ok && !old(failed) ==> Healthy(Current())
      ensures !ok ==> !Healthy(Current())
    {
      var found := false;
      var ended := false;
      var i := 0;
      while i < |tasks|
        invariant i <= |tasks|
        invariant found <==> exists t <- tasks[..i] :: t.name in criticalTaskNames
        invariant ended <==> exists t <- tasks[..i] :: t.name in criticalTaskNames && t.done
        invariant Current() == old(Current()).(failed := old(failed) || ended)
      {
        assert tasks[..i + 1] == tasks[..i] + [tasks[i]];
        if tasks[i].name in criticalTaskNames {
          found := true;
          if tasks[i].done {
            ended := true;
            MarkRuntimeFailed(tasks[i].name);
          }
        }
        i := i + 1;
      }
      assert tasks[..i] == tasks;
      if !found || ended {
        cancelled := FailStartup(tasks);
        forall name ensures name in cancelled <==> exists t <- tasks :: t.name == name && !t.done {
          UnfinishedMeans(tasks, name);
        }
        return false, cancelled;
      }
      MarkRuntimeReady();
      return true, [];
    }

    /** What the startup does when it raised. */
    method FailStartup(tasks: seq<Task>) returns (cancelled: seq<string>)
      requires worker && trackingStarted && !ready
      modifies this
      ensures Current() == old(Current()).(failed := old(failed) || old(criticalTaskNames) != {})
      ensures cancelled == Unfinished(tasks)
    {
      MarkAllFailed();
      cancelled := [];
      var i := 0;
      assert tasks[0..] == tasks;
      while i < |tasks|
        modifies {}
        invariant i <= |tasks|
        invariant Unfinished(tasks) == cancelled + Unfinished(tasks[i..])
      {
        assert tasks[i..][1..] == tasks[i + 1..];
        if !tasks[i].done {
          cancelled := cancelled + [tasks[i].name];
        }
        i := i + 1;
      }
    }

    method MarkAllFailed()
      requires trackingStarted && !ready
      modifies this
      ensures Current() == old(Current()).(failed := old(failed) || old(criticalTaskNames) != {})
    {
      var names := criticalTaskNames;
      while names != {}
        invariant names <= criticalTaskNames
        invariant Current() == old(Current()).(failed := old(failed) || names != old(criticalTaskNames))
        decreases names
      {
        var name :| name in names;
        MarkRuntimeFailed(name);
        names := names - {name};
      }
    }
  }
}
