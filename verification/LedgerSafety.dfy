module LedgerSafety {

  // Exactly-once publication and crash durability of the break-glass ledger, over every interleaving.

  import opened Options
  import opened Ledger

  // ----- Every step keeps the invariant

  lemma StartKeeps(s: State, id: nat, token: string, encoded: Bytes)
    requires Valid(s)
    ensures Valid(Step(s, Start(id, token, encoded)))
  {
    var t := Step(s, Start(id, token, encoded));
    if id !in s.consumers {
      forall x | x in t.consumers ensures ConsumerOk(t, t.consumers[x]) {
        if x != id { assert ConsumerOk(s, s.consumers[x]); }
      }
      forall a, b | a in t.consumers && b in t.consumers && a != b ensures Apart(t, a, b) {
        if a != id && b != id { assert Apart(s, a, b); }
      }
    }
  }

  /** A change of one consumer's phase that claims no more than before. */
  lemma PhaseKeeps(s: State, id: nat, phase: Phase)
    requires Valid(s) && id in s.consumers
    requires var before := s.consumers[id].phase;
      && !phase.Writing? && !phase.Linking?
      && (Holds(s.consumers[id].(phase := phase)) ==> Holds(s.consumers[id]))
      && (Linked(phase) ==> Linked(before)) && (Flushed(phase) ==> Flushed(before))
    ensures Valid(To(s, id, phase))
  {
    var t := To(s, id, phase);
    assert ConsumerOk(s, s.consumers[id]);
    forall x | x in t.consumers ensures ConsumerOk(t, t.consumers[x]) {
      assert ConsumerOk(s, s.consumers[x]);
    }
    forall a, b | a in t.consumers && b in t.consumers && a != b ensures Apart(t, a, b) {
      assert Apart(s, a, b);
    }
  }

  lemma CreateKeeps(s: State, id: nat)
    requires Valid(s) && id in s.consumers && s.consumers[id].phase.Creating?
    ensures Valid(Create(s, id))
  {
    var c, t := s.consumers[id], Create(s, id);
    if Temp(c.token) in s.dir {
      PhaseKeeps(s, id, Done(Failed));
    } else {
      forall x | x in t.consumers ensures ConsumerOk(t, t.consumers[x]) {
        assert ConsumerOk(s, s.consumers[x]);
      }
      forall a, b | a in t.consumers && b in t.consumers && a != b ensures Apart(t, a, b) {
        assert Apart(s, a, b) && ConsumerOk(s, s.consumers[a]) && ConsumerOk(s, s.consumers[b]);
      }
    }
  }

  lemma WriteKeeps(s: State, id: nat, n: nat)
    requires Valid(s) && id in s.consumers && s.consumers[id].phase.Writing?
    ensures Valid(WriteSome(s, id, s.consumers[id].phase.done, n))
  {
    var c := s.consumers[id];
    var done := c.phase.done;
    var t := WriteSome(s, id, done, n);
    assert ConsumerOk(s, c);
    if 0 < n && done + n <= |c.encoded| {
      assert c.encoded[..done] + c.encoded[done..done + n] == c.encoded[..done + n];
      FileKeeps(s, id, t);
    }
  }

  /** A step that changes only the file of a holding consumer, and not under the final name. */
  lemma FileKeeps(s: State, id: nat, t: State)
    requires Valid(s) && id in s.consumers && Holds(s.consumers[id]) && s.consumers[id].phase.Writing?
    requires var inode := s.consumers[id].inode;
      && inode < |s.files| && |t.files| == |s.files| && t.dir == s.dir && t.limbo == s.limbo && t.records == s.records
      && (forall i :: 0 <= i < |s.files| && i != inode ==> t.files[i] == s.files[i])
      && t.consumers.Keys == s.consumers.Keys
      && (forall x <- s.consumers :: x != id ==> t.consumers[x] == s.consumers[x])
      && t.consumers[id] == s.consumers[id].(phase := t.consumers[id].phase)
      && (t.consumers[id].phase.Writing? || t.consumers[id].phase.Linking?)
      && ConsumerOk(t, t.consumers[id])
    ensures Valid(t)
  {
    assert ConsumerOk(s, s.consumers[id]);
    forall x | x in t.consumers ensures ConsumerOk(t, t.consumers[x]) {
      if x != id {
        assert ConsumerOk(s, s.consumers[x]) && Apart(s, x, id);
      }
    }
    forall a, b | a in t.consumers && b in t.consumers && a != b ensures Apart(t, a, b) {
      assert Apart(s, a, b);
    }
  }

  lemma SyncKeeps(s: State, id: nat)
    requires Valid(s) && id in s.consumers && s.consumers[id].phase == Writing(|s.consumers[id].encoded|)
    ensures Valid(SyncFile(s, id))
  {
    var c := s.consumers[id];
    assert ConsumerOk(s, c);
    assert c.encoded[..|c.encoded|] == c.encoded;
    FileKeeps(s, id, SyncFile(s, id));
  }

  lemma LinkKeeps(s: State, id: nat)
    requires Valid(s) && id in s.consumers && s.consumers[id].phase.Linking?
    ensures Valid(Link(s, id))
  {
    var c, t := s.consumers[id], Link(s, id);
    assert ConsumerOk(s, c);
    if Final in s.dir {
      PhaseKeeps(s, id, Cleaning(Replayed));
    } else {
      forall x | x in t.consumers ensures ConsumerOk(t, t.consumers[x]) {
        assert ConsumerOk(s, s.consumers[x]);
        if x != id { assert Apart(s, x, id); }
      }
      forall a, b | a in t.consumers && b in t.consumers && a != b ensures Apart(t, a, b) {
        assert Apart(s, a, b) && ConsumerOk(s, s.consumers[a]) && ConsumerOk(s, s.consumers[b]);
      }
    }
  }

  lemma UnlinkKeeps(s: State, id: nat)
    requires Valid(s) && id in s.consumers && s.consumers[id].phase.Cleaning?
    ensures Valid(Unlink(s, id, s.consumers[id].phase.outcome))
  {
    var c := s.consumers[id];
    var t := Unlink(s, id, c.phase.outcome);
    assert ConsumerOk(s, c);
    forall x | x in t.consumers ensures ConsumerOk(t, t.consumers[x]) {
      assert ConsumerOk(s, s.consumers[x]);
      if x != id { assert Apart(s, x, id); }
    }
    forall a, b | a in t.consumers && b in t.consumers && a != b ensures Apart(t, a, b) {
      assert Apart(s, a, b);
    }
  }

  /** A directory fsync. */
  lemma FlushKeeps(s: State, id: nat, phase: Phase)
    requires Valid(s) && id in s.consumers
    requires var before := s.consumers[id].phase;
      && !phase.Writing? && !phase.Linking?
      && (Holds(s.consumers[id].(phase := phase)) ==> Holds(s.consumers[id]))
      && (Linked(phase) ==> Linked(before))
    ensures Valid(To(s.(limbo := {}), id, phase))
  {
    var t := To(s.(limbo := {}), id, phase);
    assert ConsumerOk(s, s.consumers[id]);
    forall x | x in t.consumers ensures ConsumerOk(t, t.consumers[x]) {
      assert ConsumerOk(s, s.consumers[x]);
    }
    forall a, b | a in t.consumers && b in t.consumers && a != b ensures Apart(t, a, b) {
      assert Apart(s, a, b);
    }
  }

  lemma ProgressKeeps(s: State, id: nat, choice: Choice)
    requires Valid(s) && id in s.consumers
    ensures Valid(Progress(s, id, choice))
  {
    hide Valid, Create, WriteSome, SyncFile, Link, Unlink;
    var phase := s.consumers[id].phase;
    match choice
    case Fault => PhaseKeeps(s, id, Raised(phase));
    case Write(n) => if phase.Writing? { WriteKeeps(s, id, n); }
    case Proceed =>
      match phase
      case Checking => PhaseKeeps(s, id, if Final in s.dir then Done(Replayed) else Creating);
      case Creating => CreateKeeps(s, id);
      case Writing(done) => if done == |s.consumers[id].encoded| { SyncKeeps(s, id); }
      case Linking => LinkKeeps(s, id);
      case Flushing => FlushKeeps(s, id, Published);
      case Published => PhaseKeeps(s, id, Cleaning(Returned));
      case Cleaning(outcome) => UnlinkKeeps(s, id);
      case Settling(outcome) => FlushKeeps(s, id, Done(outcome));
      case Done(_) =>
  }

  lemma CrashKeeps(s: State, dir: map<Name, nat>, contents: seq<Bytes>)
    requires Valid(s)
    ensures Valid(Step(s, Crash(dir, contents)))
  {
    var t := Step(s, Crash(dir, contents));
    if Survives(s, dir, contents) {
      forall n | n in t.dir ensures t.dir[n] < |t.files| {
        assert Lookup(dir, n) == Some(dir[n]);
      }
      if Final in t.dir { assert Lookup(dir, Final) == Some(dir[Final]); }
    }
  }

  lemma StepKeeps(s: State, a: Action)
    requires Valid(s)
    ensures Valid(Step(s, a))
  {
    hide Valid, Progress;
    match a
    case Start(id, token, encoded) => StartKeeps(s, id, token, encoded);
    case Advance(id, choice) => if id in s.consumers { ProgressKeeps(s, id, choice); }
    case Crash(dir, contents) => CrashKeeps(s, dir, contents);
  }

  lemma {:induction false} RunKeeps(s: State, actions: seq<Action>)
    requires Valid(s)
    ensures Valid(Run(s, actions))
    decreases |actions|
  {
    hide Valid, Step;
    if actions != [] {
      StepKeeps(s, actions[0]);
      RunKeeps(Step(s, actions[0]), actions[1..]);
    }
  }

  lemma EmptyValid()
    ensures Valid(EMPTY)
  {}

  // ----- The record

  /** The record under the final name. */
  function Record(s: State): Option<Bytes> {
    if Final in s.dir && s.dir[Final] < |s.files| then Some(s.files[s.dir[Final]].content) else None
  }

  /** Whatever happened, crashes included: a record under the final name is the complete record of some consumer. */
  lemma RecordComplete(actions: seq<Action>)
    ensures var s := Run(EMPTY, actions); Final in s.dir ==> Record(s).Some? && Record(s).value in s.records
  {
    hide Run;
    EmptyValid();
    RunKeeps(EMPTY, actions);
  }

  predicate IsCrash(a: Action) { a.Crash? }

  /** No step but a crash changes a record, and a crash changes none that the directory fsync has seen. */
  lemma RecordStays(s: State, a: Action)
    requires Valid(s) && Final in s.dir && (IsCrash(a) ==> Permanent(s))
    ensures var t := Step(s, a);
      Final in t.dir && t.dir[Final] == s.dir[Final] && Record(t) == Record(s) && (Permanent(s) ==> Permanent(t))
  {
    match a
    case Start(_, _, _) =>
    case Crash(dir, contents) =>
      if Survives(s, dir, contents) { assert Lookup(dir, Final) == Lookup(s.dir, Final); }
    case Advance(id, choice) =>
      if id in s.consumers { assert ConsumerOk(s, s.consumers[id]); }
  }

  predicate CrashFree(actions: seq<Action>) { actions == [] || (!IsCrash(actions[0]) && CrashFree(actions[1..])) }

  /** A record never changes until a crash, and one that is permanent never changes at all. */
  lemma {:induction false} RecordForever(s: State, actions: seq<Action>)
    requires Valid(s) && Final in s.dir && (CrashFree(actions) || Permanent(s))
    ensures var t := Run(s, actions);
      Final in t.dir && Record(t) == Record(s) && (Permanent(s) ==> Permanent(t))
    decreases |actions|
  {
    hide Valid, Step, Permanent, Record;
    if actions != [] {
      StepKeeps(s, actions[0]);
      RecordStays(s, actions[0]);
      RecordForever(Step(s, actions[0]), actions[1..]);
    }
  }

  // ----- At most one consumer returns

  predicate HasReturned(s: State, id: nat) { id in s.consumers && s.consumers[id].phase == Done(Returned) }

  /** The step lets a consumer return normally. */
  ghost predicate Returns(s: State, a: Action) { a.Advance? && !HasReturned(s, a.id) && HasReturned(Step(s, a), a.id) }

  /** The consumers that return normally during a run. */
  ghost function CountReturns(s: State, actions: seq<Action>): nat
    decreases |actions|
  {
    if actions == [] then 0 else (if Returns(s, actions[0]) then 1 else 0) + CountReturns(Step(s, actions[0]), actions[1..])
  }

  /** The record is permanent and nobody is about to return. */
  ghost predicate Closed(s: State) {
    Permanent(s) && forall id <- s.consumers :: Linked(s.consumers[id].phase) ==> s.consumers[id].phase == Done(Returned)
  }

  /** With the record permanent, a consumer that has not linked never will. */
  lemma ClosedAdvance(s: State, id: nat, choice: Choice)
    requires id in s.consumers && Final in s.dir
    requires Linked(s.consumers[id].phase) ==> s.consumers[id].phase == Done(Returned)
    ensures var t := Progress(s, id, choice);
      && t.consumers.Keys == s.consumers.Keys
      && (forall x <- s.consumers :: x != id ==> t.consumers[x] == s.consumers[x])
      && (Linked(t.consumers[id].phase) ==> s.consumers[id].phase == t.consumers[id].phase == Done(Returned))
  {}

  lemma ClosedStays(s: State, a: Action)
    requires Valid(s) && Closed(s)
    ensures Closed(Step(s, a)) && !Returns(s, a)
  {
    hide Valid, Progress, Record;
    RecordStays(s, a);
    match a
    case Start(_, _, _) =>
    case Crash(_, _) =>
    case Advance(id, choice) =>
      if id in s.consumers { ClosedAdvance(s, id, choice); }
  }

  lemma ReturnCloses(s: State, a: Action)
    requires Valid(s) && Returns(s, a)
    ensures Closed(Step(s, a))
  {
    hide Step;
    var t := Step(s, a);
    StepKeeps(s, a);
    assert ConsumerOk(t, t.consumers[a.id]);
    forall x | x in t.consumers && Linked(t.consumers[x].phase) ensures t.consumers[x].phase == Done(Returned) {
      assert ConsumerOk(t, t.consumers[x]);
      assert x != a.id ==> Apart(t, x, a.id);
    }
  }

  lemma {:induction false} ClosedCount(s: State, actions: seq<Action>)
    requires Valid(s) && Closed(s)
    ensures CountReturns(s, actions) == 0
    decreases |actions|
  {
    hide Valid, Closed, Step, Returns;
    if actions != [] {
      StepKeeps(s, actions[0]);
      ClosedStays(s, actions[0]);
      ClosedCount(Step(s, actions[0]), actions[1..]);
    }
  }

  /** In every interleaving of any number of consumers, with faults and crashes anywhere, at most one returns normally.
      */
  lemma {:induction false} ReturnsOnce(s: State, actions: seq<Action>)
    requires Valid(s)
    ensures CountReturns(s, actions) <= 1
    decreases |actions|
  {
    hide Valid, Closed, Step, Returns;
    if actions != [] {
      var t := Step(s, actions[0]);
      StepKeeps(s, actions[0]);
      if Returns(s, actions[0]) {
        ReturnCloses(s, actions[0]);
        ClosedCount(t, actions[1..]);
      } else {
        ReturnsOnce(t, actions[1..]);
      }
    }
  }

  /** A consumer that has returned has its own complete record in the ledger, for good: whatever happens next, crashes
      included, the record is the one it submitted. */
  lemma ReturnedIsDurable(s: State, id: nat, actions: seq<Action>)
    requires Valid(s) && HasReturned(s, id)
    ensures Record(s) == Some(s.consumers[id].encoded)
    ensures Record(Run(s, actions)) == Record(s)
    ensures CountReturns(s, actions) == 0
  {
    hide Run, CountReturns;
    assert ConsumerOk(s, s.consumers[id]);
    RecordForever(s, actions);
    assert Closed(s) by {
      forall x | x in s.consumers && Linked(s.consumers[x].phase) ensures s.consumers[x].phase == Done(Returned) {
        assert ConsumerOk(s, s.consumers[x]);
        assert x != id ==> Apart(s, x, id);
      }
    }
    ClosedCount(s, actions);
  }

  // ----- Unlinks

  /** No consumer removes a file it did not create: a step removes at most the acting consumer's own temporary file, and
      when it cleans up, that file is there. */
  lemma OnlyOwnTemporary(s: State, id: nat, choice: Choice, n: Name)
    requires Valid(s) && id in s.consumers
    ensures var c, t := s.consumers[id], Step(s, Advance(id, choice));
      && (n in s.dir && n !in t.dir ==> n == Temp(c.token) && s.dir[n] == c.inode && c.phase.Cleaning?)
      && (n in s.dir && n in t.dir ==> t.dir[n] == s.dir[n])
    ensures s.consumers[id].phase.Cleaning? && choice == Proceed ==>
      Temp(s.consumers[id].token) in s.dir && Temp(s.consumers[id].token) !in Step(s, Advance(id, choice)).dir
  {
    assert ConsumerOk(s, s.consumers[id]);
  }

  // ----- A nonce that was not published can be consumed

  /** The writes of a record, in pieces. */
  function Writes(id: nat, pieces: seq<nat>): seq<Action> {
    if pieces == [] then [] else [Advance(id, Write(pieces[0]))] + Writes(id, pieces[1..])
  }

  predicate Cuts(pieces: seq<nat>, from: nat, to: nat) {
    if pieces == [] then from == to else 0 < pieces[0] && Cuts(pieces[1..], from + pieces[0], to)
  }

  lemma {:induction false} CutsWithin(pieces: seq<nat>, from: nat, to: nat)
    requires Cuts(pieces, from, to)
    ensures from <= to
  {
    if pieces != [] { CutsWithin(pieces[1..], from + pieces[0], to); }
  }

  /** Only this consumer's file grows, to the whole record. */
  lemma {:induction false} WritesWrite(s: State, id: nat, pieces: seq<nat>)
    requires id in s.consumers && s.consumers[id].phase.Writing? && s.consumers[id].inode < |s.files|
    requires s.consumers[id].phase.done <= |s.consumers[id].encoded|
    requires Cuts(pieces, s.consumers[id].phase.done, |s.consumers[id].encoded|)
    requires s.files[s.consumers[id].inode].content == s.consumers[id].encoded[..s.consumers[id].phase.done]
    ensures var c, t := s.consumers[id], Run(s, Writes(id, pieces));
      && t.dir == s.dir && t.limbo == s.limbo && t.records == s.records && |t.files| == |s.files|
      && id in t.consumers && t.consumers[id] == c.(phase := Writing(|c.encoded|))
      && t.files[c.inode].content == c.encoded
    decreases |pieces|
  {
    var c := s.consumers[id];
    var done := c.phase.done;
    if pieces == [] {
      assert c.encoded[..|c.encoded|] == c.encoded;
    } else {
      CutsWithin(pieces[1..], done + pieces[0], |c.encoded|);
      var a := Advance(id, Write(pieces[0]));
      var t := Step(s, a);
      assert c.encoded[..done] + c.encoded[done..done + pieces[0]] == c.encoded[..done + pieces[0]];
      WritesWrite(t, id, pieces[1..]);
      assert Writes(id, pieces)[0] == a && Writes(id, pieces)[1..] == Writes(id, pieces[1..]);
    }
  }

  lemma {:induction false} RunConcat(s: State, a: seq<Action>, b: seq<Action>)
    ensures Run(s, a + b) == Run(Run(s, a), b)
    decreases |a|
  {
    hide Step;
    if a == [] {
      assert a + b == b;
    } else {
      assert (a + b)[1..] == a[1..] + b;
      RunConcat(Step(s, a[0]), a[1..], b);
    }
  }

  function Proceeds(id: nat, n: nat): seq<Action> { if n == 0 then [] else [Advance(id, Proceed)] + Proceeds(id, n - 1) }

  lemma RunProceed(s: State, id: nat, n: nat)
    requires n > 0
    ensures Run(s, Proceeds(id, n)) == Run(Step(s, Advance(id, Proceed)), Proceeds(id, n - 1))
  {
    hide Step;
    assert Proceeds(id, n)[1..] == Proceeds(id, n - 1);
  }

  lemma RunNothing(s: State)
    ensures Run(s, []) == s
  {}

  /** From the check to an open temporary file. */
  lemma SoloOpens(s: State, id: nat, token: string, encoded: Bytes)
    requires id !in s.consumers && Final !in s.dir && Temp(token) !in s.dir
    ensures var t := Run(s, [Start(id, token, encoded)] + Proceeds(id, 2));
      && id in t.consumers && t.consumers[id] == Consumer(token, encoded, Writing(0), |s.files|)
      && |t.files| == |s.files| + 1 && t.files[|s.files|].content == []
      && t.dir == s.dir[Temp(token) := |s.files|]
  {
    var a := Start(id, token, encoded);
    var s0 := Step(s, a);
    assert ([a] + Proceeds(id, 2))[1..] == Proceeds(id, 2);
    RunProceed(s0, id, 2);
    var s1 := Step(s0, Advance(id, Proceed));
    RunProceed(s1, id, 1);
    RunNothing(Step(s1, Advance(id, Proceed)));
  }

  /** From the written record to the synced directory. */
  lemma SoloPublishes(s: State, id: nat)
    requires id in s.consumers && s.consumers[id].phase == Writing(|s.consumers[id].encoded|)
    requires var c := s.consumers[id];
      && c.inode < |s.files| && s.files[c.inode].content == c.encoded
      && Final !in s.dir && Lookup(s.dir, Temp(c.token)) == Some(c.inode)
    ensures var c, t := s.consumers[id], Run(s, Proceeds(id, 3));
      && id in t.consumers && t.consumers[id] == c.(phase := Published)
      && c.inode < |t.files| && t.files[c.inode].content == c.encoded
      && Lookup(t.dir, Final) == Some(c.inode) && Temp(c.token) in t.dir
  {
    RunProceed(s, id, 3);
    var s1 := Step(s, Advance(id, Proceed));
    RunProceed(s1, id, 2);
    var s2 := Step(s1, Advance(id, Proceed));
    RunProceed(s2, id, 1);
    RunNothing(Step(s2, Advance(id, Proceed)));
  }

  /** From the synced directory to the return. */
  lemma SoloReturns(s: State, id: nat)
    requires id in s.consumers && s.consumers[id].phase == Published && Temp(s.consumers[id].token) in s.dir
    ensures var t := Run(s, Proceeds(id, 3));
      HasReturned(t, id) && Lookup(t.dir, Final) == Lookup(s.dir, Final) && t.files == s.files
  {
    RunProceed(s, id, 3);
    var s1 := Step(s, Advance(id, Proceed));
    RunProceed(s1, id, 2);
    var s2 := Step(s1, Advance(id, Proceed));
    RunProceed(s2, id, 1);
    RunNothing(Step(s2, Advance(id, Proceed)));
  }

  /** From the written record to the end. */
  lemma SoloCloses(s: State, id: nat)
    requires id in s.consumers && s.consumers[id].phase == Writing(|s.consumers[id].encoded|)
    requires var c := s.consumers[id];
      && c.inode < |s.files| && s.files[c.inode].content == c.encoded
      && Final !in s.dir && Lookup(s.dir, Temp(c.token)) == Some(c.inode)
    ensures var t := Run(s, Proceeds(id, 3) + Proceeds(id, 3)); HasReturned(t, id) && Record(t) == Some(s.consumers[id].encoded)
  {
    hide Run, Proceeds;
    RunConcat(s, Proceeds(id, 3), Proceeds(id, 3));
    SoloPublishes(s, id);
    SoloReturns(Run(s, Proceeds(id, 3)), id);
  }

  /** The whole run of one consumer without faults. */
  function Solo(id: nat, token: string, encoded: Bytes, pieces: seq<nat>): seq<Action> {
    [Start(id, token, encoded)] + Proceeds(id, 2) + Writes(id, pieces) + (Proceeds(id, 3) + Proceeds(id, 3))
  }

  /** In any state, after a crash too, where the final name is not linked, a consumer with an unused temporary name that
      meets no fault returns normally with its record in place: leftover temporary files do no harm, and short writes do
      not matter. */
  lemma UnpublishedIsConsumable(s: State, id: nat, token: string, encoded: Bytes, pieces: seq<nat>)
    requires id !in s.consumers && Final !in s.dir && Temp(token) !in s.dir && Cuts(pieces, 0, |encoded|)
    ensures var t := Run(s, Solo(id, token, encoded, pieces)); HasReturned(t, id) && Record(t) == Some(encoded)
  {
    hide Run, Step, Writes, Proceeds;
    var a, w, b := [Start(id, token, encoded)] + Proceeds(id, 2), Writes(id, pieces), Proceeds(id, 3) + Proceeds(id, 3);
    RunConcat(s, a + w, b);
    RunConcat(s, a, w);
    SoloOpens(s, id, token, encoded);
    var s1 := Run(s, a);
    assert encoded[..0] == [];
    WritesWrite(s1, id, pieces);
    SoloCloses(Run(s1, w), id);
  }
}
