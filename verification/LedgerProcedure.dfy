module LedgerProcedure {

  // The procedures of the break-glass consumer: the bounded read of the approval artifact, and `consume_approval`
  // itself as a run of the ledger machine.

  import opened Options
  import opened Ledger
  import opened LedgerSafety

  const MAX_APPROVAL_BYTES := 16384
  const CHUNK := 8192

  datatype ReadError = TooLarge
  datatype ReadResult = Ok(payload: Bytes) | Err(error: ReadError)

  function Min(a: nat, b: nat): nat { if a < b then a else b }

  /** `_read_regular_file`: `size` is the length the file had when it was examined, `file` what the reads find. Every
      read may return fewer bytes than asked for, but none only at the end of the file. */
  method ReadRegularFile(size: nat, file: Bytes) returns (r: ReadResult)
    ensures r.Ok? <==> size <= 16384 && |file| <= 16384
    ensures r.Ok? ==> r.payload == file
  {
    if size > MAX_APPROVAL_BYTES {
      return Err(TooLarge);
    }
    var payload: Bytes := [];
    var remaining := MAX_APPROVAL_BYTES + 1;
    while remaining > 0
      invariant 0 <= remaining <= MAX_APPROVAL_BYTES + 1
      invariant |payload| == MAX_APPROVAL_BYTES + 1 - remaining
      invariant payload <= file
    {
      var most := Min(Min(remaining, CHUNK), |file| - |payload|);
      if most == 0 {
        break;
      }
      var n :| 1 <= n <= most;
      var chunk := file[|payload|..|payload| + n];
      payload := payload + chunk;
      remaining := remaining - n;
    }
    if |payload| > MAX_APPROVAL_BYTES {
      return Err(TooLarge);
    }
    assert remaining > 0 && |file| - |payload| == 0;
    return Ok(payload);
  }

  /** The calls of `consume_approval` that may fail. */
  datatype Point =
    | Stat | Open | WriteCall | SyncTemporary | AfterTempFsync | LinkCall | SyncLedger | AfterPublish | UnlinkCall | SyncLast

  /** The machine's choice at a call: the fault, if the call fails. */
  function At(faults: set<Point>, p: Point): Choice { if p in faults then Fault else Proceed }

  lemma {:induction false} RunSnoc(s: State, actions: seq<Action>, a: Action)
    ensures Run(s, actions + [a]) == Step(Run(s, actions), a)
  {
    hide Step;
    RunConcat(s, actions, [a]);
    assert [a][1..] == [];
  }

  /** The consumer's own view of a run. */
  ghost predicate InRun(s0: State, actions: seq<Action>, s: State, id: nat) {
    s == Run(s0, actions) && Valid(s) && id in s.consumers
  }

  /** One more step of the consumer. */
  ghost method Extend(s0: State, actions: seq<Action>, s: State, id: nat, choice: Choice) returns (more: seq<Action>)
    requires InRun(s0, actions, s, id)
    ensures more == actions + [Advance(id, choice)] && InRun(s0, more, Progress(s, id, choice), id)
  {
    hide Valid, Run, Progress;
    more := actions + [Advance(id, choice)];
    RunSnoc(s0, actions, Advance(id, choice));
    ProgressKeeps(s, id, choice);
    ConsumersStay(s, id, choice);
  }

  lemma ConsumersStay(s: State, id: nat, choice: Choice)
    requires id in s.consumers
    ensures id in Progress(s, id, choice).consumers
  {}

  lemma Known(s0: State, actions: seq<Action>, s: State, id: nat)
    requires InRun(s0, actions, s, id)
    ensures id in s.consumers
  {
    hide Valid, Run;
  }

  /** The write calls take all of the remaining `n` bytes: none of those made returns zero. */
  predicate TakesAll(pieces: seq<nat>, n: nat)
    decreases |pieces|
  {
    n == 0 || pieces == [] || (pieces[0] > 0 && TakesAll(pieces[1..], if pieces[0] < n then n - pieces[0] else 0))
  }

  /** The pieces from the `i`-th on. */
  function From(pieces: seq<nat>, i: nat): seq<nat> { if i < |pieces| then pieces[i..] else [] }

  /** One write call. */
  lemma TakesNext(pieces: seq<nat>, i: nat, left: nat)
    requires left > 0
    ensures var n := if i < |pieces| then Min(pieces[i], left) else left;
      && n <= left
      && (n == 0 ==> !TakesAll(From(pieces, i), left))
      && (n > 0 ==> (TakesAll(From(pieces, i), left) <==> TakesAll(From(pieces, i + 1), left - n)))
  {
    if i < |pieces| { assert From(pieces, i)[1..] == From(pieces, i + 1); }
  }

  lemma TakesEnds(pieces: seq<nat>, i: nat)
    ensures TakesAll(From(pieces, i), 0) && From(pieces, 0) == pieces
  {}

  /** A record is written when it is empty, or its write calls neither fail nor return zero. */
  predicate WritesAll(encoded: Bytes, pieces: seq<nat>, faults: set<Point>) {
    encoded == [] || (WriteCall !in faults && TakesAll(pieces, |encoded|))
  }

  /** Since `s1` the consumer only wrote, and `left` bytes of its record are left. */
  predicate HasLeft(s1: State, s: State, id: nat, left: nat) {
    && id in s1.consumers && id in s.consumers && s.dir == s1.dir && left <= |s1.consumers[id].encoded|
    && s.consumers[id] == s1.consumers[id].(phase := Writing(|s1.consumers[id].encoded| - left))
  }

  lemma LeftFacts(s1: State, s: State, id: nat, left: nat)
    requires HasLeft(s1, s, id, left)
    ensures id in s.consumers && Holds(s.consumers[id]) && id in s1.consumers
    ensures s.dir == s1.dir && left <= |s1.consumers[id].encoded|
    ensures s.consumers[id] == s1.consumers[id].(phase := Writing(|s1.consumers[id].encoded| - left))
  {}

  /** A consumer that writes: one more piece, or the failure path. */
  lemma WriteSteps(s1: State, s: State, id: nat, left: nat, n: nat)
    requires HasLeft(s1, s, id, left) && n <= left && s.consumers[id].inode < |s.files|
    ensures n > 0 ==> HasLeft(s1, Progress(s, id, Write(n)), id, left - n)
    ensures id in Progress(s, id, Fault).consumers && Progress(s, id, Fault).dir == s1.dir
    ensures Progress(s, id, Fault).consumers[id] == s1.consumers[id].(phase := Cleaning(Failed))
  {}

  lemma NothingWritten(s1: State, id: nat)
    requires id in s1.consumers && s1.consumers[id].phase == Writing(0)
    ensures HasLeft(s1, s1, id, |s1.consumers[id].encoded|)
  {}

  /** The write loop: `pieces` says how much each call writes, a call beyond them writes the rest, and zero makes the
      call fail. */
  method WriteRecord(s0: State, ghost before: seq<Action>, s1: State, id: nat, pieces: seq<nat>, faults: set<Point>)
    returns (s: State, ghost actions: seq<Action>, written: bool)
    requires InRun(s0, before, s1, id) && s1.consumers[id].phase == Writing(0)
    ensures InRun(s0, actions, s, id) && id in s.consumers && s.dir == s1.dir
    ensures s.consumers[id] == s1.consumers[id].(phase := s.consumers[id].phase)
    ensures written ==> s.consumers[id].phase == Writing(|s.consumers[id].encoded|)
    ensures !written ==> s.consumers[id].phase == Cleaning(Failed)
    ensures written <==> WritesAll(s.consumers[id].encoded, pieces, faults)
  {
    Known(s0, before, s1, id);
    hide Valid, Run, InRun, TakesAll, From, Progress, HasLeft, Holds;
    TakesEnds(pieces, 0);
    NothingWritten(s1, id);
    s := s1;
    actions := before;
    var view := s.consumers[id].encoded;
    var i := 0;
    while |view| > 0
      invariant InRun(s0, actions, s, id) && HasLeft(s1, s, id, |view|)
      invariant TakesAll(pieces, |s1.consumers[id].encoded|) <==> TakesAll(From(pieces, i), |view|)
      invariant |view| == |s1.consumers[id].encoded| || WriteCall !in faults
      invariant |view| > 0 ==> s1.consumers[id].encoded != []
      decreases |view|
    {
      var n := if i < |pieces| then Min(pieces[i], |view|) else |view|;
      TakesNext(pieces, i, |view|);
      LeftFacts(s1, s, id, |view|);
      InodeOf(s0, actions, s, id);
      WriteSteps(s1, s, id, |view|, n);
      if WriteCall in faults || n == 0 {
        actions := Extend(s0, actions, s, id, Fault);
        s := Progress(s, id, Fault);
        return s, actions, false;
      }
      actions := Extend(s0, actions, s, id, Write(n));
      s := Progress(s, id, Write(n));
      view := view[n..];
      i := i + 1;
    }
    LeftFacts(s1, s, id, 0);
    TakesEnds(pieces, i);
    written := true;
  }

  lemma InodeOf(s0: State, actions: seq<Action>, s: State, id: nat)
    requires InRun(s0, actions, s, id) && Holds(s.consumers[id])
    ensures s.consumers[id].inode < |s.files|
    ensures Lookup(s.dir, Temp(s.consumers[id].token)) == Some(s.consumers[id].inode)
  {
    hide Run;
    assert ConsumerOk(s, s.consumers[id]);
  }

  /** The calls between the writes and the new name. */
  const BeforeLink := {SyncTemporary, AfterTempFsync, LinkCall}

  /** From the open temporary file to the start of the cleanup: a record whose name is new fails after all when the ledger
      cannot be synced or the last hook raises. */
  method Publish(s0: State, ghost before: seq<Action>, s1: State, id: nat, pieces: seq<nat>, faults: set<Point>)
    returns (s: State, ghost actions: seq<Action>)
    requires InRun(s0, before, s1, id) && s1.consumers[id].phase == Writing(0)
    ensures InRun(s0, actions, s, id) && id in s.consumers
    ensures s.consumers[id] == s1.consumers[id].(phase := s.consumers[id].phase)
    ensures var links := WritesAll(s1.consumers[id].encoded, pieces, faults) && BeforeLink !! faults;
      && s.consumers[id].phase ==
           Cleaning(if !links then Failed
                    else if Final in s1.dir then Replayed
                    else if SyncLedger in faults || AfterPublish in faults then Failed
                    else Returned)
      && (Final in s.dir <==> Final in s1.dir || links)
    ensures forall n :: n != Final ==> Lookup(s.dir, n) == Lookup(s1.dir, n)
  {
    hide Valid, Run, InRun, WritesAll;
    var written;
    s, actions, written := WriteRecord(s0, before, s1, id, pieces, faults);
    if !written {
      return;
    }
    InodeOf(s0, actions, s, id);
    actions := Extend(s0, actions, s, id, At(faults, SyncTemporary));
    s := Progress(s, id, At(faults, SyncTemporary));
    if SyncTemporary in faults {
      return;
    }
    if AfterTempFsync in faults || LinkCall in faults {
      actions := Extend(s0, actions, s, id, Fault);
      s := Progress(s, id, Fault);
      return;
    }
    InodeOf(s0, actions, s, id);
    actions := Extend(s0, actions, s, id, Proceed);
    s := Progress(s, id, Proceed);
    if s.consumers[id].phase != Flushing {
      return;
    }
    actions := Extend(s0, actions, s, id, At(faults, SyncLedger));
    s := Progress(s, id, At(faults, SyncLedger));
    if SyncLedger in faults {
      return;
    }
    actions := Extend(s0, actions, s, id, At(faults, AfterPublish));
    s := Progress(s, id, At(faults, AfterPublish));
  }

  /** The outermost `finally`: unlink the temporary file and sync the directory. */
  method CleanUp(s0: State, ghost before: seq<Action>, s1: State, id: nat, faults: set<Point>)
    returns (s: State, ghost actions: seq<Action>)
    requires InRun(s0, before, s1, id) && id in s1.consumers && s1.consumers[id].phase.Cleaning?
    ensures InRun(s0, actions, s, id) && id in s.consumers
    ensures s.consumers[id] == s1.consumers[id].(phase := s.consumers[id].phase)
    ensures s.consumers[id].phase
         == Done(if UnlinkCall in faults || SyncLast in faults then Failed else s1.consumers[id].phase.outcome)
    ensures Temp(s1.consumers[id].token) in s.dir <==> UnlinkCall in faults
    ensures forall n :: n != Temp(s1.consumers[id].token) ==> Lookup(s.dir, n) == Lookup(s1.dir, n)
  {
    hide Valid, Run, InRun;
    InodeOf(s0, before, s1, id);
    actions := Extend(s0, before, s1, id, At(faults, UnlinkCall));
    s := Progress(s1, id, At(faults, UnlinkCall));
    if s.consumers[id].phase.Settling? {
      actions := Extend(s0, actions, s, id, At(faults, SyncLast));
      s := Progress(s, id, At(faults, SyncLast));
    }
  }

  /** `consume_approval` after its arguments are checked, without interference. `faults` are the calls that fail, the
      fault hook's two included. The result is a run of the ledger machine, and its outcome is what the caller sees. */
  method Consume(s0: State, id: nat, token: string, encoded: Bytes, pieces: seq<nat>, faults: set<Point>)
    returns (s: State, outcome: Outcome, ghost actions: seq<Action>)
    requires Valid(s0) && id !in s0.consumers
    ensures s == Run(s0, actions) && Valid(s)
    ensures id in s.consumers && s.consumers[id].phase == Done(outcome) && s.consumers[id].encoded == encoded
    ensures outcome == Returned ==> Record(s) == Some(encoded) && Permanent(s)
    ensures outcome == Replayed <==> Final in s0.dir && Stat !in faults
    ensures outcome == Returned <==>
      && Final !in s0.dir && Temp(token) !in s0.dir && WritesAll(encoded, pieces, faults)
      && faults !! {Stat, Open, SyncTemporary, AfterTempFsync, LinkCall, SyncLedger, AfterPublish, UnlinkCall, SyncLast}
    ensures Final in s0.dir ==> s.dir == s0.dir && s.files == s0.files
    ensures Final !in s0.dir ==>
      (Final in s.dir <==>
         && Temp(token) !in s0.dir && WritesAll(encoded, pieces, faults)
         && faults !! {Stat, Open, SyncTemporary, AfterTempFsync, LinkCall})
    ensures Temp(token) in s.dir <==>
      Temp(token) in s0.dir || (Final !in s0.dir && Stat !in faults && Open !in faults && UnlinkCall in faults)
  {
    hide Valid, Run, InRun, Record, Permanent;
    actions := [Start(id, token, encoded)];
    s := s0.(consumers := s0.consumers[id := Consumer(token, encoded, Checking, 0)], records := s0.records + {encoded});
    Started(s0, id, token, encoded);
    actions := Extend(s0, actions, s, id, At(faults, Stat));
    s := Progress(s, id, At(faults, Stat));
    var temporaryCreated := false;
    if s.consumers[id].phase == Creating {
      actions := Extend(s0, actions, s, id, At(faults, Open));
      s := Progress(s, id, At(faults, Open));
      if s.consumers[id].phase == Writing(0) {
        temporaryCreated := true;
        s, actions := Publish(s0, actions, s, id, pieces, faults);
      }
    }
    if temporaryCreated {
      ghost var published := s;
      s, actions := CleanUp(s0, actions, s, id, faults);
      assert Lookup(s.dir, Final) == Lookup(published.dir, Final);
    }
    outcome := s.consumers[id].phase.outcome;
    Finished(s0, actions, s, id);
  }

  lemma Finished(s0: State, actions: seq<Action>, s: State, id: nat)
    requires InRun(s0, actions, s, id)
    ensures s == Run(s0, actions) && Valid(s)
    ensures s.consumers[id].phase == Done(Returned) ==> Record(s) == Some(s.consumers[id].encoded) && Permanent(s)
  {
    hide Run;
    if HasReturned(s, id) {
      ReturnedIsDurable(s, id, []);
      assert ConsumerOk(s, s.consumers[id]);
    }
  }

  lemma Started(s0: State, id: nat, token: string, encoded: Bytes)
    requires Valid(s0) && id !in s0.consumers
    ensures InRun(s0, [Start(id, token, encoded)],
                  s0.(consumers := s0.consumers[id := Consumer(token, encoded, Checking, 0)],
                      records := s0.records + {encoded}), id)
  {
    hide Valid;
    StartKeeps(s0, id, token, encoded);
    var a := Start(id, token, encoded);
    assert [a][1..] == [];
    assert Run(Step(s0, a), []) == Step(s0, a);
    assert Run(s0, [a]) == Run(Step(s0, a), [a][1..]);
  }
}
