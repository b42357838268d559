/** The break-glass ledger: consumers of one approval nonce that publish a record by exclusive temporary file, short
    writes, fsync, link, directory fsync and unlink, interleaved with each other, with faults at every step and with
    system crashes. */
module Ledger {

  import opened Options

  newtype byte = x: int | 0 <= x < 256

  type Bytes = seq<byte>

  /** The names of one nonce in the ledger directory: its record, and temporary files by their random token. */
  datatype Name = Final | Temp(token: string)

  /** A file: its content, and whether that content is on disk. */
  datatype File = File(content: Bytes, synced: bool)

  datatype Outcome = Returned | Replayed | Failed

  /** Where a consumer is in `consume_approval`, named after what it does next. */
  datatype Phase =
    | Checking | Creating
    | Writing(done: nat)
    | Linking | Flushing | Published
    | Cleaning(outcome: Outcome)
    | Settling(outcome: Outcome)
    | Done(outcome: Outcome)

  datatype Consumer = Consumer(token: string, encoded: Bytes, phase: Phase, inode: nat)

  /** `limbo` holds what names may fall back to in a crash: every value a name had since the last directory fsync.
      `records` are the records of all consumers started so far. */
  datatype State = State(files: seq<File>, dir: map<Name, nat>, limbo: set<(Name, Option<nat>)>,
                         consumers: map<nat, Consumer>, records: set<Bytes>)

  const EMPTY := State([], map[], {}, map[], {})

  datatype Choice = Proceed | Fault | Write(n: nat)

  datatype Action =
    | Start(id: nat, token: string, encoded: Bytes)
    | Advance(id: nat, choice: Choice)
    | Crash(dir: map<Name, nat>, contents: seq<Bytes>)

  function Lookup(dir: map<Name, nat>, n: Name): Option<nat> { if n in dir then Some(dir[n]) else None }

  function To(s: State, id: nat, phase: Phase): State
    requires id in s.consumers
  {
    s.(consumers := s.consumers[id := s.consumers[id].(phase := phase)])
  }

  /** A directory change: the name's old value may come back in a crash. */
  function Enter(s: State, n: Name, inode: nat): State {
    s.(dir := s.dir[n := inode], limbo := s.limbo + {(n, Lookup(s.dir, n))})
  }

  function Leave(s: State, n: Name): State {
    s.(dir := s.dir - {n}, limbo := s.limbo + {(n, Lookup(s.dir, n))})
  }

  /** The exclusive creation of the temporary file. */
  function Create(s: State, id: nat): State
    requires id in s.consumers
  {
    var c := s.consumers[id];
    if Temp(c.token) in s.dir then To(s, id, Done(Failed))
    else
      var inode := |s.files|;
      var t := Enter(s.(files := s.files + [File([], false)]), Temp(c.token), inode);
      t.(consumers := t.consumers[id := c.(phase := Writing(0), inode := inode)])
  }

  function WriteSome(s: State, id: nat, done: nat, n: nat): State
    requires id in s.consumers
  {
    var c := s.consumers[id];
    if 0 < n && done + n <= |c.encoded| && c.inode < |s.files| then
      var f := s.files[c.inode];
      To(s.(files := s.files[c.inode := File(f.content + c.encoded[done..done + n], false)]), id, Writing(done + n))
    else s
  }

  function SyncFile(s: State, id: nat): State
    requires id in s.consumers
  {
    var c := s.consumers[id];
    if c.inode < |s.files| then To(s.(files := s.files[c.inode := s.files[c.inode].(synced := true)]), id, Linking) else s
  }

  function Link(s: State, id: nat): State
    requires id in s.consumers
  {
    var c := s.consumers[id];
    if Final in s.dir then To(s, id, Cleaning(Replayed))
    else if Temp(c.token) !in s.dir then To(s, id, Cleaning(Failed))
    else To(Enter(s, Final, s.dir[Temp(c.token)]), id, Flushing)
  }

  function Unlink(s: State, id: nat, outcome: Outcome): State
    requires id in s.consumers
  {
    var c := s.consumers[id];
    if Temp(c.token) in s.dir then To(Leave(s, Temp(c.token)), id, Settling(outcome)) else To(s, id, Done(outcome))
  }

  /** What a raised exception leads to: the cleanup if the temporary file was created, else the end. */
  function Raised(phase: Phase): Phase {
    match phase
    case Checking => Done(Failed)
    case Creating => Done(Failed)
    case Cleaning(_) => Done(Failed)
    case Settling(_) => Done(Failed)
    case Done(o) => Done(o)
    case _ => Cleaning(Failed)
  }

  /** One step of a consumer. A choice that does not apply changes nothing. */
  function Progress(s: State, id: nat, choice: Choice): State
    requires id in s.consumers
  {
    var phase := s.consumers[id].phase;
    match choice
    case Fault => To(s, id, Raised(phase))
    case Write(n) => if phase.Writing? then WriteSome(s, id, phase.done, n) else s
    case Proceed =>
      match phase
      case Checking => To(s, id, if Final in s.dir then Done(Replayed) else Creating)
      case Creating => Create(s, id)
      case Writing(done) => if done == |s.consumers[id].encoded| then SyncFile(s, id) else s
      case Linking => Link(s, id)
      case Flushing => To(s.(limbo := {}), id, Published)
      case Published => To(s, id, Cleaning(Returned))
      case Cleaning(outcome) => Unlink(s, id, outcome)
      case Settling(outcome) => To(s.(limbo := {}), id, Done(outcome))
      case Done(_) => s
  }

  /** What a crash can leave: each name its present value or one it had since the last directory fsync; each file its
      content if that was synced, else anything. */
  ghost predicate Survives(s: State, dir: map<Name, nat>, contents: seq<Bytes>) {
    && (forall n :: Lookup(dir, n) == Lookup(s.dir, n) || (n, Lookup(dir, n)) in s.limbo)
    && |contents| == |s.files|
    && (forall i :: 0 <= i < |contents| && s.files[i].synced ==> contents[i] == s.files[i].content)
  }

  function Recovered(contents: seq<Bytes>): seq<File> {
    seq(|contents|, i requires 0 <= i < |contents| => File(contents[i], true))
  }

  /** One step of the system. An action that is not possible changes nothing. */
  ghost function Step(s: State, a: Action): State {
    match a
    case Start(id, token, encoded) =>
      if id in s.consumers then s
      else s.(consumers := s.consumers[id := Consumer(token, encoded, Checking, 0)], records := s.records + {encoded})
    case Advance(id, choice) => if id in s.consumers then Progress(s, id, choice) else s
    case Crash(dir, contents) =>
      if Survives(s, dir, contents) then State(Recovered(contents), dir, {}, map[], s.records) else s
  }

  ghost function Run(s: State, actions: seq<Action>): State
    decreases |actions|
  {
    if actions == [] then s else Run(Step(s, actions[0]), actions[1..])
  }

  // ----- What every reachable state satisfies

  /** The consumer has created its temporary file and not yet removed it. */
  predicate Holds(c: Consumer) {
    c.phase.Writing? || c.phase.Linking? || c.phase.Flushing? || c.phase.Published? || c.phase.Cleaning?
  }

  /** The consumer has linked its record. */
  predicate Linked(p: Phase) {
    p.Flushing? || p.Published? || ((p.Cleaning? || p.Settling? || p.Done?) && p.outcome == Returned)
  }

  /** The consumer has synced the directory after linking. */
  predicate Flushed(p: Phase) {
    p.Published? || ((p.Cleaning? || p.Settling? || p.Done?) && p.outcome == Returned)
  }

  /** A complete record that a crash cannot change. */
  predicate Sealed(s: State, inode: nat) {
    inode < |s.files| && s.files[inode].synced && s.files[inode].content in s.records
  }

  /** No crash can take the record away. */
  predicate Permanent(s: State) { Final in s.dir && (Final, None) !in s.limbo }

  predicate ConsumerOk(s: State, c: Consumer) {
    && c.encoded in s.records
    && (Holds(c) ==> c.inode < |s.files| && Lookup(s.dir, Temp(c.token)) == Some(c.inode))
    && (c.phase.Writing? ==>
          c.phase.done <= |c.encoded| && s.files[c.inode].content == c.encoded[..c.phase.done]
          && Lookup(s.dir, Final) != Some(c.inode))
    && (c.phase.Linking? ==> s.files[c.inode] == File(c.encoded, true))
    && (Linked(c.phase) ==>
          Lookup(s.dir, Final) == Some(c.inode) && c.inode < |s.files| && s.files[c.inode].content == c.encoded)
    && (Flushed(c.phase) ==> Permanent(s))
  }

  predicate Apart(s: State, a: nat, b: nat)
    requires a in s.consumers && b in s.consumers
  {
    var c, d := s.consumers[a], s.consumers[b];
    (Holds(c) && (Holds(d) || Linked(d.phase))) || (Linked(c.phase) && Linked(d.phase)) ==> c.inode != d.inode
  }

  ghost predicate Valid(s: State) {
    && (forall n <- s.dir :: s.dir[n] < |s.files|)
    && (forall n, i :: (n, Some(i)) in s.limbo ==> i < |s.files| && n != Final)
    && (Final in s.dir ==> Sealed(s, s.dir[Final]))
    && (forall id <- s.consumers :: ConsumerOk(s, s.consumers[id]))
    && (forall a <- s.consumers, b <- s.consumers :: a != b ==> Apart(s, a, b))
  }
}
