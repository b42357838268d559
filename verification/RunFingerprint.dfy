module RunFingerprint {

  // The fingerprint of a benchmark run: the byte stream that is hashed for its files, and why it identifies them. A
  // byte is a character below 256, a path is its UTF-8 bytes.

  import opened Options
  import opened SortedNames

  /** What the stream says about a path: a symbolic link with its target, nothing there, or a file by its hexadecimal
      digest. */
  datatype State = Symlink(target: string) | Missing | File(digest: string)

  datatype Entry = Entry(path: string, state: State)

  const DIGEST_LENGTH := 64
  const LENGTH_BYTES := 8

  // ----- Numbers in eight bytes

  function Power(n: nat): nat { if n == 0 then 1 else 256 * Power(n - 1) }

  /** `n.to_bytes(width, "big")`. */
  function BigEndian(n: nat, width: nat): (r: string)
    ensures |r| == width
  {
    if width == 0 then "" else BigEndian(n / 256, width - 1) + [(n % 256) as char]
  }

  function Value(s: string): nat { if s == "" then 0 else 256 * Value(s[..|s| - 1]) + s[|s| - 1] as int }

  lemma {:induction false} ValueOfBigEndian(n: nat, width: nat)
    requires n < Power(width)
    ensures Value(BigEndian(n, width)) == n
  {
    if width > 0 {
      var r := BigEndian(n, width);
      assert r[..|r| - 1] == BigEndian(n / 256, width - 1);
      ValueOfBigEndian(n / 256, width - 1);
    }
  }

  // ----- The stream

  function Length(s: string): string { BigEndian(|s|, LENGTH_BYTES) }

  function EncodeState(state: State): string {
    match state
    case Symlink(target) => "symlink" + Length(target) + target
    case Missing => "missing"
    case File(digest) => "file" + digest
  }

  function EncodeEntry(e: Entry): string { Length(e.path) + e.path + EncodeState(e.state) }

  function Stream(entries: seq<Entry>): string {
    if entries == [] then "" else EncodeEntry(entries[0]) + Stream(entries[1..])
  }

  /** Lengths fit eight bytes, and digests have their fixed length. */
  predicate Sized(e: Entry) {
    && |e.path| < Power(LENGTH_BYTES)
    && (e.state.Symlink? ==> |e.state.target| < Power(LENGTH_BYTES))
    && (e.state.File? ==> |e.state.digest| == DIGEST_LENGTH)
  }

  // ----- The decoder

  /** A length-prefixed text and what follows it. */
  function TakeText(s: string): Option<(string, string)> {
    if |s| < LENGTH_BYTES then None
    else
      var n := Value(s[..LENGTH_BYTES]);
      if |s| < LENGTH_BYTES + n then None else Some((s[LENGTH_BYTES..LENGTH_BYTES + n], s[LENGTH_BYTES + n..]))
  }

  function TakeState(s: string): Option<(State, string)> {
    if "symlink" <= s then
      var t := TakeText(s[7..]);
      if t.None? then None else Some((Symlink(t.value.0), t.value.1))
    else if "missing" <= s then Some((Missing, s[7..]))
    else if "file" <= s && |s| >= 4 + DIGEST_LENGTH then Some((File(s[4..4 + DIGEST_LENGTH]), s[4 + DIGEST_LENGTH..]))
    else None
  }

  function TakeEntry(s: string): Option<(Entry, string)> {
    var path := TakeText(s);
    if path.None? then None
    else
      var state := TakeState(path.value.1);
      if state.None? then None else Some((Entry(path.value.0, state.value.0), state.value.1))
  }

  lemma TakeShrinks(s: string)
    ensures TakeText(s).Some? ==> |TakeText(s).value.1| < |s|
    ensures TakeState(s).Some? ==> |TakeState(s).value.1| < |s|
  {
    if "symlink" <= s { TextShrinks(s[7..]); }
  }

  lemma TextShrinks(s: string)
    ensures TakeText(s).Some? ==> |TakeText(s).value.1| < |s|
  {}

  function Decode(s: string): Option<seq<Entry>>
    decreases |s|
  {
    if s == "" then Some([])
    else
      var e := TakeEntry(s);
      if e.None? then None
      else
        TakeShrinks(s);
        TakeShrinks(TakeText(s).value.1);
        var rest := Decode(e.value.1);
        if rest.None? then None else Some([e.value.0] + rest.value)
  }

  lemma TextComesBack(text: string, rest: string)
    requires |text| < Power(LENGTH_BYTES)
    ensures TakeText(Length(text) + text + rest) == Some((text, rest))
  {
    hide Power, BigEndian, Value;
    var s := Length(text) + text + rest;
    LengthIsEight(text);
    ValueOfBigEndian(|text|, LENGTH_BYTES);
    assert s[..LENGTH_BYTES] == Length(text);
    assert s[LENGTH_BYTES..LENGTH_BYTES + |text|] == text && s[LENGTH_BYTES + |text|..] == rest;
  }

  lemma LengthIsEight(text: string)
    ensures |Length(text)| == LENGTH_BYTES
  {}

  lemma StateComesBack(state: State, rest: string)
    requires Sized(Entry("", state))
    ensures TakeState(EncodeState(state) + rest) == Some((state, rest))
  {
    hide Power, Length, TakeText;
    var s := EncodeState(state) + rest;
    match state
    case Symlink(target) =>
      TextComesBack(target, rest);
      assert s == "symlink" + (Length(target) + target + rest);
      assert s[..7] == "symlink" && s[7..] == Length(target) + target + rest;
    case Missing =>
      assert s[0] == 'm' && "symlink"[0] == 's';
      assert s[7..] == rest;
    case File(digest) =>
      assert s[0] == 'f' && "symlink"[0] == 's' && "missing"[0] == 'm';
      assert s[..4] == "file" && s[4..4 + DIGEST_LENGTH] == digest && s[4 + DIGEST_LENGTH..] == rest;
  }

  lemma EntryComesBack(e: Entry, rest: string)
    requires Sized(e)
    ensures TakeEntry(EncodeEntry(e) + rest) == Some((e, rest))
  {
    hide Power, Length, TakeText, TakeState, EncodeState;
    TextComesBack(e.path, EncodeState(e.state) + rest);
    assert EncodeEntry(e) + rest == Length(e.path) + e.path + (EncodeState(e.state) + rest);
    SizedState(e);
    StateComesBack(e.state, rest);
  }

  lemma SizedState(e: Entry)
    requires Sized(e)
    ensures Sized(Entry("", e.state))
  {
    hide Power;
    assert 0 < Power(8) by { PowerPositive(8); }
  }

  lemma {:induction false} PowerPositive(n: nat)
    ensures 0 < Power(n)
  {
    if n > 0 { PowerPositive(n - 1); }
  }

  /** The decoder gives back every list of entries: the stream can be read in one way only. */
  lemma {:induction false} StreamDecodes(entries: seq<Entry>)
    requires forall e <- entries :: Sized(e)
    ensures Decode(Stream(entries)) == Some(entries)
  {
    hide TakeEntry, EncodeEntry, Sized;
    if entries != [] {
      var e, rest := entries[0], entries[1..];
      assert e in entries && forall x <- rest :: x in entries;
      StreamDecodes(rest);
      EntryComesBack(e, Stream(rest));
      EntryNotEmpty(e);
      assert entries == [e] + rest;
    }
  }

  lemma EntryNotEmpty(e: Entry)
    ensures EncodeEntry(e) != ""
  {
    LengthIsEight(e.path);
  }

  // ----- The stream of a run

  /** The entries of the paths, in their order. */
  function EntriesOf(paths: seq<string>, run: map<string, State>): seq<Entry>
    requires forall p <- paths :: p in run
  {
    if paths == [] then []
    else
      assert paths[0] in paths && forall p <- paths[1..] :: p in paths;
      [Entry(paths[0], run[paths[0]])] + EntriesOf(paths[1..], run)
  }

  predicate SizedRun(run: map<string, State>) { forall p <- run :: Sized(Entry(p, run[p])) }

  ghost function StreamOf(run: map<string, State>): string {
    assert forall p <- Sorted(run.Keys) :: p in Elements(Sorted(run.Keys));
    Stream(EntriesOf(Sorted(run.Keys), run))
  }

  lemma {:induction false} EntriesTell(paths: seq<string>, run: map<string, State>)
    requires forall p <- paths :: p in run
    ensures |EntriesOf(paths, run)| == |paths|
    ensures forall i :: 0 <= i < |paths| ==> EntriesOf(paths, run)[i] == Entry(paths[i], run[paths[i]])
  {
    if paths != [] {
      assert paths[0] in paths && forall p <- paths[1..] :: p in paths;
      EntriesTell(paths[1..], run);
    }
  }

  lemma RunDecodes(run: map<string, State>)
    requires SizedRun(run)
    ensures forall p <- Sorted(run.Keys) :: p in run
    ensures Decode(StreamOf(run)) == Some(EntriesOf(Sorted(run.Keys), run))
  {
    hide Sized;
    var paths := Sorted(run.Keys);
    assert forall p <- paths :: p in Elements(paths);
    EntriesTell(paths, run);
    StreamDecodes(EntriesOf(paths, run));
  }

  lemma SameEntries(p: seq<string>, a: map<string, State>, q: seq<string>, b: map<string, State>)
    requires (forall x <- p :: x in a) && (forall x <- q :: x in b) && EntriesOf(p, a) == EntriesOf(q, b)
    ensures p == q && forall i :: 0 <= i < |p| ==> a[p[i]] == b[p[i]]
  {
    hide EntriesOf;
    EntriesTell(p, a);
    EntriesTell(q, b);
    forall i | 0 <= i < |p| ensures p[i] == q[i] && a[p[i]] == b[q[i]] {
      assert EntriesOf(p, a)[i] == EntriesOf(q, b)[i];
    }
    assert p == q;
  }

  /** Runs with the same stream have the same paths, and the same link target, absence or digest at each of them. */
  lemma StreamIdentifiesRun(a: map<string, State>, b: map<string, State>)
    requires SizedRun(a) && SizedRun(b)
    ensures StreamOf(a) == StreamOf(b) <==> a == b
  {
    hide Sized, Decode, StreamOf, EntriesOf, Sorted;
    if StreamOf(a) == StreamOf(b) {
      RunDecodes(a);
      RunDecodes(b);
      var p, q := Sorted(a.Keys), Sorted(b.Keys);
      SameEntries(p, a, q, b);
      assert a.Keys == Elements(p) == Elements(q) == b.Keys;
      forall x | x in a ensures a[x] == b[x] {
        assert x in Elements(p);
        var i :| 0 <= i < |p| && p[i] == x;
      }
    }
  }

  // ----- The files of a run

  /** What a path in the run directory is. A link may lead to a directory, and paths may go through it. */
  datatype Node = Directory | Link(target: string, toDirectory: bool) | Regular(digest: string)

  predicate Under(path: string, dir: string) { dir + "/" <= path }

  /** `is_dir`, which follows links. */
  predicate IsDirectory(tree: map<string, Node>, dir: string) {
    dir in tree && (tree[dir].Directory? || (tree[dir].Link? && tree[dir].toDirectory))
  }

  /** A link stands between the directory and the path; the search does not enter it. */
  predicate BehindLink(tree: map<string, Node>, dir: string, path: string) {
    exists l <- tree :: tree[l].Link? && Under(l, dir) && Under(path, l)
  }

  /** The files and links that the recursive search below a directory finds. */
  function Below(tree: map<string, Node>, dir: string): set<string> {
    if IsDirectory(tree, dir)
    then set p <- tree | !tree[p].Directory? && Under(p, dir) && !BehindLink(tree, dir, p)
    else {}
  }

  /** The paths that belong to one modality, there or not. */
  function PathsOf(tree: map<string, Node>, modality: string): set<string> {
    {modality + "-batch-spec.json", modality + "/public/review-package.json", modality + "/private/review-key.json"}
    + Below(tree, modality + "/public/assets") + Below(tree, modality + "/panel") + Below(tree, modality + "/results")
  }

  function StateAt(tree: map<string, Node>, path: string): State {
    if path !in tree then Missing
    else
      match tree[path]
      case Directory => Missing
      case Link(target, _) => Symlink(target)
      case Regular(digest) => File(digest)
  }

  /** The run that the stream describes. */
  function RunOf(tree: map<string, Node>, modalities: seq<string>): map<string, State> {
    map p | p in LogicalPaths(tree, modalities) :: StateAt(tree, p)
  }

  function LogicalPaths(tree: map<string, Node>, modalities: seq<string>): set<string> {
    if modalities == [] then {} else PathsOf(tree, modalities[0]) + LogicalPaths(tree, modalities[1..])
  }

  /** The path loop and the digest loop of `_run_fingerprint_sha256`; the result is what goes into the digest. */
  method HashRun(tree: map<string, Node>, modalities: seq<string>) returns (stream: string)
    ensures stream == StreamOf(RunOf(tree, modalities))
  {
    hide PathsOf, EncodeState, Length;
    var logicalPaths: set<string> := {};
    var i := 0;
    assert modalities[0..] == modalities;
    while i < |modalities|
      invariant i <= |modalities|
      invariant LogicalPaths(tree, modalities) == logicalPaths + LogicalPaths(tree, modalities[i..])
    {
      assert modalities[i..][0] == modalities[i] && modalities[i..][1..] == modalities[i + 1..];
      logicalPaths := logicalPaths + PathsOf(tree, modalities[i]);
      i := i + 1;
    }
    assert modalities[i..] == [];
    ghost var run := RunOf(tree, modalities);
    assert run.Keys == logicalPaths;
    var paths := SortNames(logicalPaths);
    stream := DigestPaths(tree, paths, run);
  }

  /** The first path's part of the stream. */
  lemma StreamNext(paths: seq<string>, i: nat, run: map<string, State>)
    requires i < |paths| && forall p <- paths :: p in run
    ensures forall p <- paths[i..] + paths[i + 1..] :: p in run
    ensures var path := paths[i];
      Stream(EntriesOf(paths[i..], run))
        == Length(path) + path + EncodeState(run[path]) + Stream(EntriesOf(paths[i + 1..], run))
  {
    hide EncodeState, Length;
    var path := paths[i];
    assert forall p <- paths[i..] + paths[i + 1..] :: p in paths;
    var rest := EntriesOf(paths[i + 1..], run);
    assert paths[i..][0] == path && paths[i..][1..] == paths[i + 1..];
    assert EntriesOf(paths[i..], run) == [Entry(path, run[path])] + rest;
    assert ([Entry(path, run[path])] + rest)[1..] == rest;
  }

  lemma StreamOfNothing(run: map<string, State>)
    ensures Stream(EntriesOf([], run)) == ""
  {}

  method DigestPaths(tree: map<string, Node>, paths: seq<string>, ghost run: map<string, State>) returns (stream: string)
    requires forall p <- paths :: p in run && run[p] == StateAt(tree, p)
    ensures stream == Stream(EntriesOf(paths, run))
  {
    hide EncodeState, Length, StateAt, Stream, EntriesOf;
    stream := "";
    var i := 0;
    assert paths[0..] == paths;
    assert "" + Stream(EntriesOf(paths, run)) == Stream(EntriesOf(paths, run));
    while i < |paths|
      invariant i <= |paths|
      invariant forall p <- paths[i..] :: p in run
      invariant Stream(EntriesOf(paths, run)) == stream + Stream(EntriesOf(paths[i..], run))
    {
      var path := paths[i];
      StreamNext(paths, i, run);
      ghost var rest := Stream(EntriesOf(paths[i + 1..], run));
      var state := StateAt(tree, path);
      assert path in paths;
      assert stream + (Length(path) + path + EncodeState(state) + rest)
          == stream + Length(path) + path + EncodeState(state) + rest;
      stream := stream + Length(path) + path;
      stream := stream + EncodeState(state);
      i := i + 1;
    }
    assert paths[i..] == [];
    StreamOfNothing(run);
    assert stream + "" == stream;
  }

  lemma {:induction false} LogicalPathsAre(tree: map<string, Node>, modalities: seq<string>, path: string)
    ensures path in LogicalPaths(tree, modalities) <==> exists m <- modalities :: path in PathsOf(tree, m)
  {
    hide PathsOf;
    if modalities != [] {
      LogicalPathsAre(tree, modalities[1..], path);
      assert modalities == [modalities[0]] + modalities[1..];
    }
  }

  /** Two runs have the same stream exactly when they have the same logical paths with the same content: any file added,
      removed or changed below the hashed directories changes it, and nothing else in the tree does. */
  lemma StreamIdentifiesFiles(a: map<string, Node>, b: map<string, Node>, modalities: seq<string>)
    requires SizedRun(RunOf(a, modalities)) && SizedRun(RunOf(b, modalities))
    ensures StreamOf(RunOf(a, modalities)) == StreamOf(RunOf(b, modalities)) <==>
      && LogicalPaths(a, modalities) == LogicalPaths(b, modalities)
      && (forall p <- LogicalPaths(a, modalities) :: StateAt(a, p) == StateAt(b, p))
  {
    hide SizedRun, StreamOf, LogicalPaths, StateAt;
    var x, y := RunOf(a, modalities), RunOf(b, modalities);
    StreamIdentifiesRun(x, y);
    assert x.Keys == LogicalPaths(a, modalities) && y.Keys == LogicalPaths(b, modalities);
    if x == y {
      forall p | p in LogicalPaths(a, modalities) ensures StateAt(a, p) == StateAt(b, p) {
        assert x[p] == y[p];
      }
    }
  }
}
