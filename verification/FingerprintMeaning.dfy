module FingerprintMeaning {

  // The run fingerprint in literal words: which paths are hashed, what is said about each, and the bytes of it.

  import opened SortedNames
  import opened RunFingerprint

  // ----- Paths

  predicate Inside(path: string, dir: string) {
    |path| > |dir| && path[..|dir|] == dir && path[|dir|] == '/'
  }

  /** A directory, or a link to one. */
  ghost predicate Enterable(tree: map<string, Node>, dir: string) {
    dir in tree && (tree[dir] == Directory || exists target :: tree[dir] == Link(target, true))
  }

  /** A file or link somewhere below the directory, behind no link of its own. */
  ghost predicate FoundBelow(tree: map<string, Node>, dir: string, path: string) {
    && Enterable(tree, dir) && path in tree && tree[path] != Directory && Inside(path, dir)
    && forall l <- tree :: tree[l].Link? && Inside(l, dir) ==> !Inside(path, l)
  }

  /** The paths of one modality: three files, there or not, and what is found below three directories. */
  ghost predicate Belongs(tree: map<string, Node>, modality: string, path: string) {
    || path == modality + "-batch-spec.json"
    || path == modality + "/public/review-package.json"
    || path == modality + "/private/review-key.json"
    || FoundBelow(tree, modality + "/public/assets", path)
    || FoundBelow(tree, modality + "/panel", path)
    || FoundBelow(tree, modality + "/results", path)
  }

  lemma InsideIs(path: string, dir: string)
    ensures Under(path, dir) <==> Inside(path, dir)
  {
    var d := dir + "/";
    if Under(path, dir) {
      assert path[..|d|] == d;
      assert path[..|dir|] == d[..|dir|] == dir && path[|dir|] == d[|dir|];
    }
    if Inside(path, dir) { assert path[..|dir| + 1] == d; }
  }

  lemma EnterableIs(tree: map<string, Node>, dir: string)
    ensures IsDirectory(tree, dir) <==> Enterable(tree, dir)
  {
    if IsDirectory(tree, dir) && tree[dir].Link? { assert tree[dir] == Link(tree[dir].target, true); }
  }

  lemma BelowMeans(tree: map<string, Node>, dir: string, path: string)
    ensures path in Below(tree, dir) <==> FoundBelow(tree, dir, path)
  {
    hide Under, Inside, IsDirectory, Enterable;
    EnterableIs(tree, dir);
    InsideIs(path, dir);
    forall l ensures (Under(l, dir) <==> Inside(l, dir)) && (Under(path, l) <==> Inside(path, l)) {
      InsideIs(l, dir);
      InsideIs(path, l);
    }
  }

  lemma ModalityMeans(tree: map<string, Node>, modality: string, path: string)
    ensures path in PathsOf(tree, modality) <==> Belongs(tree, modality, path)
  {
    hide Below, FoundBelow;
    BelowMeans(tree, modality + "/public/assets", path);
    BelowMeans(tree, modality + "/panel", path);
    BelowMeans(tree, modality + "/results", path);
  }

  // ----- What is said about a path

  /** A link with its target, a file with its digest, or neither. */
  predicate Says(tree: map<string, Node>, path: string, state: State) {
    match state
    case Symlink(target) => path in tree && tree[path].Link? && tree[path].target == target
    case File(digest) => path in tree && tree[path] == Regular(digest)
    case Missing => path in tree ==> tree[path] == Directory
  }

  lemma StateIs(tree: map<string, Node>, path: string, state: State)
    ensures StateAt(tree, path) == state <==> Says(tree, path, state)
  {}

  /** The hashed run says exactly this about exactly the paths of the modalities. */
  lemma RunMeans(tree: map<string, Node>, modalities: seq<string>, path: string, state: State)
    ensures var run := RunOf(tree, modalities);
      path in run && run[path] == state <==> (exists m <- modalities :: Belongs(tree, m, path)) && Says(tree, path, state)
  {
    hide PathsOf, Belongs, StateAt, Says, LogicalPaths;
    LogicalPathsAre(tree, modalities, path);
    forall m ensures path in PathsOf(tree, m) <==> Belongs(tree, m, path) { ModalityMeans(tree, m, path); }
    StateIs(tree, path, state);
  }

  // ----- Different runs

  /** Digests of 64 characters, and paths and link targets whose length fits eight bytes. */
  ghost predicate Measured(tree: map<string, Node>) {
    && (forall p <- tree :: tree[p].Regular? ==> |tree[p].digest| == 64)
    && (forall p <- tree :: tree[p].Link? ==> |tree[p].target| < 0x1_0000_0000_0000_0000)
  }

  ghost predicate ShortPaths(tree: map<string, Node>, modalities: seq<string>) {
    forall m, p :: m in modalities && Belongs(tree, m, p) ==> |p| < 0x1_0000_0000_0000_0000
  }

  lemma EightBytesHold()
    ensures Power(8) == 0x1_0000_0000_0000_0000
  {
    assert Power(0) == 1 && Power(1) == 256 && Power(2) == 0x1_0000 && Power(3) == 0x100_0000;
    assert Power(4) == 0x1_0000_0000 && Power(5) == 0x100_0000_0000 && Power(6) == 0x1_0000_0000_0000;
  }

  lemma MeasuredIsSized(tree: map<string, Node>, modalities: seq<string>)
    requires Measured(tree) && ShortPaths(tree, modalities)
    ensures SizedRun(RunOf(tree, modalities))
  {
    hide Belongs, Power, LogicalPaths;
    EightBytesHold();
    var run := RunOf(tree, modalities);
    forall p | p in run ensures Sized(Entry(p, run[p])) {
      RunMeans(tree, modalities, p, run[p]);
    }
  }

  /** The path is hashed and the stream says this about it. */
  ghost predicate Hashed(tree: map<string, Node>, modalities: seq<string>, path: string, state: State) {
    (exists m <- modalities :: Belongs(tree, m, path)) && Says(tree, path, state)
  }

  /** Two runs have the same stream exactly when the same is said about the same paths. */
  lemma StreamTells(a: map<string, Node>, b: map<string, Node>, modalities: seq<string>)
    requires Measured(a) && ShortPaths(a, modalities) && Measured(b) && ShortPaths(b, modalities)
    ensures StreamOf(RunOf(a, modalities)) == StreamOf(RunOf(b, modalities)) <==>
      forall path, state :: Hashed(a, modalities, path, state) <==> Hashed(b, modalities, path, state)
  {
    hide RunOf, StreamOf, SizedRun, Belongs, Says;
    var x, y := RunOf(a, modalities), RunOf(b, modalities);
    MeasuredIsSized(a, modalities);
    MeasuredIsSized(b, modalities);
    StreamIdentifiesRun(x, y);
    forall path, state
      ensures path in x && x[path] == state <==> Hashed(a, modalities, path, state)
      ensures path in y && y[path] == state <==> Hashed(b, modalities, path, state)
    {
      RunMeans(a, modalities, path, state);
      RunMeans(b, modalities, path, state);
    }
    if forall path, state :: Hashed(a, modalities, path, state) <==> Hashed(b, modalities, path, state) {
      forall p | p in x ensures p in y && x[p] == y[p] { assert Hashed(a, modalities, p, x[p]); }
      forall p | p in y ensures p in x { assert Hashed(b, modalities, p, y[p]); }
      assert x == y;
    }
  }

  // ----- Bytes

  /** A length in eight bytes, the most significant one first. */
  function EightBytes(n: nat): string {
    [(n / 0x100_0000_0000_0000 % 256) as char, (n / 0x1_0000_0000_0000 % 256) as char,
     (n / 0x100_0000_0000 % 256) as char, (n / 0x1_0000_0000 % 256) as char,
     (n / 0x100_0000 % 256) as char, (n / 0x1_0000 % 256) as char, (n / 0x100 % 256) as char, (n % 256) as char]
  }

  lemma BytesOnce(n: nat)
    ensures n / 256 / 256 == n / 0x1_0000
    ensures n / 0x1_0000 / 256 == n / 0x100_0000 && n / 0x100_0000 / 256 == n / 0x1_0000_0000
    ensures n / 0x1_0000_0000 / 256 == n / 0x100_0000_0000
    ensures n / 0x100_0000_0000 / 256 == n / 0x1_0000_0000_0000
    ensures n / 0x1_0000_0000_0000 / 256 == n / 0x100_0000_0000_0000
  {}

  lemma BigEndianStep(n: nat, width: nat)
    requires width > 0
    ensures BigEndian(n, width) == BigEndian(n / 256, width - 1) + [(n % 256) as char]
  {}

  lemma LengthIs(n: nat)
    ensures BigEndian(n, 8) == EightBytes(n)
  {
    hide BigEndian;
    BytesOnce(n);
    BigEndianStep(n, 8);
    BigEndianStep(n / 0x100, 7);
    BigEndianStep(n / 0x1_0000, 6);
    BigEndianStep(n / 0x100_0000, 5);
    BigEndianStep(n / 0x1_0000_0000, 4);
    BigEndianStep(n / 0x100_0000_0000, 3);
    BigEndianStep(n / 0x1_0000_0000_0000, 2);
    BigEndianStep(n / 0x100_0000_0000_0000, 1);
    assert BigEndian(n / 0x100_0000_0000_0000 / 256, 0) == "";
  }

  /** The bytes of one path. */
  function BytesOf(path: string, state: State): string {
    EightBytes(|path|) + path
    + match state
      case Symlink(target) => "symlink" + EightBytes(|target|) + target
      case Missing => "missing"
      case File(digest) => "file" + digest
  }

  function BytesOfAll(paths: seq<string>, run: map<string, State>): string
    requires forall p <- paths :: p in run
  {
    if paths == [] then ""
    else
      assert paths[0] in paths && forall p <- paths[1..] :: p in paths;
      BytesOf(paths[0], run[paths[0]]) + BytesOfAll(paths[1..], run)
  }

  lemma {:induction false} StreamMeans(paths: seq<string>, run: map<string, State>)
    requires forall p <- paths :: p in run
    ensures Stream(EntriesOf(paths, run)) == BytesOfAll(paths, run)
  {
    hide BigEndian, EightBytes;
    if paths != [] {
      assert paths[0] in paths && forall p <- paths[1..] :: p in paths;
      StreamMeans(paths[1..], run);
      var e := Entry(paths[0], run[paths[0]]);
      assert ([e] + EntriesOf(paths[1..], run))[1..] == EntriesOf(paths[1..], run);
      LengthIs(|e.path|);
      if e.state.Symlink? { LengthIs(|e.state.target|); }
    }
  }

  /** The hashed stream is the bytes of all paths in the order of their names. */
  lemma RunBytes(run: map<string, State>, paths: seq<string>)
    requires Ascending(paths) && Elements(paths) == run.Keys
    ensures forall p <- paths :: p in run
    ensures StreamOf(run) == BytesOfAll(paths, run)
  {
    hide Before;
    assert forall p <- paths :: p in Elements(paths);
    SortedUnique(paths, Sorted(run.Keys));
    StreamMeans(paths, run);
  }
}
