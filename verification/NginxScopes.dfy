module NginxScopes {

  // The grammar of a configuration in literal words, and block chains by an independent definition: a block encloses a
  // statement when the brace depth stays above the depth at its opener from there to the statement.

  import opened PythonText
  import opened NginxText
  import opened NginxLexer
  import opened NginxParser

  predicate Opens(n: Node) { n.term.value == "{" }

  predicate Closes(n: Node) { n.term.value == "}" }

  /** Open minus closed braces before statement `k`. */
  function Depth(ns: seq<Node>, k: nat): int
    requires k <= |ns|
  {
    if k == 0 then 0
    else Depth(ns, k - 1) + if Opens(ns[k - 1]) then 1 else if Closes(ns[k - 1]) then -1 else 0
  }

  /** Statement `j` opens a block that is still open at statement `k`. */
  predicate Encloses(ns: seq<Node>, j: nat, k: nat)
    requires j < k <= |ns|
  {
    Opens(ns[j]) && forall m :: j < m <= k ==> Depth(ns, m) > Depth(ns, j)
  }

  /** The openers among the first `n` statements that enclose statement `k`, outermost first. */
  function Openers(ns: seq<Node>, n: nat, k: nat): (r: seq<nat>)
    requires n <= k <= |ns|
    ensures forall j <- r :: j < n
  {
    if n == 0 then []
    else
      var last: nat := n - 1;
      var outer: seq<nat> := Openers(ns, last, k);
      if Encloses(ns, last, k) then outer + [last] else outer
  }

  function FirstWord(n: Node): string { if n.words == [] then "" else n.words[0].value }

  function FrameOf(n: Node): Frame { Frame(n.id, FirstWord(n)) }

  /** The blocks that enclose statement `k`: their identifiers and first words. */
  function FramesAt(ns: seq<Node>, k: nat): (r: seq<Frame>)
    requires k <= |ns|
    ensures |r| == |Openers(ns, k, k)|
    ensures forall i :: 0 <= i < |r| ==> Openers(ns, k, k)[i] < |ns| && r[i] == FrameOf(ns[Openers(ns, k, k)[i]])
  {
    var o := Openers(ns, k, k);
    assert forall i :: 0 <= i < |o| ==> o[i] in o;
    seq(|o|, i requires 0 <= i < |o| => FrameOf(ns[o[i]]))
  }

  /** The number of blocks opened before statement `k`. */
  function Opened(ns: seq<Node>, k: nat): nat
    requires k <= |ns|
  {
    if k == 0 then 0 else Opened(ns, k - 1) + if Opens(ns[k - 1]) then 1 else 0
  }

  // ----- The grammar

  predicate PlainName(w: string) { '\'' !in w && '"' !in w && '\\' !in w }

  /** The word without its quotes and backslashes is `name` in any case. */
  predicate Spells(w: string, name: string) {
    if w == "" then name == ""
    else if w[0] == '\'' || w[0] == '"' || w[0] == '\\' then Spells(w[1..], name)
    else
      && name != "" && (w[0] == name[0] || ('A' <= w[0] <= 'Z' && w[0] as int + 32 == name[0] as int))
      && Spells(w[1..], name[1..])
  }

  predicate InMapBody(frames: seq<Frame>) { frames != [] && frames[|frames| - 1].name == "map" }

  /** The places in which a map may stand. */
  predicate MayHoldMap(frames: seq<Frame>) {
    frames == [] || (|frames| == 1 && (frames[0].name == "http" || frames[0].name == "stream"))
  }

  /** A statement between these enclosing blocks, with `count` blocks opened before it. */
  predicate Stands(frames: seq<Frame>, count: nat, n: Node) {
    && (forall w <- n.words :: w.value != "{" && w.value != "}" && w.value != ";")
    && n.chain == Ids(frames)
    && if n.term.value == ";" then
         && n.words != [] && n.id == 0
         && if InMapBody(frames) then n.name == "__map_entry__" && !Spells(FirstWord(n), "include")
            else n.name == FirstWord(n) && PlainName(FirstWord(n))
       else if n.term.value == "{" then
         && n.words != [] && n.id == count + 1 && n.name == FirstWord(n) && PlainName(FirstWord(n))
         && !InMapBody(frames) && (n.name == "map" ==> MayHoldMap(frames))
       else n.term.value == "}" && n.words == [] && n.id == 0 && n.name == "}" && frames != []
  }

  predicate StandsAt(ns: seq<Node>, k: nat)
    requires k < |ns|
  {
    Stands(FramesAt(ns, k), Opened(ns, k), ns[k])
  }

  /** Every statement stands in its place. */
  ghost predicate Built(ns: seq<Node>) {
    forall k: nat :: k < |ns| ==> StandsAt(ns, k)
  }

  /** The tokens of the statements. */
  function Flatten(ns: seq<Node>): seq<Token> {
    if ns == [] then [] else Flatten(ns[..|ns| - 1]) + ns[|ns| - 1].words + [ns[|ns| - 1].term]
  }

  /** Trailing tokens that belong to no statement. */
  predicate Harmless(rest: seq<Token>) {
    forall k <- rest ::
      && k.value != "{" && k.value != "}" && k.value != ";"
      && k.value != "server" && k.value != "access_log" && k.value != "include"
  }

  /** The statements and the trailing tokens of a configuration. */
  ghost predicate Grammatical(tokens: seq<Token>, ns: seq<Node>, rest: seq<Token>) {
    Flatten(ns) + rest == tokens && Built(ns) && Depth(ns, |ns|) == 0 && Harmless(rest)
  }

  // ----- Enclosing blocks, one statement later

  lemma EnclosesNext(ns: seq<Node>, j: nat, k: nat)
    requires j < k < |ns|
    ensures Encloses(ns, j, k + 1) <==> Encloses(ns, j, k) && Depth(ns, k + 1) > Depth(ns, j)
  {
    hide Depth;
  }

  /** A statement that closes no block keeps all openers. */
  lemma {:induction false} OpenersKept(ns: seq<Node>, n: nat, k: nat)
    requires n <= k < |ns| && !Closes(ns[k])
    ensures Openers(ns, n, k + 1) == Openers(ns, n, k)
    decreases n
  {
    if n > 0 {
      OpenersKept(ns, n - 1, k);
      EnclosesNext(ns, n - 1, k);
      if Encloses(ns, n - 1, k) { EnclosedDepth(ns, n - 1, k); }
    }
  }

  lemma EnclosedDepth(ns: seq<Node>, j: nat, k: nat)
    requires j < k <= |ns| && Encloses(ns, j, k)
    ensures Depth(ns, k) > Depth(ns, j)
  {}

  /** Openers rise by one in depth, from zero. */
  predicate Rises(ns: seq<Node>, openers: seq<nat>) {
    forall t :: 0 <= t < |openers| ==> openers[t] < |ns| && Depth(ns, openers[t]) == t
  }

  /** A closing brace takes away exactly the innermost opener. */
  lemma {:induction false} OpenersClosed(ns: seq<Node>, n: nat, k: nat, limit: int)
    requires n <= k < |ns| && Closes(ns[k]) && Depth(ns, k) == limit + 1
    requires Rises(ns, Openers(ns, n, k)) && |Openers(ns, n, k)| <= limit + 1
    ensures Openers(ns, n, k + 1)
         == if |Openers(ns, n, k)| == limit + 1 && limit >= 0 then Openers(ns, n, k)[..limit] else Openers(ns, n, k)
    decreases n
  {
    hide Encloses;
    if n > 0 {
      var before, all := Openers(ns, n - 1, k), Openers(ns, n, k);
      assert forall t :: 0 <= t < |before| ==> all[t] == before[t];
      OpenersClosed(ns, n - 1, k, limit);
      EnclosesNext(ns, n - 1, k);
      if Encloses(ns, n - 1, k) {
        assert all[|before|] == n - 1;
        assert Depth(ns, n - 1) == |before|;
        assert Depth(ns, k + 1) == limit;
        if |before| == limit {
          assert all[..limit] == before;
        }
      }
    }
  }

  /** The newest statement encloses what follows exactly when it opens a block. */
  lemma LastEncloses(ns: seq<Node>, i: nat)
    requires i < |ns|
    ensures Encloses(ns, i, i + 1) <==> Opens(ns[i])
  {
    assert Depth(ns, i + 1) == Depth(ns, i) + if Opens(ns[i]) then 1 else if Closes(ns[i]) then -1 else 0;
  }

  /** The openers before statement `k` are as many as the depth. */
  predicate Counted(ns: seq<Node>, k: nat)
    requires k <= |ns|
  {
    Rises(ns, Openers(ns, k, k)) && |Openers(ns, k, k)| == Depth(ns, k)
  }

  /** The enclosing blocks behind a statement. */
  function After(frames: seq<Frame>, n: Node): seq<Frame> {
    if Opens(n) then frames + [FrameOf(n)] else if Closes(n) && frames != [] then frames[..|frames| - 1] else frames
  }

  lemma OpenersStep(ns: seq<Node>, k: nat)
    requires k < |ns| && Counted(ns, k) && (Closes(ns[k]) ==> Openers(ns, k, k) != [])
    ensures var o, p := Openers(ns, k, k), Openers(ns, k + 1, k + 1);
      p == if Opens(ns[k]) then o + [k] else if Closes(ns[k]) then o[..|o| - 1] else o
  {
    hide Encloses, Depth, Rises;
    LastEncloses(ns, k);
    if Closes(ns[k]) {
      OpenersClosed(ns, k, k, |Openers(ns, k, k)| - 1);
    } else {
      OpenersKept(ns, k, k);
    }
  }

  lemma CountedStep(ns: seq<Node>, k: nat)
    requires k < |ns| && Counted(ns, k) && (Closes(ns[k]) ==> Openers(ns, k, k) != [])
    ensures Counted(ns, k + 1)
  {
    hide Encloses, Openers;
    OpenersStep(ns, k);
  }

  lemma FramesStep(ns: seq<Node>, k: nat)
    requires k < |ns| && Counted(ns, k) && (Closes(ns[k]) ==> FramesAt(ns, k) != [])
    ensures Counted(ns, k + 1) && FramesAt(ns, k + 1) == After(FramesAt(ns, k), ns[k])
  {
    hide Encloses, Openers, Counted, Opens, Closes;
    OpenersStep(ns, k);
    CountedStep(ns, k);
    OnlyOne(ns[k]);
  }

  lemma OnlyOne(n: Node)
    ensures !(Opens(n) && Closes(n))
  {}

  lemma NothingCounted(ns: seq<Node>)
    ensures Counted(ns, 0) && FramesAt(ns, 0) == []
  {}

  // ----- One statement more at the end

  lemma {:induction false} DepthPrefix(ns: seq<Node>, n: Node, k: nat)
    requires k <= |ns|
    ensures Depth(ns + [n], k) == Depth(ns, k) && Opened(ns + [n], k) == Opened(ns, k)
  {
    if k > 0 { DepthPrefix(ns, n, k - 1); }
  }

  lemma EnclosesPrefix(ns: seq<Node>, n: Node, j: nat, k: nat)
    requires j < k <= |ns|
    ensures Encloses(ns + [n], j, k) <==> Encloses(ns, j, k)
  {
    hide Depth;
    forall m: nat | m <= k ensures Depth(ns + [n], m) == Depth(ns, m) { DepthPrefix(ns, n, m); }
  }

  lemma {:induction false} OpenersPrefix(ns: seq<Node>, n: Node, i: nat, k: nat)
    requires i <= k <= |ns|
    ensures Openers(ns + [n], i, k) == Openers(ns, i, k)
  {
    hide Encloses;
    if i > 0 {
      OpenersPrefix(ns, n, i - 1, k);
      EnclosesPrefix(ns, n, i - 1, k);
    }
  }

  lemma FramesPrefix(ns: seq<Node>, n: Node, k: nat)
    requires k <= |ns|
    ensures FramesAt(ns + [n], k) == FramesAt(ns, k)
  {
    hide Openers;
    OpenersPrefix(ns, n, k, k);
  }

  lemma StandsPrefix(ns: seq<Node>, n: Node, k: nat)
    requires k < |ns|
    ensures StandsAt(ns + [n], k) <==> StandsAt(ns, k)
  {
    hide FramesAt, Stands, Opened;
    FramesPrefix(ns, n, k);
    DepthPrefix(ns, n, k);
  }

  lemma StandsLast(ns: seq<Node>, n: Node)
    ensures StandsAt(ns + [n], |ns|) <==> Stands(FramesAt(ns, |ns|), Opened(ns, |ns|), n)
  {
    hide FramesAt, Stands, Opened;
    FramesPrefix(ns, n, |ns|);
    DepthPrefix(ns, n, |ns|);
  }

  lemma BuiltBefore(ns: seq<Node>, n: Node)
    requires Built(ns + [n])
    ensures Built(ns) && StandsAt(ns + [n], |ns|)
  {
    hide StandsAt;
    forall k: nat | k < |ns| ensures StandsAt(ns, k) {
      assert StandsAt(ns + [n], k);
      StandsPrefix(ns, n, k);
    }
  }

  lemma BuiltBehind(ns: seq<Node>, n: Node)
    requires Built(ns) && StandsAt(ns + [n], |ns|)
    ensures Built(ns + [n])
  {
    hide StandsAt;
    forall k: nat | k < |ns + [n]| ensures StandsAt(ns + [n], k) {
      if k < |ns| {
        assert StandsAt(ns, k);
        StandsPrefix(ns, n, k);
      }
    }
  }

  lemma BuiltSnoc(ns: seq<Node>, n: Node)
    ensures Built(ns + [n]) <==> Built(ns) && Stands(FramesAt(ns, |ns|), Opened(ns, |ns|), n)
  {
    hide FramesAt, Stands, Opened, StandsAt, Built;
    StandsLast(ns, n);
    if Built(ns + [n]) {
      BuiltBefore(ns, n);
    } else if Built(ns) && StandsAt(ns + [n], |ns|) {
      BuiltBehind(ns, n);
    }
  }

  lemma FlattenSnoc(ns: seq<Node>, n: Node)
    ensures Flatten(ns + [n]) == Flatten(ns) + n.words + [n.term]
  {
    assert (ns + [n])[..|ns + [n]| - 1] == ns;
  }

  // ----- Names

  lemma {:induction false} SpellsIs(w: string, name: string)
    requires forall c <- name :: !('A' <= c <= 'Z')
    ensures Lower(Unquoted(w)) == name <==> Spells(w, name)
  {
    hide Lower;
    if w == "" {
      EmptyLower();
    } else if w[0] == '\'' || w[0] == '"' || w[0] == '\\' {
      SpellsIs(w[1..], name);
    } else {
      var more := Unquoted(w[1..]);
      LowerFirst(w[0], more);
      if name != "" {
        assert name == [name[0]] + name[1..] && name[0] in name;
        assert forall c <- name[1..] :: c in name;
        SpellsIs(w[1..], name[1..]);
        SameFirst(w[0], Lower(more), name);
      }
    }
  }

  lemma EmptyLower()
    ensures Lower("") == "" && Unquoted("") == ""
  {}

  lemma SameFirst(c: char, more: string, name: string)
    requires name != "" && !('A' <= name[0] <= 'Z')
    ensures [LowerOne(c)] + more == name <==>
      more == name[1..] && (c == name[0] || ('A' <= c <= 'Z' && c as int + 32 == name[0] as int))
  {
    assert name == [name[0]] + name[1..];
    assert ([LowerOne(c)] + more)[1..] == more;
  }

  function LowerOne(c: char): char { if 'A' <= c <= 'Z' then c + 32 as char else c }

  lemma LowerFirst(c: char, s: string)
    ensures Lower([c] + s) == [LowerOne(c)] + Lower(s)
  {}

  lemma NameIsPlain(w: string)
    ensures DirectiveName(w) == if PlainName(w) then Ok(w) else Err(QuotedName)
  {}

  lemma ContextIs(frames: seq<Frame>)
    ensures MapContextOk(frames) <==> MayHoldMap(frames)
    ensures InMap(frames) <==> InMapBody(frames)
  {
    if |frames| == 1 {
      assert Names(frames) == [frames[0].name];
    } else {
      assert |Names(frames)| == |frames|;
    }
  }

  // ----- The parser reads this grammar

  /** Every map on the stack may stand where it stands. */
  ghost predicate MapsPlaced(frames: seq<Frame>) {
    forall i :: 0 <= i < |frames| && frames[i].name == "map" ==> MayHoldMap(frames[..i])
  }

  /** The statement a mark would end. */
  function Made(p: Parse, k: Token): Node {
    var word := if p.pending == [] then "" else p.pending[0].value;
    if k.value == ";" then Node(p.pending, k, if InMapBody(p.stack) then MAP_ENTRY_NAME else word, Ids(p.stack), 0)
    else if k.value == "{" then Node(p.pending, k, word, Ids(p.stack), p.count + 1)
    else Node(p.pending, k, "}", Ids(p.stack), 0)
  }

  /** What the parser knows after some tokens, in the terms of the grammar. */
  ghost predicate InStep(p: Parse) {
    && Built(p.nodes) && Counted(p.nodes, |p.nodes|) && MapsPlaced(p.stack)
    && p.stack == FramesAt(p.nodes, |p.nodes|) && p.count == Opened(p.nodes, |p.nodes|)
    && forall w <- p.pending :: !IsMark(w.value)
  }

  /** A mark is read exactly when the statement it ends stands in its place. */
  lemma ReadMark(p: Parse, k: Token)
    requires IsMark(k.value) && MapsPlaced(p.stack) && forall w <- p.pending :: !IsMark(w.value)
    ensures var n := Made(p, k);
      && (Read(p, k).Ok? <==> Stands(p.stack, p.count, n))
      && (Read(p, k).Ok? ==>
            Read(p, k) == Ok(Parse(p.nodes + [n], After(p.stack, n), p.count + (if Opens(n) then 1 else 0), [])))
  {
    hide Ids, MayHoldMap, MapContextOk, Spells, PlainName, Unquoted, Lower;
    ContextIs(p.stack);
    if p.pending != [] {
      var w := p.pending[0].value;
      NameIsPlain(w);
      SpellsIs(w, "include");
    }
    if p.stack != [] {
      ContextIs(p.stack[..|p.stack| - 1]);
      assert InMapBody(p.stack) ==> MayHoldMap(p.stack[..|p.stack| - 1]);
    }
  }

  lemma PlacedAfter(frames: seq<Frame>, count: nat, n: Node)
    requires MapsPlaced(frames) && Stands(frames, count, n)
    ensures MapsPlaced(After(frames, n))
  {
    hide MayHoldMap, Ids, Spells, PlainName;
    var more := After(frames, n);
    forall i | 0 <= i < |more| && more[i].name == "map" ensures MayHoldMap(more[..i]) {
      assert more[..i] == frames[..i];
      if i == |frames| { assert frames[..i] == frames; }
    }
  }

  lemma StepTaken(p: Parse, n: Node)
    requires InStep(p) && Stands(p.stack, p.count, n)
    ensures InStep(Parse(p.nodes + [n], After(p.stack, n), p.count + (if Opens(n) then 1 else 0), []))
  {
    hide Stands, MapsPlaced, Built, FramesAt, Counted, After, Ids;
    var all := p.nodes + [n];
    BuiltSnoc(p.nodes, n);
    FramesPrefix(p.nodes, n, |p.nodes|);
    CountedPrefix(p.nodes, n);
    PlacedAfter(p.stack, p.count, n);
    DepthPrefix(p.nodes, n, |p.nodes|);
    ClosersHaveBlocks(p.stack, p.count, n);
    assert all[|p.nodes|] == n;
    FramesStep(all, |p.nodes|);
  }

  lemma ClosersHaveBlocks(frames: seq<Frame>, count: nat, n: Node)
    requires Stands(frames, count, n)
    ensures Closes(n) ==> frames != []
  {}

  lemma CountedPrefix(ns: seq<Node>, n: Node)
    ensures Counted(ns + [n], |ns|) <==> Counted(ns, |ns|)
  {
    hide Openers, Depth;
    OpenersPrefix(ns, n, |ns|, |ns|);
    forall k: nat | k <= |ns| ensures Depth(ns + [n], k) == Depth(ns, k) { DepthPrefix(ns, n, k); }
  }

  lemma ReadWord(p: Parse, k: Token)
    requires !IsMark(k.value)
    ensures Read(p, k) == Ok(p.(pending := p.pending + [k]))
  {}

  lemma {:induction false} ReadSound(tokens: seq<Token>)
    requires ReadAll(Ok(ROOT), tokens).Ok?
    ensures var p := ReadAll(Ok(ROOT), tokens).value; InStep(p) && Flatten(p.nodes) + p.pending == tokens
  {
    hide Read, InStep, Stands, Flatten;
    if tokens == [] {
      RootInStep();
    } else {
      var before, k := tokens[..|tokens| - 1], tokens[|tokens| - 1];
      ReadSound(before);
      assert tokens == before + [k];
      ReadMore(ReadAll(Ok(ROOT), before).value, before, k);
    }
  }

  lemma ReadMore(p: Parse, before: seq<Token>, k: Token)
    requires InStep(p) && Flatten(p.nodes) + p.pending == before && Read(p, k).Ok?
    ensures var q := Read(p, k).value; InStep(q) && Flatten(q.nodes) + q.pending == before + [k]
  {
    hide Read, Stands, Flatten, Built, Counted, MapsPlaced, After, FramesAt, Opened;
    if IsMark(k.value) {
      var n := Made(p, k);
      ReadMark(p, k);
      StepTaken(p, n);
      FlattenSnoc(p.nodes, n);
    } else {
      ReadWord(p, k);
    }
  }

  lemma RootInStep()
    ensures InStep(ROOT) && Flatten(ROOT.nodes) + ROOT.pending == []
  {
    NothingCounted([]);
  }

  /** What the parser makes of the statements of the grammar. */
  function Parsed(ns: seq<Node>): Parse { Parse(ns, FramesAt(ns, |ns|), Opened(ns, |ns|), []) }

  lemma {:induction false} ReadComplete(ns: seq<Node>)
    requires Built(ns)
    ensures ReadAll(Ok(ROOT), Flatten(ns)) == Ok(Parsed(ns)) && InStep(Parsed(ns))
  {
    hide Read, InStep, Stands, Flatten, Built, FramesAt, Opened;
    if ns == [] {
      RootInStep();
      NothingParsed();
    } else {
      var before, n := ns[..|ns| - 1], ns[|ns| - 1];
      assert ns == before + [n];
      BuiltSnoc(before, n);
      ReadComplete(before);
      FlattenSnoc(before, n);
      ReadNode(Flatten(before), Parsed(before), n);
    }
  }

  lemma NothingParsed()
    ensures Parsed([]) == ROOT && Flatten([]) == []
  {
    NothingCounted([]);
  }

  lemma ReadNode(tokens: seq<Token>, p: Parse, n: Node)
    requires InStep(p) && p.pending == [] && ReadAll(Ok(ROOT), tokens) == Ok(p) && Stands(p.stack, p.count, n)
    ensures ReadAll(Ok(ROOT), tokens + n.words + [n.term]) == Ok(Parsed(p.nodes + [n])) && InStep(Parsed(p.nodes + [n]))
  {
    hide Read, ReadAll, Stands, InStep, Parsed, Made, IsMark;
    var q := p.(pending := n.words);
    StandsWords(p.stack, p.count, n);
    ReadWordsAfter(tokens, p, n.words);
    ReadOnto(Ok(ROOT), tokens + n.words, n.term);
    MadeIs(q, n);
    assert q.(pending := []) == p;
    ReadTerm(q, n);
  }

  lemma ReadWordsAfter(tokens: seq<Token>, p: Parse, words: seq<Token>)
    requires ReadAll(Ok(ROOT), tokens) == Ok(p) && p.pending == [] && forall w <- words :: !IsMark(w.value)
    ensures ReadAll(Ok(ROOT), tokens + words) == Ok(p.(pending := words))
  {
    hide Read, ReadAll;
    ReadConcat(Ok(ROOT), tokens, words);
    ReadWords(p, words);
    assert [] + words == words;
  }

  /** The mark behind the words of a statement that stands in its place. */
  lemma ReadTerm(q: Parse, n: Node)
    requires InStep(q.(pending := [])) && q.pending == n.words && Made(q, n.term) == n && Stands(q.stack, q.count, n)
    ensures Read(q, n.term) == Ok(Parsed(q.nodes + [n])) && InStep(Parsed(q.nodes + [n]))
  {
    hide Read, Stands, Built, Counted, MapsPlaced, FramesAt, Opened, After, Made;
    StandsWords(q.stack, q.count, n);
    ReadMark(q, n.term);
    StepTaken(q.(pending := []), n);
  }

  lemma StandsWords(frames: seq<Frame>, count: nat, n: Node)
    requires Stands(frames, count, n)
    ensures IsMark(n.term.value) && forall w <- n.words :: !IsMark(w.value)
  {}

  lemma MadeIs(q: Parse, n: Node)
    requires Stands(q.stack, q.count, n) && q.pending == n.words
    ensures Made(q, n.term) == n
  {
    hide Ids, Spells, PlainName, MayHoldMap;
  }

  /** A text parses exactly when its tokens are statements that stand in their places, with every block closed and
      nothing behind them that could hide a server, an access log or an include; and those are its statements. */
  lemma ParsesGrammar(text: string, ns: seq<Node>)
    ensures Nodes(text) == Ok(ns) <==> Tokens(text).Ok? && exists rest :: Grammatical(Tokens(text).value, ns, rest)
  {
    hide Tokens, ReadAll, SecurityRelevant, Flatten, Built, Depth, Harmless, InStep;
    if Tokens(text).Ok? {
      var tokens := Tokens(text).value;
      if Nodes(text) == Ok(ns) {
        var p := ReadAll(Ok(ROOT), tokens).value;
        ReadSound(tokens);
        DepthOfStack(p);
        RestIsHarmless(p.pending);
        assert Grammatical(tokens, ns, p.pending);
      }
      if rest :| Grammatical(tokens, ns, rest) {
        ReadComplete(ns);
        ReadConcat(Ok(ROOT), Flatten(ns), rest);
        RestIsHarmless(rest);
        ReadWords(Parsed(ns), rest);
        assert [] + rest == rest;
        DepthOfStack(Parsed(ns));
      }
    }
  }

  lemma DepthOfStack(p: Parse)
    requires InStep(p)
    ensures (p.stack == [] <==> Depth(p.nodes, |p.nodes|) == 0) && Built(p.nodes)
    ensures forall w <- p.pending :: !IsMark(w.value)
  {
    hide Openers, Depth, Built;
  }

  lemma RestIsHarmless(rest: seq<Token>)
    ensures Harmless(rest) <==> (forall w <- rest :: !IsMark(w.value)) && !SecurityRelevant(rest)
  {}

  /** The block chain of every statement is the outermost-first list of the blocks that enclose it. */
  lemma ChainsAreEnclosing(text: string, k: nat)
    requires Nodes(text).Ok? && k < |Nodes(text).value|
    ensures var ns := Nodes(text).value; var o := Openers(ns, k, k);
      && |ns[k].chain| == |o|
      && forall i :: 0 <= i < |o| ==> o[i] < k && ns[k].chain[i] == ns[o[i]].id
  {
    hide Nodes, Openers, Stands;
    var ns := Nodes(text).value;
    ParsesGrammar(text, ns);
    var rest :| Grammatical(Tokens(text).value, ns, rest);
    assert StandsAt(ns, k);
    ChainOfStands(FramesAt(ns, k), Opened(ns, k), ns[k]);
    var o := Openers(ns, k, k);
    forall i | 0 <= i < |o| ensures o[i] < k { assert o[i] in o; }
  }

  lemma ChainOfStands(frames: seq<Frame>, count: nat, n: Node)
    requires Stands(frames, count, n)
    ensures n.chain == Ids(frames)
  {}

  // ----- The directives

  /** The directive that a terminated statement is, with a given name. */
  function DirectiveNamed(n: Node, name: string): Directive
    requires n.words != []
  {
    Directive(name, n.words[1..], n.words[0].start, n.term.end, n.chain)
  }

  /** Directly inside a block opened by the word `map`. */
  predicate InMapAt(ns: seq<Node>, k: nat)
    requires k <= |ns|
  {
    var o := Openers(ns, k, k);
    o != [] && (assert o[|o| - 1] in o; FirstWord(ns[o[|o| - 1]]) == "map")
  }

  lemma {:induction false} DirectivesAre(ns: seq<Node>, d: Directive)
    requires forall n <- ns :: n.term.value == ";" ==> n.words != []
    ensures d in DirectivesOf(ns) <==> exists n <- ns :: n.term.value == ";" && d == DirectiveNamed(n, n.name)
  {
    hide DirectiveNamed;
    if ns != [] {
      var before, n := ns[..|ns| - 1], ns[|ns| - 1];
      assert ns == before + [n];
      DirectivesAre(before, d);
      LastDirective(ns, d);
      if exists m <- before :: m.term.value == ";" && d == DirectiveNamed(m, m.name) {
        var m :| m in before && m.term.value == ";" && d == DirectiveNamed(m, m.name);
        assert m in ns;
      }
    }
  }

  lemma LastDirective(ns: seq<Node>, d: Directive)
    requires ns != [] && (ns[|ns| - 1].term.value == ";" ==> ns[|ns| - 1].words != [])
    ensures var n := ns[|ns| - 1];
      d in DirectivesOf(ns) <==>
        d in DirectivesOf(ns[..|ns| - 1]) || (n.term.value == ";" && d == DirectiveNamed(n, n.name))
  {}

  lemma InMapAtIs(ns: seq<Node>, k: nat)
    requires k <= |ns|
    ensures InMapAt(ns, k) <==> InMapBody(FramesAt(ns, k))
  {
    hide Openers;
  }

  lemma NameOfStands(frames: seq<Frame>, count: nat, n: Node)
    requires Stands(frames, count, n) && n.term.value == ";"
    ensures n.words != [] && n.name == if InMapBody(frames) then "__map_entry__" else n.words[0].value
  {}

  /** Statement `n` of a text is the directive `d`: under its own first word, or as a row of a map, which is data
      whatever its first word is. */
  predicate IsDirectiveAt(ns: seq<Node>, k: nat, d: Directive)
    requires k < |ns|
  {
    && ns[k].term.value == ";" && ns[k].words != []
    && d == DirectiveNamed(ns[k], if InMapAt(ns, k) then "__map_entry__" else ns[k].words[0].value)
  }

  /** The directives of a text are its terminated statements; a row directly inside a map body is data. */
  lemma RowsAreData(text: string, d: Directive)
    requires Nodes(text).Ok?
    ensures var ns := Nodes(text).value;
      d in ParseNginx(text).value.directives <==> exists k: nat :: k < |ns| && IsDirectiveAt(ns, k, d)
  {
    hide Nodes, Stands, DirectivesOf, FramesAt, Opened, InMapAt, InMapBody, DirectiveNamed;
    var ns := Nodes(text).value;
    ParsesGrammar(text, ns);
    var rest :| Grammatical(Tokens(text).value, ns, rest);
    forall k: nat | k < |ns| && ns[k].term.value == ";"
      ensures ns[k].words != [] && ns[k].name == if InMapAt(ns, k) then "__map_entry__" else ns[k].words[0].value
    {
      assert StandsAt(ns, k);
      InMapAtIs(ns, k);
      NameOfStands(FramesAt(ns, k), Opened(ns, k), ns[k]);
    }
    DirectivesAre(ns, d);
    if n :| n in ns && n.term.value == ";" && d == DirectiveNamed(n, n.name) {
      var k: nat :| k < |ns| && ns[k] == n;
      assert IsDirectiveAt(ns, k, d);
    }
    if k: nat :| k < |ns| && IsDirectiveAt(ns, k, d) { assert ns[k] in ns; }
  }

  // ----- The blocks

  lemma {:induction false} BlocksAre(ns: seq<Node>, b: Block)
    ensures b in BlocksOf(ns) <==> exists n <- ns :: n.term.value == "{" && b == Block(n.id, n.name, n.term, n.chain)
  {
    if ns != [] {
      var before, n := ns[..|ns| - 1], ns[|ns| - 1];
      assert ns == before + [n];
      BlocksAre(before, b);
      LastBlock(ns, b);
      if exists m <- before :: m.term.value == "{" && b == Block(m.id, m.name, m.term, m.chain) {
        var m :| m in before && m.term.value == "{" && b == Block(m.id, m.name, m.term, m.chain);
        assert m in ns;
      }
    }
  }

  lemma LastBlock(ns: seq<Node>, b: Block)
    requires ns != []
    ensures var n := ns[|ns| - 1];
      b in BlocksOf(ns) <==>
        b in BlocksOf(ns[..|ns| - 1]) || (n.term.value == "{" && b == Block(n.id, n.name, n.term, n.chain))
  {}

  lemma OpenerOfStands(frames: seq<Frame>, count: nat, n: Node)
    requires Stands(frames, count, n) && n.term.value == "{"
    ensures n.words != [] && n.name == n.words[0].value && n.id == count + 1
  {}

  /** Statement `k` opens the block: under its own first word, numbered in the order of the openers. */
  predicate IsOpenerAt(ns: seq<Node>, k: nat, b: Block)
    requires k < |ns|
  {
    ns[k].term.value == "{" && ns[k].words != []
    && b == Block(Opened(ns, k) + 1, ns[k].words[0].value, ns[k].term, ns[k].chain)
  }

  /** The blocks of a text are its openers, numbered from one in their order. */
  lemma BlocksAreOpeners(text: string, b: Block)
    requires Nodes(text).Ok?
    ensures var ns := Nodes(text).value;
      b in ParseNginx(text).value.blocks <==> exists k: nat :: k < |ns| && IsOpenerAt(ns, k, b)
  {
    hide Nodes, Stands, BlocksOf, FramesAt, Opened;
    var ns := Nodes(text).value;
    ParsesGrammar(text, ns);
    var rest :| Grammatical(Tokens(text).value, ns, rest);
    forall k: nat | k < |ns| && ns[k].term.value == "{"
      ensures ns[k].words != [] && ns[k].name == ns[k].words[0].value && ns[k].id == Opened(ns, k) + 1
    {
      assert StandsAt(ns, k);
      OpenerOfStands(FramesAt(ns, k), Opened(ns, k), ns[k]);
    }
    BlocksAre(ns, b);
    if n :| n in ns && n.term.value == "{" && b == Block(n.id, n.name, n.term, n.chain) {
      var k: nat :| k < |ns| && ns[k] == n;
      assert IsOpenerAt(ns, k, b);
    }
    if k: nat :| k < |ns| && IsOpenerAt(ns, k, b) { assert ns[k] in ns; }
  }

  // ----- Errors

  /** What is wrong with words and a mark that make no statement between these enclosing blocks. */
  function Fault(frames: seq<Frame>, words: seq<Token>, mark: string): Error {
    var word := if words == [] then "" else words[0].value;
    if mark == ";" then
      if words == [] then EmptyDirective else if InMapBody(frames) then MapInclude else QuotedName
    else if mark == "{" then
      if words == [] then UnnamedBlock
      else if '\'' in word || '"' in word || '\\' in word then QuotedName
      else if InMapBody(frames) then MapNesting
      else MapContext
    else if words != [] then UnterminatedDirective
    else UnmatchedBrace
  }

  lemma MarkFails(p: Parse, k: Token)
    requires IsMark(k.value) && MapsPlaced(p.stack) && forall w <- p.pending :: !IsMark(w.value)
    requires Read(p, k).Err?
    ensures Read(p, k) == Err(Fault(p.stack, p.pending, k.value))
  {
    hide Ids, MayHoldMap, MapContextOk, Unquoted, Lower;
    ContextIs(p.stack);
    if p.stack != [] {
      ContextIs(p.stack[..|p.stack| - 1]);
      assert InMapBody(p.stack) ==> MayHoldMap(p.stack[..|p.stack| - 1]);
    }
  }

  /** A text whose tokens begin with statements that stand in their places, and go on with words and a mark that make no
      statement there, fails to parse for exactly that reason, whatever follows. */
  lemma ParseFails(text: string, ns: seq<Node>, words: seq<Token>, k: Token, more: seq<Token>)
    requires Tokens(text) == Ok(Flatten(ns) + words + [k] + more) && Built(ns)
    requires (forall w <- words :: !IsMark(w.value)) && IsMark(k.value)
    requires forall n: Node :: n.words == words && n.term == k ==> !Stands(FramesAt(ns, |ns|), Opened(ns, |ns|), n)
    ensures Nodes(text) == Err(Fault(FramesAt(ns, |ns|), words, k.value))
  {
    hide Tokens, ReadAll, Read, Flatten, Built, Stands, FramesAt, Opened, Fault, Counted, MapsPlaced, Made;
    ReadComplete(ns);
    ReadWordsAfter(Flatten(ns), Parsed(ns), words);
    var q := Parsed(ns).(pending := words);
    ReadMark(q, k);
    MadeFrom(q, k);
    assert Made(q, k).words == words && Made(q, k).term == k;
    MarkFails(q, k);
    ReadOnto(Ok(ROOT), Flatten(ns) + words, k);
    ReadConcat(Ok(ROOT), Flatten(ns) + words + [k], more);
    ReadErr(Fault(q.stack, words, k.value), more);
  }

  lemma MadeFrom(p: Parse, k: Token)
    ensures Made(p, k).words == p.pending || k.value == "}"
    ensures Made(p, k).term == k && (k.value == "}" ==> Made(p, k).words == p.pending)
  {}

  /** A text that ends too early: in an open block, or with words that could hide a server, an access log or an include. */
  lemma ParseEnds(text: string, ns: seq<Node>, rest: seq<Token>)
    requires Tokens(text) == Ok(Flatten(ns) + rest) && Built(ns) && forall w <- rest :: !IsMark(w.value)
    requires Depth(ns, |ns|) != 0 || !Harmless(rest)
    ensures Nodes(text) == Err(if Depth(ns, |ns|) != 0 then UnterminatedBlock else UnterminatedSecurityDirective)
  {
    hide Tokens, ReadAll, SecurityRelevant, Flatten, Built, Depth, Harmless, InStep;
    ReadComplete(ns);
    RestIsHarmless(rest);
    ReadWordsAfter(Flatten(ns), Parsed(ns), rest);
    DepthOfStack(Parsed(ns));
  }
}
