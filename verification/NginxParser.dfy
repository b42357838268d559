module NginxParser {

  // The brace-stack parser: the token loop of the configurator, and the statements it reads in order.

  import opened PythonText
  import opened NginxText
  import opened NginxLexer

  datatype Block = Block(identifier: nat, name: string, opener: Token, parents: seq<nat>)

  datatype Directive = Directive(name: string, arguments: seq<Token>, start: int, end: int, blocks: seq<nat>)

  datatype ParsedConfig = ParsedConfig(blocks: seq<Block>, directives: seq<Directive>)

  const MAP_ENTRY_NAME := "__map_entry__"

  /** An open block on the parser's stack. */
  datatype Frame = Frame(id: nat, name: string)

  function Ids(stack: seq<Frame>): seq<nat> {
    seq(|stack|, i requires 0 <= i < |stack| => stack[i].id)
  }

  function Names(stack: seq<Frame>): seq<string> {
    seq(|stack|, i requires 0 <= i < |stack| => stack[i].name)
  }

  /** The text without quotes and backslashes. */
  function Unquoted(s: string): string {
    if s == "" then ""
    else if IsQuote(s[0]) || s[0] == '\\' then Unquoted(s[1..])
    else [s[0]] + Unquoted(s[1..])
  }

  function DirectiveName(word: string): Result<string> {
    if '\'' in word || '"' in word || '\\' in word then Err(QuotedName) else Ok(word)
  }

  predicate InMap(stack: seq<Frame>) { stack != [] && stack[|stack| - 1].name == "map" }

  predicate MapContextOk(outer: seq<Frame>) {
    Names(outer) == [] || Names(outer) == ["http"] || Names(outer) == ["stream"]
  }

  /** The name of a terminated statement; every row of a map body is data. */
  function StatementName(word: string, stack: seq<Frame>): Result<string> {
    if InMap(stack) then
      if !MapContextOk(stack[..|stack| - 1]) then Err(MapContext)
      else if Lower(Unquoted(word)) == "include" then Err(MapInclude)
      else Ok(MAP_ENTRY_NAME)
    else DirectiveName(word)
  }

  function BlockName(word: string, stack: seq<Frame>): Result<string> {
    var name :- DirectiveName(word);
    if InMap(stack) then Err(MapNesting)
    else if name == "map" && !MapContextOk(stack) then Err(MapContext)
    else Ok(name)
  }

  /** One statement as read: `a b;`, `a b {` or `}`, with its name, the identifiers of the blocks around it, and the
      identifier of the block it opens (0 when it opens none). */
  datatype Node = Node(words: seq<Token>, term: Token, name: string, chain: seq<nat>, id: nat) {
    function Start(): int { if words == [] then term.start else words[0].start }
  }

  datatype Parse = Parse(nodes: seq<Node>, stack: seq<Frame>, count: nat, pending: seq<Token>)

  const ROOT := Parse([], [], 0, [])

  function Read(p: Parse, k: Token): Result<Parse> {
    if k.value == ";" then
      if p.pending == [] then Err(EmptyDirective)
      else
        var name :- StatementName(p.pending[0].value, p.stack);
        Ok(Parse(p.nodes + [Node(p.pending, k, name, Ids(p.stack), 0)], p.stack, p.count, []))
    else if k.value == "{" then
      if p.pending == [] then Err(UnnamedBlock)
      else
        var name :- BlockName(p.pending[0].value, p.stack);
        Ok(Parse(p.nodes + [Node(p.pending, k, name, Ids(p.stack), p.count + 1)],
                 p.stack + [Frame(p.count + 1, name)], p.count + 1, []))
    else if k.value == "}" then
      if p.pending != [] then Err(UnterminatedDirective)
      else if p.stack == [] then Err(UnmatchedBrace)
      else Ok(Parse(p.nodes + [Node([], k, "}", Ids(p.stack), 0)], p.stack[..|p.stack| - 1], p.count, []))
    else Ok(p.(pending := p.pending + [k]))
  }

  function ReadAll(p: Result<Parse>, tokens: seq<Token>): Result<Parse> {
    if tokens == [] then p
    else
      var q :- ReadAll(p, tokens[..|tokens| - 1]);
      Read(q, tokens[|tokens| - 1])
  }

  function DirectivesOf(nodes: seq<Node>): seq<Directive> {
    if nodes == [] then []
    else
      var n := nodes[|nodes| - 1];
      DirectivesOf(nodes[..|nodes| - 1]) +
      if n.term.value == ";" && n.words != []
      then [Directive(n.name, n.words[1..], n.Start(), n.term.end, n.chain)] else []
  }

  function BlocksOf(nodes: seq<Node>): seq<Block> {
    if nodes == [] then []
    else
      var n := nodes[|nodes| - 1];
      BlocksOf(nodes[..|nodes| - 1]) +
      if n.term.value == "{" then [Block(n.id, n.name, n.term, n.chain)] else []
  }

  predicate SecurityRelevant(tokens: seq<Token>) {
    exists k <- tokens :: k.value == "server" || k.value == "access_log" || k.value == "include"
  }

  /** The statements of a text, in order. */
  function Nodes(text: string): Result<seq<Node>> {
    var tokens :- Tokens(text);
    var p :- ReadAll(Ok(ROOT), tokens);
    if p.stack != [] then Err(UnterminatedBlock)
    else if SecurityRelevant(p.pending) then Err(UnterminatedSecurityDirective)
    else Ok(p.nodes)
  }

  /** The parsed configuration: the blocks and the directives among the statements. */
  function ParseNginx(text: string): Result<ParsedConfig> {
    var nodes :- Nodes(text);
    Ok(ParsedConfig(BlocksOf(nodes), DirectivesOf(nodes)))
  }

  // ----- Reading token lists piece by piece

  lemma {:induction false} ReadConcat(p: Result<Parse>, a: seq<Token>, b: seq<Token>)
    ensures ReadAll(p, a + b) == ReadAll(ReadAll(p, a), b)
  {
    if b == [] {
      assert a + b == a;
    } else {
      assert (a + b)[..|a + b| - 1] == a + b[..|b| - 1];
      ReadConcat(p, a, b[..|b| - 1]);
    }
  }

  lemma {:induction false} ReadErr(e: Error, a: seq<Token>)
    ensures ReadAll(Err(e), a) == Err(e)
  {
    if a != [] { ReadErr(e, a[..|a| - 1]); }
  }

  predicate IsMark(v: string) { v == ";" || v == "{" || v == "}" }

  /** Tokens that are not punctuation only wait for the end of their statement. */
  lemma {:induction false} ReadWords(p: Parse, a: seq<Token>)
    requires forall k <- a :: !IsMark(k.value)
    ensures ReadAll(Ok(p), a) == Ok(p.(pending := p.pending + a))
  {
    if a == [] {
      assert p.pending + a == p.pending;
    } else {
      ReadWords(p, a[..|a| - 1]);
      assert a == a[..|a| - 1] + [a[|a| - 1]];
      assert p.pending + a == p.pending + a[..|a| - 1] + [a[|a| - 1]];
    }
  }

  lemma ReadOnto(p: Result<Parse>, a: seq<Token>, k: Token)
    ensures ReadAll(p, a + [k]) == if ReadAll(p, a).Ok? then Read(ReadAll(p, a).value, k) else ReadAll(p, a)
  {
    hide Read;
    assert (a + [k])[..|a + [k]| - 1] == a;
  }

  // ----- The parser loop

  function FramesOf(stack: seq<Block>): seq<Frame> {
    seq(|stack|, i requires 0 <= i < |stack| => Frame(stack[i].identifier, stack[i].name))
  }

  lemma DirectivesSnoc(nodes: seq<Node>, n: Node)
    ensures DirectivesOf(nodes + [n]) == DirectivesOf(nodes) +
      (if n.term.value == ";" && n.words != []
       then [Directive(n.name, n.words[1..], n.Start(), n.term.end, n.chain)] else [])
    ensures BlocksOf(nodes + [n]) == BlocksOf(nodes) +
      (if n.term.value == "{" then [Block(n.id, n.name, n.term, n.chain)] else [])
  {
    assert (nodes + [n])[..|nodes + [n]| - 1] == nodes;
  }

  /** The parser's variables after `i` tokens: what `ReadAll` has read. */
  ghost predicate ReadSoFar(tokens: seq<Token>, i: nat, nodes: seq<Node>, blocks: seq<Block>, directives: seq<Directive>,
                            stack: seq<Block>, next: nat, pending: seq<Token>)
    requires i <= |tokens|
  {
    && next >= 1
    && ReadAll(Ok(ROOT), tokens[..i]) == Ok(Parse(nodes, FramesOf(stack), next - 1, pending))
    && blocks == BlocksOf(nodes) && directives == DirectivesOf(nodes)
  }

  lemma ReadNext(tokens: seq<Token>, i: nat, p: Parse)
    requires i < |tokens| && ReadAll(Ok(ROOT), tokens[..i]) == Ok(p)
    ensures ReadAll(Ok(ROOT), tokens[..i + 1]) == Read(p, tokens[i])
    ensures Read(p, tokens[i]).Err? ==> ReadAll(Ok(ROOT), tokens) == Read(p, tokens[i])
  {
    hide Read;
    assert tokens[..i + 1] == tokens[..i] + [tokens[i]];
    ReadOnto(Ok(ROOT), tokens[..i], tokens[i]);
    RestFails(tokens, i + 1);
  }

  lemma PushFrame(stack: seq<Block>, block: Block)
    ensures FramesOf(stack + [block]) == FramesOf(stack) + [Frame(block.identifier, block.name)]
  {}

  lemma PopFrame(stack: seq<Block>)
    requires stack != []
    ensures FramesOf(stack[..|stack| - 1]) == FramesOf(stack)[..|stack| - 1]
  {}

  method ParseText(text: string) returns (r: Result<ParsedConfig>)
    ensures r == ParseNginx(text)
  {
    hide StatementName, BlockName, DirectivesOf, BlocksOf, Ids, FramesOf;
    var blocks: seq<Block> := [];
    var directives: seq<Directive> := [];
    var stack: seq<Block> := [];
    var directiveTokens: seq<Token> := [];
    var nextBlockIdentifier := 1;
    var tokens :- Tokenize(text);
    ghost var nodes: seq<Node> := [];
    var i := 0;
    ReadNothing(tokens);
    while i < |tokens|
      invariant i <= |tokens|
      invariant ReadSoFar(tokens, i, nodes, blocks, directives, stack, nextBlockIdentifier, directiveTokens)
    {
      var token := tokens[i];
      var chain := Ids(FramesOf(stack));
      ReadNext(tokens, i, Parse(nodes, FramesOf(stack), nextBlockIdentifier - 1, directiveTokens));
      i := i + 1;
      if token.value == ";" {
        if directiveTokens == [] {
          return Err(EmptyDirective);
        }
        var name :- StatementName(directiveTokens[0].value, FramesOf(stack));
        DirectivesSnoc(nodes, Node(directiveTokens, token, name, chain, 0));
        nodes := nodes + [Node(directiveTokens, token, name, chain, 0)];
        directives := directives + [Directive(name, directiveTokens[1..], directiveTokens[0].start, token.end, chain)];
        directiveTokens := [];
        continue;
      }
      if token.value == "{" {
        if directiveTokens == [] {
          return Err(UnnamedBlock);
        }
        var name :- BlockName(directiveTokens[0].value, FramesOf(stack));
        var block := Block(nextBlockIdentifier, name, token, chain);
        DirectivesSnoc(nodes, Node(directiveTokens, token, name, chain, nextBlockIdentifier));
        PushFrame(stack, block);
        nodes := nodes + [Node(directiveTokens, token, name, chain, nextBlockIdentifier)];
        nextBlockIdentifier := nextBlockIdentifier + 1;
        blocks := blocks + [block];
        stack := stack + [block];
        directiveTokens := [];
        continue;
      }
      if token.value == "}" {
        if directiveTokens != [] {
          return Err(UnterminatedDirective);
        }
        SameEmptiness(stack);
        if stack == [] {
          return Err(UnmatchedBrace);
        }
        DirectivesSnoc(nodes, Node([], token, "}", chain, 0));
        PopFrame(stack);
        nodes := nodes + [Node([], token, "}", chain, 0)];
        stack := stack[..|stack| - 1];
        continue;
      }
      directiveTokens := directiveTokens + [token];
    }
    assert tokens[..i] == tokens;
    SameEmptiness(stack);
    if stack != [] {
      return Err(UnterminatedBlock);
    }
    if SecurityRelevant(directiveTokens) {
      return Err(UnterminatedSecurityDirective);
    }
    return Ok(ParsedConfig(blocks, directives));
  }

  lemma ReadNothing(tokens: seq<Token>)
    ensures ReadSoFar(tokens, 0, [], [], [], [], 1, [])
  {
    assert tokens[..0] == [] && FramesOf([]) == [];
  }

  lemma SameEmptiness(stack: seq<Block>)
    ensures |FramesOf(stack)| == |stack|
  {}

  /** A statement that cannot be read makes the whole parse fail in the same way. */
  lemma RestFails(tokens: seq<Token>, i: nat)
    requires i <= |tokens|
    ensures ReadAll(Ok(ROOT), tokens[..i]).Err? ==> ReadAll(Ok(ROOT), tokens) == ReadAll(Ok(ROOT), tokens[..i])
  {
    hide Read;
    assert tokens == tokens[..i] + tokens[i..];
    ReadConcat(Ok(ROOT), tokens[..i], tokens[i..]);
    if ReadAll(Ok(ROOT), tokens[..i]).Err? {
      ReadErr(ReadAll(Ok(ROOT), tokens[..i]).error, tokens[i..]);
    }
  }
}
