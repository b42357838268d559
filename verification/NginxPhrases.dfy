/** The statements the configurator writes itself: words separated by one space and closed by a semicolon. */
module NginxPhrases {
  import opened PythonText
  import opened NginxText
  import opened NginxLexer
  import opened NginxParser
  import opened NginxDocument

  /** The words, one space apart, and a semicolon. */
  function Phrase(words: seq<string>): string {
    if words == [] then ";" else words[0] + (if |words| == 1 then "" else " ") + Phrase(words[1..])
  }

  const ACCESS_LOG := "access_log"
  const ACCESS_LOG_WORDS := [ACCESS_LOG, "/var/log/nginx/access.log", "astra_no_args"]
  const PROXY_SET_HEADER := "proxy_set_header"
  const REMOTE_ADDR := "$remote_addr"
  const REAL_IP_WORDS := [PROXY_SET_HEADER, "X-Real-IP", REMOTE_ADDR]
  const FORWARDED_FOR_WORDS := [PROXY_SET_HEADER, "X-Forwarded-For", REMOTE_ADDR]
  const ADD_HEADER := "add_header"
  const RETRY_AFTER_WORDS := [ADD_HEADER, "Retry-After", "\"60\"", "always"]
  const NO_STORE_WORDS := [ADD_HEADER, "Cache-Control", "\"no-store\"", "always"]
  const RETURN := "return"
  const RETURN_503_WORDS := [RETURN, "503"]

  /** `access_log /var/log/nginx/access.log astra_no_args;` */
  const REDACTED_ACCESS_LOG := Phrase(ACCESS_LOG_WORDS)

  /** A word that is one token on its own: unquoted, or between two double quotes. */
  predicate Simple(w: string) {
    || (w != "" && Plain(w))
    || (|w| >= 2 && w[0] == '"' && w[|w| - 1] == '"' && Plain(w[1..|w| - 1]))
  }

  lemma PlainSplit(w: string)
    requires w != "" && Plain(w)
    ensures w == w[..|w| - 1] + [w[|w| - 1]] && Plain(w[..|w| - 1]) && IsPlain(w[|w| - 1])
  {
    assert w[|w| - 1] in w;
    assert forall x :: x in w[..|w| - 1] ==> x in w;
  }

  /** The state after the characters of an unquoted word. */
  lemma {:induction false} RunPlain(ts: seq<Token>, at: int, w: string)
    requires w != "" && Plain(w)
    ensures Run(Lex(ts, Gap, "", at), w) == Lex(ts, Word(false), w, at + |w|)
  {
    hide Plain, IsSpace;
    var u, c := w[..|w| - 1], w[|w| - 1];
    PlainSplit(w);
    if u == "" {
      assert w == [c];
      RunOne(Lex(ts, Gap, "", at), c);
    } else {
      RunPlain(ts, at, u);
      RunSnoc(Lex(ts, Gap, "", at), u, c);
    }
  }

  lemma {:induction false} RunInQuotes(s: Lex, w: string)
    requires s.mode == Quoted('"', false) && Plain(w)
    ensures Run(s, w) == Lex(s.tokens, s.mode, s.word + w, s.at + |w|)
  {
    hide IsSpace;
    if w == "" {
      assert s.word + w == s.word;
    } else {
      var u, c := w[..|w| - 1], w[|w| - 1];
      assert w == u + [c];
      assert IsPlain(c) by { assert w[|w| - 1] in w; }
      assert Plain(u) by { assert forall x :: x in u ==> x in w; }
      RunInQuotes(s, u);
      assert s.word + u + [c] == s.word + w;
    }
  }

  lemma RunQuotedWord(ts: seq<Token>, at: int, w: string)
    requires |w| >= 2 && w[0] == '"' && w[|w| - 1] == '"' && Plain(w[1..|w| - 1])
    ensures Run(Lex(ts, Gap, "", at), w) == Lex(ts + [Token(w, at, at + |w|)], Gap, "", at + |w|)
  {
    hide Plain, Step, Run;
    var s, inner := Lex(ts, Gap, "", at), w[1..|w| - 1];
    assert w == ['"'] + inner + ['"'];
    RunConcat(s, ['"'], inner);
    RunOne(s, '"');
    QuoteOpens(s);
    RunInQuotes(Lex(ts, Quoted('"', false), ['"'], at + 1), inner);
    RunSnoc(s, ['"'] + inner, '"');
    QuoteCloses(Lex(ts, Quoted('"', false), ['"'] + inner, at + 1 + |inner|));
  }

  lemma QuoteCloses(s: Lex)
    requires s.mode == Quoted('"', false)
    ensures Step(s, '"') == Lex(s.tokens + [Token(s.word + ['"'], s.at - |s.word|, s.at + 1)], Gap, "", s.at + 1)
  {}

  lemma QuoteOpens(s: Lex)
    requires s.mode == Gap
    ensures Step(s, '"') == Lex(s.tokens, Quoted('"', false), ['"'], s.at + 1)
  {}

  lemma WordEnds(ts: seq<Token>, at: int, w: string, c: char)
    requires c == ' ' || c == ';'
    ensures Step(Lex(ts, Word(false), w, at + |w|), c) == Begin(ts + [Token(w, at, at + |w|)], at + |w|, c)
  {
    hide Begin;
  }

  lemma GapBegins(ts: seq<Token>, at: int, c: char)
    ensures Step(Lex(ts, Gap, "", at), c) == Begin(ts, at, c)
  {}

  /** A simple word followed by a space or a semicolon is one token. */
  lemma RunSimple(ts: seq<Token>, at: int, w: string, c: char)
    requires Simple(w) && (c == ' ' || c == ';')
    ensures Run(Lex(ts, Gap, "", at), w + [c]) == Begin(ts + [Token(w, at, at + |w|)], at + |w|, c)
  {
    hide Run, Begin, Step, Plain;
    RunSnoc(Lex(ts, Gap, "", at), w, c);
    if w != "" && Plain(w) {
      RunPlain(ts, at, w);
      WordEnds(ts, at, w, c);
    } else {
      RunQuotedWord(ts, at, w);
      GapBegins(ts + [Token(w, at, at + |w|)], at + |w|, c);
    }
  }

  /** The tokens of the words from offset `at`, one space apart. */
  function WordTokens(words: seq<string>, at: int): seq<Token> {
    if words == [] then []
    else [Token(words[0], at, at + |words[0]|)]
         + WordTokens(words[1..], at + |words[0]| + if |words| == 1 then 0 else 1)
  }

  lemma {:induction false} RunPhrase(ts: seq<Token>, at: int, words: seq<string>)
    requires words != [] && forall i :: 0 <= i < |words| ==> Simple(words[i])
    ensures var end := at + |Phrase(words)|;
      Run(Lex(ts, Gap, "", at), Phrase(words))
        == Lex(ts + WordTokens(words, at) + [Token(";", end - 1, end)], Gap, "", end)
    decreases |words|
  {
    hide Simple, Run, Phrase, WordTokens;
    var s, w := Lex(ts, Gap, "", at), words[0];
    var k := Token(w, at, at + |w|);
    PhraseFirst(words, at);
    if |words| == 1 {
      RunSimple(ts, at, w, ';');
    } else {
      var rest := words[1..];
      RunSimple(ts, at, w, ' ');
      RunConcat(s, w + [' '], Phrase(rest));
      RunPhrase(ts + [k], at + |w| + 1, rest);
      assert ts + [k] + WordTokens(rest, at + |w| + 1) == ts + ([k] + WordTokens(rest, at + |w| + 1));
    }
  }

  lemma PhraseFirst(words: seq<string>, at: int)
    requires words != []
    ensures var w := words[0]; var k := Token(w, at, at + |w|);
      && (|words| == 1 ==> Phrase(words) == w + [';'] && WordTokens(words, at) == [k])
      && (|words| > 1 ==> Phrase(words) == w + [' '] + Phrase(words[1..])
                          && WordTokens(words, at) == [k] + WordTokens(words[1..], at + |w| + 1))
  {
    if |words| == 1 {
      assert words[1..] == [];
      assert Phrase([]) == ";";
      assert words[0] + "" + ";" == words[0] + [';'];
    }
  }

  lemma {:induction false} WordTokenValues(words: seq<string>, at: int)
    ensures |WordTokens(words, at)| == |words| && Values(WordTokens(words, at)) == words
  {
    if words != [] {
      var d := if |words| == 1 then 0 else 1;
      WordTokenValues(words[1..], at + |words[0]| + d);
      assert WordTokens(words, at)[1..] == WordTokens(words[1..], at + |words[0]| + d);
      assert words == [words[0]] + words[1..];
    }
  }

  lemma SimpleIsNoMark(w: string)
    requires Simple(w)
    ensures !IsMark(w) && !IsSpace(w[0]) && w[0] != '#'
  {
    assert w[0] in w;
    assert w == "\"" + w[1..] || Plain(w);
  }

  lemma {:induction false} PhraseEnds(words: seq<string>)
    ensures Phrase(words) != "" && Phrase(words)[|Phrase(words)| - 1] == ';'
  {
    if words != [] { PhraseEnds(words[1..]); }
  }

  lemma WordsAreNoMarks(words: seq<string>)
    requires forall i :: 0 <= i < |words| ==> Simple(words[i])
    ensures NoMarks(WordTokens(words, 0))
  {
    hide Simple, WordTokens;
    var ts := WordTokens(words, 0);
    WordTokenValues(words, 0);
    ValuesIndex(ts);
    forall k | k in ts ensures !IsMark(k.value) {
      var i :| 0 <= i < |ts| && ts[i] == k;
      SimpleIsNoMark(words[i]);
    }
  }

  /** A phrase of simple words reads as one statement. */
  lemma PhraseLexes(words: seq<string>)
    requires words != [] && forall i :: 0 <= i < |words| ==> Simple(words[i])
    ensures LexesAs(Phrase(words), words, ';')
  {
    hide Simple, Phrase, WordTokens, Run, NoMarks, Values, IsSpace, IsMark, Plain, LexesAs;
    var raw, ts := Phrase(words), WordTokens(words, 0);
    RunPhrase([], 0, words);
    WordTokenValues(words, 0);
    PhraseEnds(words);
    assert [] + ts == ts;
    WordsAreNoMarks(words);
    SimpleIsNoMark(words[0]);
    FirstOfPhrase(words);
    LexesIntro(raw, words, ts);
  }

  lemma LexesIntro(raw: string, words: seq<string>, ts: seq<Token>)
    requires raw != "" && raw[|raw| - 1] == ';' && !IsSpace(raw[0]) && raw[0] != '#'
    requires |ts| == |words| > 0 && Values(ts) == words && NoMarks(ts) && ts[0].start == 0
    requires Run(START, raw) == Lex(ts + [Token(";", |raw| - 1, |raw|)], Gap, "", |raw|)
    ensures LexesAs(raw, words, ';')
  {
    hide Run, Values, NoMarks, IsSpace;
    var all := Run(START, raw).tokens;
    assert all[..|words|] == ts;
    assert ";" == [';'];
  }

  lemma FirstOfPhrase(words: seq<string>)
    requires words != [] && Simple(words[0])
    ensures Phrase(words)[0] == words[0][0] && WordTokens(words, 0)[0].start == 0
  {}

  /** Printable ASCII without the characters the tokenizer treats specially. */
  predicate Graphic(c: char) {
    'a' <= c <= 'z' || 'A' <= c <= 'Z' || '0' <= c <= '9' || c in "_-/.$:"
  }

  lemma GraphicIsPlain(w: string)
    requires forall i :: 0 <= i < |w| ==> Graphic(w[i])
    ensures Plain(w)
  {
    forall c | c in w ensures IsPlain(c) {
      var i :| 0 <= i < |w| && w[i] == c;
      assert Graphic(w[i]);
    }
  }

  lemma PlainWords()
    ensures Plain(ACCESS_LOG) && Plain(ACCESS_LOG_WORDS[1]) && Plain(ACCESS_LOG_WORDS[2])
    ensures Plain(PROXY_SET_HEADER) && Plain(REMOTE_ADDR)
    ensures Plain(REAL_IP_WORDS[1]) && Plain(FORWARDED_FOR_WORDS[1])
  {
    hide Plain;
    GraphicIsPlain(ACCESS_LOG);
    GraphicIsPlain(ACCESS_LOG_WORDS[1]);
    GraphicIsPlain(ACCESS_LOG_WORDS[2]);
    GraphicIsPlain(PROXY_SET_HEADER);
    GraphicIsPlain(REMOTE_ADDR);
    GraphicIsPlain(REAL_IP_WORDS[1]);
    GraphicIsPlain(FORWARDED_FOR_WORDS[1]);
  }

  lemma FenceWords()
    ensures Plain(ADD_HEADER) && Plain(RETURN) && Plain("503") && Plain("always")
    ensures Plain("Retry-After") && Plain("Cache-Control") && Simple("\"60\"") && Simple("\"no-store\"")
  {
    hide Plain;
    GraphicIsPlain(ADD_HEADER);
    GraphicIsPlain(RETURN);
    GraphicIsPlain("503");
    GraphicIsPlain("always");
    GraphicIsPlain("Retry-After");
    GraphicIsPlain("Cache-Control");
    GraphicIsPlain("60");
    GraphicIsPlain("no-store");
    assert "\"60\""[1..3] == "60";
    assert "\"no-store\""[1..9] == "no-store";
  }

  /** The configurator's own statements read as the statements they are meant to be. */
  lemma AccessLogLexes()
    ensures LexesAs(REDACTED_ACCESS_LOG, ACCESS_LOG_WORDS, ';')
  {
    hide LexesAs, Plain, Phrase;
    PlainWords();
    PhraseLexes(ACCESS_LOG_WORDS);
  }

  lemma HeadersLex()
    ensures LexesAs(Phrase(REAL_IP_WORDS), REAL_IP_WORDS, ';')
    ensures LexesAs(Phrase(FORWARDED_FOR_WORDS), FORWARDED_FOR_WORDS, ';')
  {
    hide LexesAs, Plain, Phrase;
    PlainWords();
    PhraseLexes(REAL_IP_WORDS);
    PhraseLexes(FORWARDED_FOR_WORDS);
  }

  lemma FenceLexes()
    ensures LexesAs(Phrase(RETRY_AFTER_WORDS), RETRY_AFTER_WORDS, ';')
    ensures LexesAs(Phrase(NO_STORE_WORDS), NO_STORE_WORDS, ';')
    ensures LexesAs(Phrase(RETURN_503_WORDS), RETURN_503_WORDS, ';')
  {
    hide LexesAs, Plain, Phrase;
    FenceWords();
    PhraseLexes(RETRY_AFTER_WORDS);
    PhraseLexes(NO_STORE_WORDS);
    PhraseLexes(RETURN_503_WORDS);
  }
}
