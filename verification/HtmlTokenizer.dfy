/** The tag tokenizer simpleHTMLTokenize (telegram/formatting.go).  Attributes are skipped, not parsed. */
module HtmlTokenizer {

  /** A piece of text, or a tag with its raw source; a nameless tag is not a tag. */
  datatype Token = Token(isTag: bool, isClosing: bool, name: string, text: string)

  /** unicode.IsSpace. */
  predicate IsSpace(c: char) {
    var v := c as int;
    || 9 <= v <= 13 || v == 0x20 || v == 0x85 || v == 0xA0 || v == 0x1680 || 0x2000 <= v <= 0x200a
    || v == 0x2028 || v == 0x2029 || v == 0x202f || v == 0x205f || v == 0x3000
  }

  function TrimLeft(s: string): string {
    if s != [] && IsSpace(s[0]) then TrimLeft(s[1..]) else s
  }

  function TrimRight(s: string): string {
    if s != [] && IsSpace(s[|s| - 1]) then TrimRight(s[..|s| - 1]) else s
  }

  function TrimSpace(s: string): string {
    TrimRight(TrimLeft(s))
  }

  /** strings.ToLower, exact on ASCII; `lower` does the rest of Unicode. */
  function ToLower(s: string, lower: char -> char): string {
    if s == [] then []
    else
      var v := s[0] as int;
      [if 65 <= v <= 90 then (v + 32) as char else if v < 128 then s[0] else lower(s[0])] + ToLower(s[1..], lower)
  }

  predicate EndsName(c: char) {
    c == ' ' || c == '\t' || c == '\n' || c == '\r' || c as int == 12 || c == '/'
  }

  function NameLength(content: string): (n: nat)
    ensures n <= |content|
  {
    if content == [] || EndsName(content[0]) then 0 else 1 + NameLength(content[1..])
  }

  /** How far the text before the next '<' reaches. */
  function TextLength(s: string): (n: nat)
    ensures n <= |s|
  {
    if s == [] || s[0] == '<' then 0 else 1 + TextLength(s[1..])
  }

  /** The quote that is open after reading `c`; NUL stands for none. */
  function QuoteAfter(quote: char, c: char): char {
    if quote != '\0' then (if c == quote then '\0' else quote)
    else if c == '\'' || c == '"' then c
    else '\0'
  }

  /** The offset of the '>' that closes the tag, quoted ones aside, or the length of `s`. */
  function TagLength(s: string, quote: char): (n: nat)
    ensures n <= |s|
  {
    if s == [] || (quote == '\0' && s[0] == '>') then 0 else 1 + TagLength(s[1..], QuoteAfter(quote, s[0]))
  }

  function TagToken(raw: string, lower: char -> char): Token
    requires |raw| >= 2
  {
    var inner := TrimSpace(raw[1..|raw| - 1]);
    var closing := inner != [] && inner[0] == '/';
    var content := if closing then TrimSpace(inner[1..]) else inner;
    var name := ToLower(content[..NameLength(content)], lower);
    Token(name != [], closing, name, raw)
  }

  /** How much of a non-empty source the first token takes. */
  function TokenLength(s: string): (n: nat)
    requires s != []
    ensures 0 < n <= |s|
  {
    if s[0] != '<' then TextLength(s)
    else
      var end := 1 + TagLength(s[1..], '\0');
      if end == |s| then end else end + 1
  }

  /** The token for `raw`, its first token's text: a tag must open with '<' and close with '>'. */
  function TokenOf(raw: string, isTag: bool, lower: char -> char): Token {
    if isTag && |raw| >= 2 then TagToken(raw, lower) else Token(false, false, "", raw)
  }

  predicate StartsTag(s: string)
    requires s != []
  {
    s[0] == '<' && 1 + TagLength(s[1..], '\0') < |s|
  }

  /** How a token is made from its raw text; Maker(lower) is the code's way. */
  type TokenMaker = (string, bool) -> Token

  function Maker(lower: char -> char): TokenMaker {
    (raw, isTag) => TokenOf(raw, isTag, lower)
  }

  function Tokenize(s: string, make: TokenMaker): seq<Token> {
    if s == [] then []
    else
      var n := TokenLength(s);
      [make(s[..n], StartsTag(s))] + Tokenize(s[n..], make)
  }

  method SimpleHTMLTokenize(source: string, make: TokenMaker) returns (tokens: seq<Token>)
    ensures tokens == Tokenize(source, make)
  {
    tokens := [];
    var i := 0;
    while i < |source|
      invariant 0 <= i <= |source|
      invariant Covers(tokens, source, i, make)
    {
      TokenStep(tokens, source, i, make);
      var token, next := NextToken(source, i, make);
      tokens := tokens + [token];
      i := next;
    }
    assert source[i..] == [];
  }

  /** One round of the main loop. */
  method NextToken(source: string, i: nat, make: TokenMaker) returns (token: Token, next: nat)
    requires i < |source|
    ensures next == i + TokenLength(source[i..]) && token == make(source[i..next], StartsTag(source[i..]))
  {
    if source[i] != '<' {
      next := ScanText(source, i);
      return make(source[i..next], false), next;
    }
    var end := ScanTag(source, i);
    assert source[i..][1..] == source[i + 1..];
    if end == |source| { return make(source[i..end], false), end; }
    return make(source[i..end + 1], true), end + 1;
  }

  ghost predicate Covers(tokens: seq<Token>, source: string, i: nat, make: TokenMaker)
    requires i <= |source|
  {
    tokens + Tokenize(source[i..], make) == Tokenize(source, make)
  }

  lemma TokenStep(tokens: seq<Token>, source: string, i: nat, make: TokenMaker)
    requires i < |source| && Covers(tokens, source, i, make)
    ensures var n := TokenLength(source[i..]);
      Covers(tokens + [make(source[i..i + n], StartsTag(source[i..]))], source, i + n, make)
  {
    var s := source[i..];
    var n := TokenLength(s);
    assert s[..n] == source[i..i + n] && s[n..] == source[i + n..];
    Regroup(tokens, make(s[..n], StartsTag(s)), Tokenize(s[n..], make));
  }

  lemma Regroup<T>(a: seq<T>, x: T, b: seq<T>)
    ensures a + ([x] + b) == a + [x] + b
  {
  }

  method ScanText(source: string, start: nat) returns (i: nat)
    requires start < |source|
    ensures i == start + TextLength(source[start..])
  {
    i := start;
    while i < |source| && source[i] != '<'
      invariant start <= i <= |source|
      invariant TextLength(source[start..]) == i - start + TextLength(source[i..])
    {
      i := i + 1;
    }
  }

  method ScanTag(source: string, i: nat) returns (end: nat)
    requires i < |source|
    ensures end == i + 1 + TagLength(source[i + 1..], '\0')
  {
    end := i + 1;
    var quote := '\0';
    while end < |source| && !(quote == '\0' && source[end] == '>')
      invariant i + 1 <= end <= |source|
      invariant TagLength(source[i + 1..], '\0') == end - (i + 1) + TagLength(source[end..], quote)
    {
      quote := QuoteAfter(quote, source[end]);
      end := end + 1;
    }
  }

  function Texts(tokens: seq<Token>): string {
    if tokens == [] then [] else tokens[0].text + Texts(tokens[1..])
  }

  /** Nothing of the source is lost or made up: the token texts concatenate to it. */
  lemma {:induction false} TokensCoverSource(s: string, lower: char -> char)
    ensures Texts(Tokenize(s, Maker(lower))) == s
  {
    Reassembled(s, Maker(lower));
  }

  lemma {:induction false} Reassembled(s: string, make: TokenMaker)
    requires forall raw, isTag :: make(raw, isTag).text == raw
    ensures Texts(Tokenize(s, make)) == s
    decreases |s|
  {
    if s != [] {
      var n := TokenLength(s);
      Reassembled(s[n..], make);
      assert Tokenize(s, make)[1..] == Tokenize(s[n..], make);
      assert s == s[..n] + s[n..];
    }
  }
}
