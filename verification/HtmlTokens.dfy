/** What a token of the source is (telegram/formatting.go), said of the characters and not of the scan: where it
    ends, when it is a tag, and which name the tag has. */
module HtmlTokens {
  import opened HtmlTokenizer

  predicate HasNo(s: string, c: char) {
    forall i | 0 <= i < |s| :: s[i] != c
  }

  predicate AllSpace(s: string) {
    forall i | 0 <= i < |s| :: IsSpace(s[i])
  }

  predicate IsQuote(c: char) {
    c == '\'' || c == '"'
  }

  /** Every quote in it is closed, by the next one of its kind. */
  ghost predicate Balanced(s: string)
    decreases |s|
  {
    || s == []
    || (!IsQuote(s[0]) && Balanced(s[1..]))
    || (IsQuote(s[0]) && exists j | 0 < j < |s| :: s[j] == s[0] && HasNo(s[1..j], s[0]) && Balanced(s[j + 1..]))
  }

  /** The first '>' outside quotes. */
  ghost predicate EndsTag(s: string, n: nat) {
    && n < |s| && s[n] == '>' && Balanced(s[..n])
    && forall k | 0 <= k < n && s[k] == '>' :: !Balanced(s[..k])
  }

  // ---------- quotes ----------

  /** The quote that is open after all of `s`. */
  function QuoteAfterAll(s: string, quote: char): char {
    if s == [] then quote else QuoteAfterAll(s[1..], QuoteAfter(quote, s[0]))
  }

  lemma {:induction false} QuoteUntil(s: string, q: char, j: nat)
    requires IsQuote(q) && j < |s| && s[j] == q && HasNo(s[..j], q)
    ensures QuoteAfterAll(s, q) == QuoteAfterAll(s[j + 1..], '\0')
  {
    if j > 0 {
      assert s[0] == s[..j][0];
      assert s[..j][1..] == s[1..][..j - 1] && s[1..][j..] == s[j + 1..];
      QuoteUntil(s[1..], q, j - 1);
    }
  }

  lemma {:induction false} QuoteStays(s: string, q: char)
    requires IsQuote(q) && HasNo(s, q)
    ensures QuoteAfterAll(s, q) == q
  {
    if s != [] { QuoteStays(s[1..], q); }
  }

  lemma {:induction false} FirstIndex(s: string, c: char) returns (j: nat)
    requires !HasNo(s, c)
    ensures j < |s| && s[j] == c && HasNo(s[..j], c)
  {
    if s[0] == c {
      j := 0;
    } else {
      var i :| 0 <= i < |s| && s[i] == c;
      assert s[1..][i - 1] == c;
      var k := FirstIndex(s[1..], c);
      j := k + 1;
      assert s[..j] == [s[0]] + s[1..][..k];
    }
  }

  lemma {:induction false} BalancedMeans(s: string)
    ensures Balanced(s) <==> QuoteAfterAll(s, '\0') == '\0'
    decreases |s|
  {
    if s != [] {
      var q, rest := s[0], s[1..];
      if !IsQuote(q) {
        BalancedMeans(rest);
      } else if HasNo(rest, q) {
        QuoteStays(rest, q);
        forall j | 0 < j < |s| ensures s[j] != q { assert s[j] == rest[j - 1]; }
      } else {
        var j := FirstIndex(rest, q);
        QuoteUntil(rest, q, j);
        BalancedMeans(rest[j + 1..]);
        ClosedAt(s, j + 1);
      }
    }
  }

  lemma ClosedAt(s: string, j: nat)
    requires 0 < j < |s| && IsQuote(s[0]) && s[j] == s[0] && HasNo(s[1..][..j - 1], s[0])
    ensures Balanced(s) <==> Balanced(s[1..][j..])
  {
    assert s[1..][..j - 1] == s[1..j] && s[1..][j..] == s[j + 1..];
    NotBefore(s, j, s[0]);
    if k :| 0 < k < |s| && s[k] == s[0] && HasNo(s[1..k], s[0]) && Balanced(s[k + 1..]) {
      NotBefore(s, k, s[0]);
    }
  }

  lemma NotBefore(s: string, j: nat, c: char)
    requires 0 < j <= |s| && HasNo(s[1..j], c)
    ensures forall i | 0 < i < j :: s[i] != c
  {
    forall i | 0 < i < j ensures s[i] != c { assert s[i] == s[1..j][i - 1]; }
  }

  lemma {:induction false} TagLengthMeans(s: string, quote: char)
    ensures var n := TagLength(s, quote);
      && (n < |s| ==> s[n] == '>' && QuoteAfterAll(s[..n], quote) == '\0')
      && forall k | 0 <= k < n && s[k] == '>' :: QuoteAfterAll(s[..k], quote) != '\0'
    decreases |s|
  {
    var n := TagLength(s, quote);
    if s != [] && !(quote == '\0' && s[0] == '>') {
      TagLengthMeans(s[1..], QuoteAfter(quote, s[0]));
      forall k | 0 < k <= n
        ensures QuoteAfterAll(s[..k], quote) == QuoteAfterAll(s[1..][..k - 1], QuoteAfter(quote, s[0]))
      {
        assert s[..k][1..] == s[1..][..k - 1];
      }
    }
  }

  lemma TagLengthIsEnd(s: string)
    ensures var n := TagLength(s, '\0');
      if n < |s| then EndsTag(s, n) else forall k: nat :: !EndsTag(s, k)
  {
    TagLengthMeans(s, '\0');
    forall k | 0 <= k <= |s| ensures Balanced(s[..k]) <==> QuoteAfterAll(s[..k], '\0') == '\0' {
      BalancedMeans(s[..k]);
    }
  }

  // ---------- names ----------

  const UPPER := "ABCDEFGHIJKLMNOPQRSTUVWXYZ"

  const LOWER := "abcdefghijklmnopqrstuvwxyz"

  /** `d` is the lower case of `c`: the letter at the same place of the alphabet; other ASCII characters have no
      case. */
  ghost predicate IsLowerOf(d: char, c: char, lower: char -> char) {
    if c in UPPER then exists k | 0 <= k < |UPPER| :: c == UPPER[k] && d == LOWER[k]
    else if c as int < 128 then d == c
    else d == lower(c)
  }

  ghost predicate IsLowerCase(name: string, spelled: string, lower: char -> char) {
    |name| == |spelled| && forall i | 0 <= i < |name| :: IsLowerOf(name[i], spelled[i], lower)
  }

  predicate Terminates(c: char) {
    c in [' ', '\t', '\n', '\r', '\U{0C}', '/']
  }

  /** The tag's name as it is spelled: the longest beginning of the content without a terminator, the content being
      what is left of the inside without outer white space and, in a closing tag, without the slash. */
  ghost predicate Spells(raw: string, closing: bool, spelled: string) {
    exists before: string, slash: string, rest: string, after: string ::
      IsTagWith(raw, closing, before, slash, spelled, rest, after)
  }

  ghost predicate IsTagWith(raw: string, closing: bool, before: string, slash: string, spelled: string, rest: string,
                            after: string) {
    && raw == "<" + before + slash + spelled + rest + after + ">"
    && AllSpace(before) && AllSpace(after) && NotSpaced(spelled + rest)
    && (if closing then slash != [] && slash[0] == '/' && AllSpace(slash[1..])
        else slash == [] && (spelled + rest != [] ==> (spelled + rest)[0] != '/'))
    && (forall i | 0 <= i < |spelled| :: !Terminates(spelled[i]))
    && (rest != [] ==> Terminates(rest[0]))
  }

  predicate NotSpaced(s: string) {
    s != [] ==> !IsSpace(s[0]) && !IsSpace(s[|s| - 1])
  }

  lemma {:induction false} TrimLeftParts(s: string) returns (before: string)
    ensures AllSpace(before) && s == before + TrimLeft(s)
    ensures TrimLeft(s) != [] ==> !IsSpace(TrimLeft(s)[0])
  {
    if s != [] && IsSpace(s[0]) {
      var b := TrimLeftParts(s[1..]);
      before := [s[0]] + b;
      FirstBack(s, b, TrimLeft(s[1..]));
    } else {
      before := [];
    }
  }

  lemma FirstBack(s: string, a: string, b: string)
    requires s != [] && s[1..] == a + b
    ensures s == ([s[0]] + a) + b
  {
    assert s == [s[0]] + s[1..];
  }

  lemma {:induction false} TrimRightParts(s: string) returns (after: string)
    ensures AllSpace(after) && s == TrimRight(s) + after
    ensures TrimRight(s) != [] ==> !IsSpace(TrimRight(s)[|TrimRight(s)| - 1])
  {
    if s != [] && IsSpace(s[|s| - 1]) {
      var a := TrimRightParts(s[..|s| - 1]);
      after := a + [s[|s| - 1]];
      assert s == s[..|s| - 1] + [s[|s| - 1]];
    } else {
      after := [];
      assert s == s + [];
    }
  }

  lemma TrimParts(s: string) returns (before: string, after: string)
    ensures AllSpace(before) && AllSpace(after) && s == before + TrimSpace(s) + after && NotSpaced(TrimSpace(s))
  {
    before := TrimLeftParts(s);
    after := TrimRightParts(TrimLeft(s));
    var t := TrimSpace(s);
    assert s == before + (t + after);
    if t != [] { assert TrimLeft(s)[0] == t[0]; }
  }

  lemma {:induction false} NameLengthMeans(s: string)
    ensures var n := NameLength(s);
      (forall i | 0 <= i < n :: !Terminates(s[i])) && (n < |s| ==> Terminates(s[n]))
  {
    if s != [] && !EndsName(s[0]) { NameLengthMeans(s[1..]); }
  }

  lemma UpperIsAscii(c: char)
    ensures c in UPPER <==> 65 <= c as int <= 90
    ensures 65 <= c as int <= 90 ==> c == UPPER[c as int - 65] && LOWER[c as int - 65] == (c as int + 32) as char
  {
    assert UPPER == ['A', 'B', 'C', 'D', 'E', 'F', 'G', 'H', 'I', 'J', 'K', 'L', 'M', 'N', 'O', 'P', 'Q', 'R', 'S',
                     'T', 'U', 'V', 'W', 'X', 'Y', 'Z'];
  }

  lemma {:induction false} ToLowerMeans(s: string, lower: char -> char)
    ensures IsLowerCase(ToLower(s, lower), s, lower)
  {
    if s != [] {
      UpperIsAscii(s[0]);
      ToLowerMeans(s[1..], lower);
    }
  }

  // ---------- trimming and reading a name back ----------

  lemma {:induction false} TrimLeftOf(before: string, s: string)
    requires AllSpace(before) && (s != [] ==> !IsSpace(s[0]))
    ensures TrimLeft(before + s) == s
  {
    if before == [] {
      assert before + s == s;
    } else {
      assert (before + s)[1..] == before[1..] + s;
      TrimLeftOf(before[1..], s);
    }
  }

  lemma {:induction false} TrimRightOf(s: string, after: string)
    requires AllSpace(after) && (s != [] ==> !IsSpace(s[|s| - 1]))
    ensures TrimRight(s + after) == s
  {
    var n := |after|;
    if n == 0 {
      assert s + after == s;
    } else {
      assert (s + after)[..|s| + n - 1] == s + after[..n - 1];
      TrimRightOf(s, after[..n - 1]);
    }
  }

  /** Only one piece without outer white space is left when white space is taken from both ends. */
  lemma TrimOf(before: string, core: string, after: string)
    requires AllSpace(before) && AllSpace(after) && NotSpaced(core)
    ensures TrimSpace(before + core + after) == core
  {
    assert before + core + after == before + (core + after);
    if core == [] {
      assert core + after == after && before + core + after == before + after;
      assert AllSpace(before + after);
      TrimLeftOf(before + after, []);
      assert (before + after) + [] == before + after;
    } else {
      TrimLeftOf(before, core + after);
      TrimRightOf(core, after);
    }
  }

  lemma {:induction false} NameLengthOf(spelled: string, rest: string)
    requires (forall i | 0 <= i < |spelled| :: !Terminates(spelled[i])) && (rest != [] ==> Terminates(rest[0]))
    ensures NameLength(spelled + rest) == |spelled|
  {
    if spelled == [] {
      assert spelled + rest == rest;
    } else {
      assert (spelled + rest)[1..] == spelled[1..] + rest;
      NameLengthOf(spelled[1..], rest);
    }
  }

  function Inside(raw: string): string
    requires |raw| >= 2
  {
    raw[1..|raw| - 1]
  }

  function ContentOf(inner: string): string {
    if inner != [] && inner[0] == '/' then TrimSpace(inner[1..]) else inner
  }

  lemma ContentIs(raw: string, closing: bool, before: string, slash: string, spelled: string, rest: string,
                  after: string)
    requires IsTagWith(raw, closing, before, slash, spelled, rest, after)
    ensures |raw| >= 2
    ensures var inner := TrimSpace(Inside(raw));
      ContentOf(inner) == spelled + rest && (closing <==> inner != [] && inner[0] == '/')
  {
    var core := spelled + rest;
    assert raw == "<" + (before + slash + core + after) + ">";
    assert Inside(raw) == before + slash + core + after;
    if !closing {
      assert before + slash + core + after == before + core + after;
      TrimOf(before, core, after);
    } else {
      ClosingContent(before, slash, core, after);
    }
  }

  lemma ClosingContent(before: string, slash: string, core: string, after: string)
    requires AllSpace(before) && AllSpace(after) && NotSpaced(core)
    requires slash != [] && slash[0] == '/' && AllSpace(slash[1..])
    ensures var inner := TrimSpace(before + slash + core + after);
      inner != [] && inner[0] == '/' && TrimSpace(inner[1..]) == core
  {
    if core == [] {
      assert slash == ['/'] + slash[1..];
      assert before + slash + core + after == before + ['/'] + (slash[1..] + after);
      assert AllSpace(slash[1..] + after);
      TrimOf(before, ['/'], slash[1..] + after);
      assert ['/'][1..] == [];
    } else {
      assert before + slash + core + after == before + (slash + core) + after;
      TrimOf(before, slash + core, after);
      assert (slash + core)[1..] == slash[1..] + core + [];
      TrimOf(slash[1..], core, []);
    }
  }

  /** The name is the lower case of what is spelled, however the raw text is divided. */
  lemma SpelledName(raw: string, closing: bool, spelled: string, lower: char -> char)
    requires Spells(raw, closing, spelled)
    ensures |raw| >= 2 && TagToken(raw, lower) == Token(spelled != [], closing, ToLower(spelled, lower), raw)
  {
    var before: string, slash: string, rest: string, after: string :|
      IsTagWith(raw, closing, before, slash, spelled, rest, after);
    ContentIs(raw, closing, before, slash, spelled, rest, after);
    NameLengthOf(spelled, rest);
    assert (spelled + rest)[..|spelled|] == spelled;
    ToLowerMeans(spelled, lower);
  }

  /** And it can be divided. */
  lemma SomeSpelling(raw: string) returns (closing: bool, spelled: string)
    requires |raw| >= 2 && raw[0] == '<' && raw[|raw| - 1] == '>'
    ensures Spells(raw, closing, spelled)
  {
    var before, slash, core, after;
    closing, before, slash, core, after := SomeContent(Inside(raw));
    var n := NameLength(core);
    NameLengthMeans(core);
    spelled := core[..n];
    assert core == spelled + core[n..];
    Enclosed(raw, before, slash, spelled, core[n..], after);
    assert IsTagWith(raw, closing, before, slash, spelled, core[n..], after);
  }

  lemma Enclosed(raw: string, before: string, slash: string, spelled: string, rest: string, after: string)
    requires |raw| >= 2 && raw[0] == '<' && raw[|raw| - 1] == '>'
    requires Inside(raw) == before + slash + (spelled + rest) + after
    ensures raw == "<" + before + slash + spelled + rest + after + ">"
  {
    assert raw == "<" + Inside(raw) + ">";
  }

  lemma SomeContent(inside: string) returns (closing: bool, before: string, slash: string, core: string, after: string)
    ensures inside == before + slash + core + after && AllSpace(before) && AllSpace(after) && NotSpaced(core)
    ensures if closing then slash != [] && slash[0] == '/' && AllSpace(slash[1..])
            else slash == [] && (core != [] ==> core[0] != '/')
  {
    before, after := TrimParts(inside);
    core := TrimSpace(inside);
    slash := [];
    closing := core != [] && core[0] == '/';
    if closing {
      var inner := core;
      core := TrimSpace(inner[1..]);
      var b, a := TrimParts(inner[1..]);
      SlashOff(inner, b, core, a);
      Regrouped(inside, before, inner, after, ['/'] + b, core, a);
      slash, after := ['/'] + b, a + after;
      assert slash[1..] == b;
    }
  }

  lemma SlashOff(inner: string, b: string, core: string, a: string)
    requires inner != [] && inner[0] == '/' && inner[1..] == b + core + a
    ensures inner == ['/'] + b + core + a
  {
    assert inner == ['/'] + inner[1..];
  }

  lemma Regrouped(s: string, x: string, y: string, z: string, a: string, b: string, c: string)
    requires s == x + y + z && y == a + b + c
    ensures s == x + a + b + (c + z)
  {
  }

  // ---------- main results ----------

  /** A tag, or what looks like one but has no name. */
  ghost predicate IsTagToken(t: Token, lower: char -> char) {
    && (t.isTag <==> t.name != [])
    && exists spelled: string :: Spells(t.text, t.isClosing, spelled) && IsLowerCase(t.name, spelled, lower)
  }

  /** Text reaches to the next '<', a tag to the first '>' outside quotes, and a '<' without one is text to the end. */
  ghost predicate IsFirstToken(t: Token, s: string, lower: char -> char)
    requires s != []
  {
    if s[0] != '<' then
      && t == Token(false, false, "", t.text)
      && t.text != [] && t.text <= s && HasNo(t.text, '<') && (|t.text| < |s| ==> s[|t.text|] == '<')
    else if exists n: nat :: EndsTag(s[1..], n) then
      && IsTagToken(t, lower)
      && exists n: nat :: EndsTag(s[1..], n) && t.text == s[..n + 2]
    else t == Token(false, false, "", s)
  }

  lemma {:induction false} TextLengthMeans(s: string)
    ensures var n := TextLength(s); HasNo(s[..n], '<') && (n < |s| ==> s[n] == '<')
  {
    if s != [] && s[0] != '<' {
      TextLengthMeans(s[1..]);
      assert s[..TextLength(s)] == [s[0]] + s[1..][..TextLength(s[1..])];
    }
  }

  lemma TagTokenMeans(raw: string, lower: char -> char)
    requires |raw| >= 2 && raw[0] == '<' && raw[|raw| - 1] == '>'
    ensures IsTagToken(TagToken(raw, lower), lower) && TagToken(raw, lower).text == raw
  {
    var closing, spelled := SomeSpelling(raw);
    SpelledName(raw, closing, spelled, lower);
    ToLowerMeans(spelled, lower);
  }

  lemma FirstTokenMeans(s: string, lower: char -> char)
    requires s != []
    ensures IsFirstToken(Maker(lower)(s[..TokenLength(s)], StartsTag(s)), s, lower)
  {
    var n := TagLength(s[1..], '\0');
    if s[0] != '<' {
      TextLengthMeans(s);
    } else {
      TagLengthIsEnd(s[1..]);
      if n + 1 < |s| {
        assert EndsTag(s[1..], n);
        TagTokenMeans(s[..n + 2], lower);
      } else {
        assert s[..|s|] == s;
      }
    }
  }

  /** Every token is the first one of what is left of the source. */
  lemma {:induction false} TokensMean(s: string, lower: char -> char, k: nat)
    requires k < |Tokenize(s, Maker(lower))|
    ensures IsTokenAt(Tokenize(s, Maker(lower)), k, s, lower)
    decreases |s|
  {
    var tokens := Tokenize(s, Maker(lower));
    if k == 0 {
      FirstTokenMeans(s, lower);
      assert tokens[..0] == [] && s[..0] == "" && s[0..] == s;
      assert IsFirstToken(tokens[0], s[0..], lower);
    } else {
      var n := TokenLength(s);
      TokensMean(s[n..], lower, k - 1);
      LaterToken(tokens[0], Tokenize(s[n..], Maker(lower)), k, s, n, lower);
    }
  }

  ghost predicate IsTokenAt(tokens: seq<Token>, k: nat, s: string, lower: char -> char)
    requires k < |tokens|
  {
    exists at: nat :: at < |s| && Texts(tokens[..k]) == s[..at] && IsFirstToken(tokens[k], s[at..], lower)
  }

  lemma LaterToken(first: Token, rest: seq<Token>, k: nat, s: string, n: nat, lower: char -> char)
    requires 0 < k <= |rest| && n <= |s| && first.text == s[..n] && IsTokenAt(rest, k - 1, s[n..], lower)
    ensures IsTokenAt([first] + rest, k, s, lower)
  {
    var tail := s[n..];
    var at: nat :| at < |tail| && Texts(rest[..k - 1]) == tail[..at] && IsFirstToken(rest[k - 1], tail[at..], lower);
    TextsOfMore(first, rest, k);
    CutFurther(s, n, at);
    assert ([first] + rest)[k] == rest[k - 1];
    assert IsFirstToken(([first] + rest)[k], s[n + at..], lower);
  }

  lemma TextsOfMore(first: Token, rest: seq<Token>, k: nat)
    requires 0 < k <= |rest|
    ensures Texts(([first] + rest)[..k]) == first.text + Texts(rest[..k - 1])
  {
    var tokens := ([first] + rest)[..k];
    assert tokens[0] == first && tokens[1..] == rest[..k - 1];
  }

  lemma CutFurther(s: string, n: nat, at: nat)
    requires n + at <= |s|
    ensures s[..n] + s[n..][..at] == s[..n + at] && s[n..][at..] == s[n + at..]
  {
  }

  /** There is one way to read a tag, and spellings that differ in the case of letters only give the same name. */
  lemma SameName(raw: string, raw': string, closing: bool, spelled: string, spelled': string, lower: char -> char)
    requires Spells(raw, closing, spelled) && Spells(raw', closing, spelled')
    requires exists name: string :: IsLowerCase(name, spelled, lower) && IsLowerCase(name, spelled', lower)
    ensures |raw| >= 2 && |raw'| >= 2 && TagToken(raw, lower).name == TagToken(raw', lower).name
    ensures TagToken(raw, lower).isClosing == closing
  {
    SpelledName(raw, closing, spelled, lower);
    SpelledName(raw', closing, spelled', lower);
    var name: string :| IsLowerCase(name, spelled, lower) && IsLowerCase(name, spelled', lower);
    LowerCaseIsUnique(name, spelled, lower);
    LowerCaseIsUnique(name, spelled', lower);
  }

  lemma LowerCaseIsUnique(name: string, spelled: string, lower: char -> char)
    requires IsLowerCase(name, spelled, lower)
    ensures name == ToLower(spelled, lower)
  {
    ToLowerMeans(spelled, lower);
    var other := ToLower(spelled, lower);
    forall i | 0 <= i < |name| ensures name[i] == other[i] {
      assert IsLowerOf(name[i], spelled[i], lower) && IsLowerOf(other[i], spelled[i], lower);
      UpperIsDistinct(spelled[i]);
    }
  }

  lemma UpperIsDistinct(c: char)
    ensures forall j, k | 0 <= j < |UPPER| && 0 <= k < |UPPER| && c == UPPER[j] == UPPER[k] :: j == k
  {
    forall k | 0 <= k < |UPPER| ensures UPPER[k] as int == 65 + k {
      NthUpper(k);
    }
  }

  lemma NthUpper(k: nat)
    requires k < |UPPER|
    ensures UPPER[k] as int == 65 + k
  {
  }
}
