/** The entity parser parseHTMLToTags (telegram/formatting.go): tags become spans of the cleaned text,
    counted in UTF-16 units.  `unescape` stands for the replacement of HTML character references. */
module HtmlParser {
  import opened Utf16
  import opened HtmlTokenizer

  datatype Tag = Tag(ty: string, offset: int, length: int)

  datatype OpenTag = OpenTag(ty: string, offset: int, index: nat)

  /** The loop's state: text and width so far, all tags in order of opening, and those still open. */
  datatype Parse = Parse(text: string, offset: int, tags: seq<Tag>, open: seq<OpenTag>)

  const BEGIN := Parse("", 0, [], [])

  predicate Supported(name: string) {
    name in {"b", "strong", "i", "em", "u", "s", "strike", "a", "code", "pre", "ins", "del", "spoiler", "quote",
             "blockquote", "emoji", "mention"}
  }

  function WithText(p: Parse, text: string): Parse {
    p.(text := p.text + text, offset := p.offset + Width(text))
  }

  /** The innermost open tag of that type, or -1. */
  function Innermost(open: seq<OpenTag>, name: string): (i: int)
    ensures -1 <= i < |open|
    ensures 0 <= i ==> open[i].ty == name
    ensures forall j | i < j < |open| :: open[j].ty != name
  {
    if open == [] then -1
    else if open[|open| - 1].ty == name then |open| - 1
    else Innermost(open[..|open| - 1], name)
  }

  function SetLength(tags: seq<Tag>, o: OpenTag, offset: int): seq<Tag> {
    if o.index < |tags| then tags[o.index := tags[o.index].(length := offset - o.offset)] else tags
  }

  function Step(p: Parse, t: Token, unescape: string -> string): Parse {
    if !t.isTag then WithText(p, unescape(t.text))
    else if !t.isClosing && Supported(t.name) then
      p.(tags := p.tags + [Tag(t.name, p.offset, 0)], open := p.open + [OpenTag(t.name, p.offset, |p.tags|)])
    else if t.isClosing && Innermost(p.open, t.name) >= 0 then
      var i := Innermost(p.open, t.name);
      p.(tags := SetLength(p.tags, p.open[i], p.offset), open := p.open[..i] + p.open[i + 1..])
    else WithText(p, t.text)
  }

  function Steps(p: Parse, tokens: seq<Token>, unescape: string -> string): Parse
    decreases |tokens|
  {
    if tokens == [] then p else Steps(Step(p, tokens[0], unescape), tokens[1..], unescape)
  }

  /** Tags left open reach to the end of the text. */
  function ClosedAll(tags: seq<Tag>, open: seq<OpenTag>, offset: int): seq<Tag>
    decreases |open|
  {
    if open == [] then tags else ClosedAll(SetLength(tags, open[0], offset), open[1..], offset)
  }

  /** What trimming `lead` units before and keeping `width` units leaves of a tag. */
  function TrimTag(t: Tag, lead: int, width: int): Tag {
    var offset := if t.offset - lead > 0 then t.offset - lead else 0;
    var end := if t.offset + t.length - lead < width then t.offset + t.length - lead else width;
    Tag(t.ty, offset, end - offset)
  }

  function TrimTags(tags: seq<Tag>, lead: int, width: int): seq<Tag> {
    if tags == [] then []
    else Surviving(tags[0], lead, width) + TrimTags(tags[1..], lead, width)
  }

  function Surviving(t: Tag, lead: int, width: int): seq<Tag> {
    var kept := TrimTag(t, lead, width);
    if kept.length > 0 then [kept] else []
  }

  function Finish(p: Parse): (string, seq<Tag>) {
    var cleaned := TrimSpace(p.text);
    var lead := Width(p.text) - Width(TrimLeft(p.text));
    (cleaned, TrimTags(ClosedAll(p.tags, p.open, p.offset), lead, Width(cleaned)))
  }

  function Parsed(source: string, make: TokenMaker, unescape: string -> string): (string, seq<Tag>) {
    Finish(Steps(BEGIN, Tokenize(source, make), unescape))
  }

  method ParseHTMLToTags(source: string, make: TokenMaker, unescape: string -> string)
    returns (cleaned: string, result: seq<Tag>)
    ensures (cleaned, result) == Parsed(source, make, unescape)
  {
    var tokens := SimpleHTMLTokenize(source, make);
    var p := ParseTokens(tokens, unescape);
    var tags := CloseRemaining(p);
    cleaned := TrimSpace(p.text);
    var all := CountUnits(p.text);
    var left := CountUnits(TrimLeft(p.text));
    var width := CountUnits(cleaned);
    result := TrimAll(tags, all as int - left as int, width);
  }

  method ParseTokens(tokens: seq<Token>, unescape: string -> string) returns (p: Parse)
    ensures p == Steps(BEGIN, tokens, unescape)
  {
    p := BEGIN;
    assert tokens[0..] == tokens;
    for k := 0 to |tokens|
      invariant Steps(p, tokens[k..], unescape) == Steps(BEGIN, tokens, unescape)
    {
      assert tokens[k..][1..] == tokens[k + 1..];
      p := ParseToken(p, tokens[k], unescape);
    }
  }

  method ParseToken(p: Parse, t: Token, unescape: string -> string) returns (q: Parse)
    ensures q == Step(p, t, unescape)
  {
    if !t.isTag {
      q := WithText(p, unescape(t.text));
    } else if !t.isClosing && Supported(t.name) {
      q := p.(tags := p.tags + [Tag(t.name, p.offset, 0)], open := p.open + [OpenTag(t.name, p.offset, |p.tags|)]);
    } else if t.isClosing {
      var i := FindOpen(p.open, t.name);
      if i < 0 { return WithText(p, t.text); }
      q := p.(tags := SetLength(p.tags, p.open[i], p.offset), open := p.open[..i] + p.open[i + 1..]);
    } else {
      q := WithText(p, t.text);
    }
  }

  method FindOpen(open: seq<OpenTag>, name: string) returns (i: int)
    ensures i == Innermost(open, name)
  {
    i := |open| - 1;
    assert open[..i + 1] == open;
    while i >= 0 && open[i].ty != name
      invariant -1 <= i < |open|
      invariant Innermost(open, name) == Innermost(open[..i + 1], name)
    {
      assert open[..i + 1][..i] == open[..i];
      i := i - 1;
    }
  }

  method CloseRemaining(p: Parse) returns (tags: seq<Tag>)
    ensures tags == ClosedAll(p.tags, p.open, p.offset)
  {
    tags := p.tags;
    assert p.open[0..] == p.open;
    for k := 0 to |p.open|
      invariant ClosedAll(tags, p.open[k..], p.offset) == ClosedAll(p.tags, p.open, p.offset)
    {
      assert p.open[k..][1..] == p.open[k + 1..];
      tags := SetLength(tags, p.open[k], p.offset);
    }
  }

  method TrimAll(tags: seq<Tag>, lead: int, width: int) returns (result: seq<Tag>)
    ensures result == TrimTags(tags, lead, width)
  {
    result := [];
    assert tags[0..] == tags;
    for k := 0 to |tags|
      invariant TrimmedUpTo(result, tags, k, lead, width)
    {
      TrimStep(result, tags, k, lead, width);
      var kept := TrimOne(tags[k], lead, width);
      result := result + kept;
    }
    assert tags[|tags|..] == [];
  }

  method TrimOne(t: Tag, lead: int, width: int) returns (kept: seq<Tag>)
    ensures kept == Surviving(t, lead, width)
  {
    var newOffset := if t.offset - lead > 0 then t.offset - lead else 0;
    var endPos := if t.offset + t.length - lead < width then t.offset + t.length - lead else width;
    var newLength := endPos - newOffset;
    kept := if newLength > 0 then [Tag(t.ty, newOffset, newLength)] else [];
  }

  ghost predicate TrimmedUpTo(result: seq<Tag>, tags: seq<Tag>, k: nat, lead: int, width: int)
    requires k <= |tags|
  {
    result + TrimTags(tags[k..], lead, width) == TrimTags(tags, lead, width)
  }

  lemma TrimStep(result: seq<Tag>, tags: seq<Tag>, k: nat, lead: int, width: int)
    requires k < |tags| && TrimmedUpTo(result, tags, k, lead, width)
    ensures TrimmedUpTo(result + Surviving(tags[k], lead, width), tags, k + 1, lead, width)
  {
    assert tags[k..][1..] == tags[k + 1..];
    Associates(result, Surviving(tags[k], lead, width), TrimTags(tags[k + 1..], lead, width));
  }

  // ---------- what the spans mean ----------

  /** Spans lie inside the text read so far; open tags have distinct indices, in order of opening. */
  ghost predicate ParseInv(p: Parse) {
    && p.offset == Width(p.text)
    && (forall k | 0 <= k < |p.tags| ::
          0 <= p.tags[k].offset && 0 <= p.tags[k].length && p.tags[k].offset + p.tags[k].length <= p.offset)
    && (forall j | 0 <= j < |p.open| :: p.open[j].index < |p.tags|
          && p.open[j].offset == p.tags[p.open[j].index].offset && p.open[j].ty == p.tags[p.open[j].index].ty)
    && (forall i, j | 0 <= i < j < |p.open| :: p.open[i].index < p.open[j].index)
  }

  lemma TextKeepsInv(p: Parse, text: string)
    requires ParseInv(p)
    ensures ParseInv(WithText(p, text)) && p.offset <= WithText(p, text).offset
  {
    WidthSplits(p.text, text);
  }

  lemma ClosingKeepsInv(p: Parse, i: nat)
    requires ParseInv(p) && i < |p.open|
    ensures ParseInv(p.(tags := SetLength(p.tags, p.open[i], p.offset), open := p.open[..i] + p.open[i + 1..]))
  {
  }

  lemma StepKeepsInv(p: Parse, t: Token, unescape: string -> string)
    requires ParseInv(p)
    ensures ParseInv(Step(p, t, unescape)) && p.offset <= Step(p, t, unescape).offset
  {
    var i := Innermost(p.open, t.name);
    if !t.isTag {
      TextKeepsInv(p, unescape(t.text));
    } else if !t.isClosing && Supported(t.name) {
    } else if t.isClosing && i >= 0 {
      ClosingKeepsInv(p, i);
    } else {
      TextKeepsInv(p, t.text);
    }
  }

  lemma {:induction false} StepsKeepInv(p: Parse, tokens: seq<Token>, unescape: string -> string)
    requires ParseInv(p)
    ensures ParseInv(Steps(p, tokens, unescape)) && p.offset <= Steps(p, tokens, unescape).offset
    decreases |tokens|
  {
    if tokens != [] {
      StepKeepsInv(p, tokens[0], unescape);
      StepsKeepInv(Step(p, tokens[0], unescape), tokens[1..], unescape);
    }
  }

  ghost predicate IsOpen(p: Parse, k: nat) {
    exists j :: 0 <= j < |p.open| && p.open[j].index == k
  }

  /** A closing token sets exactly one length, to the distance from the opening token; a tag that is not
      open is never touched again.  So each tag's span runs from its opening token to its closing one. */
  lemma StepSetsSpans(p: Parse, t: Token, unescape: string -> string, k: nat)
    requires ParseInv(p) && k < |p.tags|
    ensures var q := Step(p, t, unescape);
      && k < |q.tags| && q.tags[k].ty == p.tags[k].ty && q.tags[k].offset == p.tags[k].offset
      && (!IsOpen(p, k) ==> q.tags[k] == p.tags[k] && !IsOpen(q, k))
      && (IsOpen(p, k) && IsOpen(q, k) ==> q.tags[k] == p.tags[k])
      && (IsOpen(p, k) && !IsOpen(q, k) ==>
            t.isClosing && t.name == p.tags[k].ty && q.tags[k].length == p.offset - p.tags[k].offset)
  {
    var i := Innermost(p.open, t.name);
    if t.isTag && t.isClosing && i >= 0 {
      ClosingSetsSpan(p, i, k);
    } else if IsOpen(p, k) {
      var j :| 0 <= j < |p.open| && p.open[j].index == k;
      assert Step(p, t, unescape).open[j].index == k;
    }
  }

  lemma ClosingSetsSpan(p: Parse, i: nat, k: nat)
    requires ParseInv(p) && i < |p.open| && k < |p.tags|
    ensures var q := p.(tags := SetLength(p.tags, p.open[i], p.offset), open := p.open[..i] + p.open[i + 1..]);
      && (IsOpen(q, k) <==> IsOpen(p, k) && k != p.open[i].index)
      && q.tags[k] == if k == p.open[i].index then p.tags[k].(length := p.offset - p.open[i].offset) else p.tags[k]
  {
    var q := p.(tags := SetLength(p.tags, p.open[i], p.offset), open := p.open[..i] + p.open[i + 1..]);
    if p.open[i].index != k && IsOpen(p, k) {
      var j :| 0 <= j < |p.open| && p.open[j].index == k;
      assert q.open[if j < i then j else j - 1].index == k;
    }
  }

  /** Position `u` of the trimmed text lies in the part of the tag's span that survives. */
  ghost predicate InSurvivingPart(t: Tag, lead: int, width: int, u: int) {
    0 <= u < width && t.offset <= u + lead < t.offset + t.length
  }

  /** A tag is kept exactly when some unit of its span survives trimming, and then covers exactly those. */
  lemma KeptSpanIsSurvivingPart(t: Tag, lead: int, width: int)
    requires 0 <= lead && 0 <= width && 0 <= t.offset && 0 <= t.length
    ensures var kept := Surviving(t, lead, width);
      && (kept != [] <==> exists u :: InSurvivingPart(t, lead, width, u))
      && (kept != [] ==>
            var k := kept[0];
            && k.ty == t.ty && 0 <= k.offset && 0 < k.length && k.offset + k.length <= width
            && forall u :: k.offset <= u < k.offset + k.length <==> InSurvivingPart(t, lead, width, u))
  {
    var k := TrimTag(t, lead, width);
    if k.length > 0 {
      assert InSurvivingPart(t, lead, width, k.offset);
    }
  }

  ghost predicate AllSpace(s: string) {
    forall i | 0 <= i < |s| :: IsSpace(s[i])
  }

  predicate NoOuterSpace(s: string) {
    s != [] ==> !IsSpace(s[0]) && !IsSpace(s[|s| - 1])
  }

  /** Trimming cuts the text at two places: only white space goes, and all of it at either end. */
  lemma CleanedIsInside(text: string) returns (start: nat, end: nat)
    ensures start <= end <= |text| && TrimSpace(text) == text[start..end]
    ensures AllSpace(text[..start]) && AllSpace(text[end..]) && NoOuterSpace(text[start..end])
    ensures Width(text[..start]) == Width(text) - Width(TrimLeft(text))
  {
    start := LeftCut(text);
    var rest := text[start..];
    var n := RightCut(rest);
    end := start + n;
    WidthSplits(text[..start], rest);
    CutTwice(text, start, n);
    assert TrimRight(rest) == text[start..end];
  }

  lemma CutTwice(text: string, start: nat, n: nat)
    requires start + n <= |text|
    ensures text == text[..start] + text[start..]
    ensures text[start..][..n] == text[start..start + n] && text[start..][n..] == text[start + n..]
    ensures n > 0 ==> text[start..start + n][0] == text[start..][0]
    ensures n > 0 ==> text[start..start + n][n - 1] == text[start..][n - 1]
  {
  }

  lemma {:induction false} LeftCut(s: string) returns (n: nat)
    ensures n <= |s| && TrimLeft(s) == s[n..]
    ensures AllSpace(s[..n]) && (n < |s| ==> !IsSpace(s[n]))
  {
    n := 0;
    if s != [] && IsSpace(s[0]) {
      var m := LeftCut(s[1..]);
      n := m + 1;
      assert s[1..][m..] == s[n..] && s[..n] == [s[0]] + s[1..][..m];
    }
  }

  lemma {:induction false} RightCut(s: string) returns (n: nat)
    ensures n <= |s| && TrimRight(s) == s[..n]
    ensures AllSpace(s[n..]) && (n > 0 ==> !IsSpace(s[n - 1]))
    decreases |s|
  {
    n := |s|;
    if s != [] && IsSpace(s[|s| - 1]) {
      var front := s[..|s| - 1];
      n := RightCut(front);
      assert front[..n] == s[..n] && s[n..] == front[n..] + [s[|s| - 1]];
    }
  }

  /** The tags before trimming. */
  function RawTags(p: Parse): seq<Tag> {
    ClosedAll(p.tags, p.open, p.offset)
  }
}
