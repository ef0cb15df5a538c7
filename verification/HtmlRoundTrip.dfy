/** Printing tags into a text and parsing the result gives the text and the tags back. */
module HtmlRoundTrip {
  import opened Utf16
  import opened HtmlTokenizer
  import opened HtmlTokens
  import opened HtmlParser
  import opened HtmlPrinter

  // ---------- one event at a time ----------

  function EventStep(p: Parse, e: Event): Parse {
    match e
    case Open(ty) =>
      p.(tags := p.tags + [Tag(ty, p.offset, 0)], open := p.open + [OpenTag(ty, p.offset, |p.tags|)])
    case Char(c) => WithText(p, [c])
    case Close(ty) =>
      var i := Innermost(p.open, ty);
      if i >= 0 then p.(tags := SetLength(p.tags, p.open[i], p.offset), open := p.open[..i] + p.open[i + 1..])
      else WithText(p, "</" + ty + ">")
  }

  function EventSteps(p: Parse, events: seq<Event>): Parse
    decreases |events|
  {
    if events == [] then p else EventSteps(EventStep(p, events[0]), events[1..])
  }

  lemma {:induction false} EventStepsSplit(p: Parse, a: seq<Event>, b: seq<Event>)
    ensures EventSteps(p, a + b) == EventSteps(EventSteps(p, a), b)
    decreases |a|
  {
    if a == [] {
      assert a + b == b;
    } else {
      EventStepsSplit(EventStep(p, a[0]), a[1..], b);
      assert (a + b)[0] == a[0] && (a + b)[1..] == a[1..] + b;
    }
  }

  // ---------- tokenizing what was written ----------

  predicate Printable(e: Event) {
    match e
    case Open(ty) => Supported(ty)
    case Close(ty) => Supported(ty)
    case Char(c) => c != '<' && c != '&'
  }

  predicate AllPrintable(events: seq<Event>) {
    forall i | 0 <= i < |events| :: Printable(events[i])
  }

  /** Unescaping changes nothing where there is no reference to unescape. */
  ghost predicate OnlyReferences(unescape: string -> string) {
    forall s: string | HasNo(s, '&') :: unescape(s) == s
  }

  /** The source text `piece` is a way to write the event: a tag may be spelled in any case, with white space around
      its name and any attributes after it, whose quotes may even hold a '>'. */
  ghost predicate IsWritten(piece: string, e: Event, lower: char -> char) {
    match e
    case Char(c) => piece == [c]
    case Open(ty) => IsWrittenTag(piece, ty, false, lower)
    case Close(ty) => IsWrittenTag(piece, ty, true, lower)
  }

  ghost predicate IsWrittenTag(piece: string, ty: string, closing: bool, lower: char -> char) {
    && |piece| >= 2 && piece[0] == '<' && EndsTag(piece[1..], |piece| - 2)
    && exists spelled: string :: Spells(piece, closing, spelled) && IsLowerCase(ty, spelled, lower)
  }

  ghost predicate AreWritten(pieces: seq<string>, events: seq<Event>, lower: char -> char) {
    |pieces| == |events| && forall i | 0 <= i < |pieces| :: IsWritten(pieces[i], events[i], lower)
  }

  function Concat(pieces: seq<string>): string {
    if pieces == [] then "" else pieces[0] + Concat(pieces[1..])
  }

  /** An event as it is written: a closing tag that closes nothing is text. */
  function PieceStep(p: Parse, e: Event, piece: string): Parse {
    if e.Close? && Innermost(p.open, e.ty) < 0 then WithText(p, piece) else EventStep(p, e)
  }

  function PieceSteps(p: Parse, events: seq<Event>, pieces: seq<string>): Parse
    requires |pieces| == |events|
    decreases |events|
  {
    if events == [] then p else PieceSteps(PieceStep(p, events[0], pieces[0]), events[1..], pieces[1..])
  }

  lemma StepsCons(p: Parse, t: Token, rest: seq<Token>, unescape: string -> string)
    ensures Steps(p, [t] + rest, unescape) == Steps(Step(p, t, unescape), rest, unescape)
  {
    assert ([t] + rest)[1..] == rest;
  }

  lemma TextTwice(p: Parse, a: string, b: string)
    ensures WithText(WithText(p, a), b) == WithText(p, a + b)
  {
    WidthSplits(a, b);
    Associates(p.text, a, b);
  }

  /** However text is cut into tokens, each character is a step of its own. */
  lemma FirstCharSteps(p: Parse, c: char, rest: string, make: TokenMaker, unescape: string -> string)
    requires c != '<' && c != '&' && HasNo(rest[..TextLength(rest)], '&') && OnlyReferences(unescape)
    requires forall raw :: make(raw, false) == Token(false, false, "", raw)
    ensures Steps(p, Tokenize([c] + rest, make), unescape) == Steps(WithText(p, [c]), Tokenize(rest, make), unescape)
  {
    var s := [c] + rest;
    var m := TextLength(rest);
    assert s[1..] == rest;
    assert TokenLength(s) == m + 1 && !StartsTag(s);
    assert s[..m + 1] == [c] + rest[..m] && s[m + 1..] == rest[m..];
    var text := Token(false, false, "", [c] + rest[..m]);
    var tail := Tokenize(rest[m..], make);
    assert Tokenize(s, make) == [text] + tail;
    StepsCons(p, text, tail, unescape);
    assert unescape([c] + rest[..m]) == [c] + rest[..m];
    if m == 0 {
      assert rest[m..] == rest && [c] + rest[..0] == [c];
    } else {
      assert TokenLength(rest) == m && !StartsTag(rest);
      assert Tokenize(rest, make) == [make(rest[..m], false)] + tail;
      StepsCons(WithText(p, [c]), make(rest[..m], false), tail, unescape);
      assert unescape(rest[..m]) == rest[..m];
      TextTwice(p, [c], rest[..m]);
    }
  }

  /** What comes behind a tag does not change where it ends. */
  lemma EndStays(s: string, rest: string, n: nat)
    requires EndsTag(s, n)
    ensures TagLength(s + rest, '\0') == n
  {
    var t := s + rest;
    forall k | 0 <= k <= n ensures t[..k] == s[..k] {}
    assert EndsTag(t, n);
    TagLengthIsEnd(t);
  }

  lemma FirstTokenIsTag(piece: string, rest: string)
    requires |piece| >= 2 && piece[0] == '<' && EndsTag(piece[1..], |piece| - 2)
    ensures var s := piece + rest;
      s != [] && StartsTag(s) && TokenLength(s) == |piece| && s[..|piece|] == piece && s[|piece|..] == rest
  {
    var s := piece + rest;
    assert s[1..] == piece[1..] + rest;
    EndStays(piece[1..], rest, |piece| - 2);
  }

  lemma WrittenToken(piece: string, ty: string, closing: bool, lower: char -> char)
    requires IsWrittenTag(piece, ty, closing, lower) && ty != []
    ensures Maker(lower)(piece, true) == Token(true, closing, ty, piece)
  {
    var spelled: string :| Spells(piece, closing, spelled) && IsLowerCase(ty, spelled, lower);
    SpelledName(piece, closing, spelled, lower);
    LowerCaseIsUnique(ty, spelled, lower);
  }

  lemma FirstTagToken(e: Event, piece: string, rest: string, lower: char -> char)
    requires Printable(e) && !e.Char? && IsWritten(piece, e, lower)
    ensures Tokenize(piece + rest, Maker(lower)) == [Token(true, e.Close?, e.ty, piece)] + Tokenize(rest, Maker(lower))
  {
    FirstTokenIsTag(piece, rest);
    assert e.ty != [] by { assert Supported(e.ty) && !Supported(""); }
    WrittenToken(piece, e.ty, e.Close?, lower);
  }

  lemma FirstTagSteps(p: Parse, e: Event, piece: string, rest: string, lower: char -> char, unescape: string -> string)
    requires Printable(e) && !e.Char? && IsWritten(piece, e, lower)
    ensures Steps(p, Tokenize(piece + rest, Maker(lower)), unescape)
      == Steps(PieceStep(p, e, piece), Tokenize(rest, Maker(lower)), unescape)
  {
    FirstTagToken(e, piece, rest, lower);
    StepsCons(p, Token(true, e.Close?, e.ty, piece), Tokenize(rest, Maker(lower)), unescape);
  }

  /** There is no reference before the next tag. */
  lemma {:induction false} NoReferences(events: seq<Event>, pieces: seq<string>, lower: char -> char)
    requires AllPrintable(events) && AreWritten(pieces, events, lower)
    ensures var s := Concat(pieces); HasNo(s[..TextLength(s)], '&')
    decreases |events|
  {
    if events != [] {
      assert Printable(events[0]) && IsWritten(pieces[0], events[0], lower);
      if events[0].Char? {
        var s, rest := Concat(pieces), Concat(pieces[1..]);
        NoReferences(events[1..], pieces[1..], lower);
        assert s[1..] == rest;
        assert s[..TextLength(s)] == [events[0].c] + rest[..TextLength(rest)];
      }
    }
  }

  /** Tokenizing and parsing what is written takes the steps of the events. */
  lemma {:induction false} PrintedParsesByEvents(p: Parse, events: seq<Event>, pieces: seq<string>,
                                                 lower: char -> char, unescape: string -> string)
    requires AllPrintable(events) && AreWritten(pieces, events, lower) && OnlyReferences(unescape)
    ensures Steps(p, Tokenize(Concat(pieces), Maker(lower)), unescape) == PieceSteps(p, events, pieces)
    decreases |events|
  {
    if events != [] {
      var e, piece, rest := events[0], pieces[0], Concat(pieces[1..]);
      assert Printable(e) && IsWritten(piece, e, lower);
      NoReferences(events[1..], pieces[1..], lower);
      PrintedParsesByEvents(PieceStep(p, e, piece), events[1..], pieces[1..], lower, unescape);
      if e.Char? {
        FirstCharSteps(p, e.c, rest, Maker(lower), unescape);
      } else {
        FirstTagSteps(p, e, piece, rest, lower, unescape);
      }
    }
  }

  /** If no tag has become text, every closing tag has closed one, and how it is written makes no difference. */
  lemma {:induction false} PiecesAgree(p: Parse, events: seq<Event>, pieces: seq<string>)
    requires |pieces| == |events| && HasNo(EventSteps(p, events).text, '<')
    ensures PieceSteps(p, events, pieces) == EventSteps(p, events)
    decreases |events|
  {
    if events != [] {
      var next := EventStep(p, events[0]);
      TextGrows(next, events[1..]);
      if events[0].Close? && Innermost(p.open, events[0].ty) < 0 {
        assert EventSteps(p, events).text[|p.text|] == '<';
      }
      PiecesAgree(next, events[1..], pieces[1..]);
    }
  }

  lemma {:induction false} TextGrows(p: Parse, events: seq<Event>)
    ensures p.text <= EventSteps(p, events).text
    decreases |events|
  {
    if events != [] { TextGrows(EventStep(p, events[0]), events[1..]); }
  }

  // ---------- what the parser has seen at a position of the text ----------

  /** Attribute-free tags as a printer wants them: outer first, properly nested, between characters. */
  ghost predicate WellNested(tags: seq<Tag>, text: string) {
    && (forall i | 0 <= i < |tags| :: GoodTag(tags[i], text))
    && (forall i, j {:trigger Nested(tags[i], tags[j])} | 0 <= i < j < |tags| :: Nested(tags[i], tags[j]))
  }

  predicate GoodTag(t: Tag, text: string) {
    Supported(t.ty) && 0 <= t.offset && 0 < t.length && IsBoundary(text, t.offset) && IsBoundary(text, End(t))
  }

  /** `t` comes first, and `u` is inside it or after it. */
  predicate Nested(t: Tag, u: Tag) {
    t.offset <= u.offset && (End(t) <= u.offset || End(u) <= End(t))
  }

  /** The first n tags as recorded when those of them that end by `p`, and from index m on by `q`, are closed. */
  function Recorded(tags: seq<Tag>, n: nat, m: nat, p: int, q: int): (r: seq<Tag>)
    requires n <= |tags|
    ensures |r| == n
  {
    seq(n, i requires 0 <= i < n =>
      if End(tags[i]) <= p || (m <= i && End(tags[i]) <= q) then tags[i] else tags[i].(length := 0))
  }

  function Opened(t: Tag, i: nat): OpenTag {
    OpenTag(t.ty, t.offset, i)
  }

  /** The tags from a to b that are open at `p`. */
  function Live(tags: seq<Tag>, a: nat, b: nat, p: int): seq<OpenTag>
    requires a <= b <= |tags|
  {
    if a == b then []
    else Live(tags, a, b - 1, p) + (if End(tags[b - 1]) > p then [Opened(tags[b - 1], b - 1)] else [])
  }

  lemma {:induction false} LiveFromFront(tags: seq<Tag>, a: nat, b: nat, p: int)
    requires a < b <= |tags|
    ensures Live(tags, a, b, p) == (if End(tags[a]) > p then [Opened(tags[a], a)] else []) + Live(tags, a + 1, b, p)
    decreases b
  {
    if a + 1 < b {
      LiveFromFront(tags, a, b - 1, p);
      Associates(if End(tags[a]) > p then [Opened(tags[a], a)] else [], Live(tags, a + 1, b - 1, p),
                 if End(tags[b - 1]) > p then [Opened(tags[b - 1], b - 1)] else []);
    } else {
      assert Live(tags, a, a, p) == [] && Live(tags, b, b, p) == [];
    }
  }

  lemma {:induction false} NoneLive(tags: seq<Tag>, a: nat, b: nat, p: int)
    requires a <= b <= |tags| && forall i | a <= i < b :: End(tags[i]) <= p
    ensures Live(tags, a, b, p) == []
    decreases b
  {
    if a < b { NoneLive(tags, a, b - 1, p); }
  }

  /** After the opening tags at `p`: n tags started, the ones past `p` open. */
  function At(tags: seq<Tag>, n: nat, p: int, text: string): Parse
    requires n <= |tags|
  {
    Parse(text, p, Recorded(tags, n, n, p, p), Live(tags, 0, n, p))
  }

  /** Amid the closing tags at `q`: those with index m and more are done. */
  function Closing(tags: seq<Tag>, n: nat, m: nat, p: int, q: int, text: string): Parse
    requires m <= n <= |tags|
  {
    Parse(text, q, Recorded(tags, n, m, p, q), Live(tags, 0, m, p) + Live(tags, m, n, q))
  }

  // ---------- opening tags ----------

  ghost predicate Sorted(tags: seq<Tag>) {
    forall i, j | 0 <= i < j < |tags| :: tags[i].offset <= tags[j].offset
  }

  /** The opening tags at `p`, from the i-th tag on, are opened one after the other. */
  lemma {:induction false} OpensStep(tags: seq<Tag>, i: nat, p: int, text: string) returns (n: nat)
    requires i <= |tags| && Sorted(tags)
    requires forall k | 0 <= k < |tags| :: 0 < tags[k].length && (i <= k ==> p <= tags[k].offset)
    ensures i <= n <= |tags| && (forall k | i <= k < |tags| :: k < n <==> tags[k].offset == p)
    ensures EventSteps(At(tags, i, p, text), Opens(OpeningAt(tags[i..], p))) == At(tags, n, p, text)
    decreases |tags| - i
  {
    if i == |tags| || tags[i].offset != p {
      n := i;
      NothingOpensAt(tags[i..], p);
    } else {
      n := OpensStep(tags, i + 1, p, text);
      var rest := OpeningAt(tags[i + 1..], p);
      assert tags[i..][1..] == tags[i + 1..];
      assert OpeningAt(tags[i..], p) == [tags[i]] + rest;
      assert ([tags[i]] + rest)[1..] == rest;
      var events := Opens(OpeningAt(tags[i..], p));
      assert events == [Open(tags[i].ty)] + Opens(rest) && events[1..] == Opens(rest);
      OneOpens(tags, i, p, text);
    }
  }

  lemma OneOpens(tags: seq<Tag>, i: nat, p: int, text: string)
    requires i < |tags| && tags[i].offset == p && 0 < tags[i].length
    ensures EventStep(At(tags, i, p, text), Open(tags[i].ty)) == At(tags, i + 1, p, text)
  {
    assert Recorded(tags, i + 1, i + 1, p, p) == Recorded(tags, i, i, p, p) + [Tag(tags[i].ty, p, 0)];
  }

  // ---------- closing tags ----------

  /** The n tags started by `p` are nested, and none of them ends between `p` and `q`. */
  ghost predicate Between(tags: seq<Tag>, n: nat, p: int, q: int) {
    && n <= |tags| && p < q
    && (forall i | 0 <= i < n :: tags[i].offset <= p && (End(tags[i]) <= p || q <= End(tags[i])))
    && (forall i, j {:trigger Nested(tags[i], tags[j])} | 0 <= i < j < n :: Nested(tags[i], tags[j]))
  }

  lemma {:induction false} ClosesStep(tags: seq<Tag>, n: nat, m: nat, p: int, q: int, text: string)
    requires m <= n && Between(tags, n, p, q)
    ensures EventSteps(Closing(tags, n, m, p, q, text), Closes(ClosingAt(tags[..m], q)))
      == Closing(tags, n, 0, p, q, text)
    decreases m
  {
    if m > 0 {
      ClosesStep(tags, n, m - 1, p, q, text);
      ClosesOfPrefix(tags, m, q);
      if End(tags[m - 1]) == q {
        OneCloses(tags, n, m, p, q, text);
        EventStepsCons(Closing(tags, n, m, p, q, text), Close(tags[m - 1].ty), Closes(ClosingAt(tags[..m - 1], q)));
      } else {
        OneStays(tags, n, m, p, q, text);
      }
    } else {
      assert tags[..0] == [];
    }
  }

  lemma ClosesOfPrefix(tags: seq<Tag>, m: nat, q: int)
    requires 0 < m <= |tags|
    ensures var rest := Closes(ClosingAt(tags[..m - 1], q));
      Closes(ClosingAt(tags[..m], q)) == if End(tags[m - 1]) == q then [Close(tags[m - 1].ty)] + rest else rest
  {
    var earlier := ClosingAt(tags[..m - 1], q);
    assert tags[..m][..m - 1] == tags[..m - 1];
    if End(tags[m - 1]) == q {
      assert (earlier + [tags[m - 1]])[..|earlier|] == earlier;
    } else {
      assert earlier + [] == earlier;
    }
  }

  lemma EventStepsCons(p: Parse, e: Event, rest: seq<Event>)
    ensures EventSteps(p, [e] + rest) == EventSteps(EventStep(p, e), rest)
  {
    assert ([e] + rest)[1..] == rest;
  }

  /** By nesting the tag that closes next is the innermost one open. */
  lemma OneCloses(tags: seq<Tag>, n: nat, m: nat, p: int, q: int, text: string)
    requires 0 < m <= n && Between(tags, n, p, q) && End(tags[m - 1]) == q
    ensures EventStep(Closing(tags, n, m, p, q, text), Close(tags[m - 1].ty)) == Closing(tags, n, m - 1, p, q, text)
  {
    var t, state := tags[m - 1], Closing(tags, n, m, p, q, text);
    forall i | m <= i < n ensures End(tags[i]) <= q {
      assert Nested(t, tags[i]);
    }
    NoneLive(tags, m, n, q);
    NoneLive(tags, m - 1, n, q);
    var below := Live(tags, 0, m - 1, p);
    assert state.open == below + [Opened(t, m - 1)];
    assert Innermost(state.open, t.ty) == |below|;
    assert state.open[..|below|] + state.open[|below| + 1..] == below;
    assert SetLength(state.tags, Opened(t, m - 1), q) == Recorded(tags, n, m - 1, p, q);
    assert below + [] == below;
  }

  lemma OneStays(tags: seq<Tag>, n: nat, m: nat, p: int, q: int, text: string)
    requires 0 < m <= n && Between(tags, n, p, q) && End(tags[m - 1]) != q
    ensures Closing(tags, n, m, p, q, text) == Closing(tags, n, m - 1, p, q, text)
  {
    assert Recorded(tags, n, m, p, q) == Recorded(tags, n, m - 1, p, q);
    LiveFromFront(tags, m - 1, n, q);
    Associates(Live(tags, 0, m - 1, p), if End(tags[m - 1]) > q then [Opened(tags[m - 1], m - 1)] else [],
               Live(tags, m, n, q));
  }

  // ---------- the whole text ----------

  lemma {:induction false} BoundaryWithin(s: string, x: int)
    requires IsBoundary(s, x)
    ensures 0 <= x <= Width(s)
    decreases |s|
  {
    if x != 0 { BoundaryWithin(s[1..], x - CharWidth(s[0])); }
  }

  lemma {:induction false} ClosersAreStarted(tags: seq<Tag>, n: nat, q: int)
    requires n <= |tags| && forall k | n <= k < |tags| :: End(tags[k]) != q
    ensures ClosingAt(tags, q) == ClosingAt(tags[..n], q)
    decreases |tags|
  {
    if n == |tags| {
      assert tags[..n] == tags;
    } else {
      var front := tags[..|tags| - 1];
      ClosersAreStarted(front, n, q);
      assert front[..n] == tags[..n];
    }
  }

  /** The tags that start before `p` are the first n. */
  ghost predicate StartedBy(tags: seq<Tag>, n: nat, p: int) {
    && n <= |tags| && (n < |tags| ==> p <= tags[n].offset)
    && forall k | 0 <= k < |tags| :: k < n <==> tags[k].offset < p
  }

  /** One character, with the tags that open before it and close after it. */
  lemma CharacterStep(prefix: string, c: char, tags: seq<Tag>, n: nat, p: int, s: string) returns (next: nat)
    requires WellNestedAt(tags, p, s) && s != [] && s[0] == c && StartedBy(tags, n, p) && p == Width(prefix)
    ensures var q := p + CharWidth(c);
      && StartedBy(tags, next, q) && q == Width(prefix + [c])
      && EventSteps(At(tags, n, p, prefix), Opens(OpeningAt(tags, p)) + ([Char(c)] + Closes(ClosingAt(tags, q))))
         == At(tags, next, q, prefix + [c])
  {
    var q := p + CharWidth(c);
    next := OpensHere(tags, n, p, prefix, s);
    StartedNext(tags, n, next, p, s);
    WidthOfOneMore(prefix, c);
    CharacterCloses(prefix, c, tags, next, p, q);
    StepsChain(At(tags, n, p, prefix), At(tags, next, p, prefix), At(tags, next, q, prefix + [c]),
               Opens(OpeningAt(tags, p)), [Char(c)] + Closes(ClosingAt(tags, q)));
  }

  lemma StepsChain(a: Parse, b: Parse, c: Parse, first: seq<Event>, second: seq<Event>)
    requires EventSteps(a, first) == b && EventSteps(b, second) == c
    ensures EventSteps(a, first + second) == c
  {
    EventStepsSplit(a, first, second);
  }

  lemma WidthOfOneMore(prefix: string, c: char)
    ensures Width(prefix + [c]) == Width(prefix) + CharWidth(c)
  {
    WidthSplits(prefix, [c]);
    assert [c][1..] == [];
  }

  lemma OpensHere(tags: seq<Tag>, n: nat, p: int, prefix: string, s: string) returns (next: nat)
    requires WellNestedAt(tags, p, s) && StartedBy(tags, n, p)
    ensures n <= next <= |tags| && (forall k | n <= k < |tags| :: k < next <==> tags[k].offset == p)
    ensures EventSteps(At(tags, n, p, prefix), Opens(OpeningAt(tags, p))) == At(tags, next, p, prefix)
  {
    NestedIsSorted(tags);
    next := OpensStep(tags, n, p, prefix);
    OpenersAreNew(tags, n, p);
  }

  lemma StartedNext(tags: seq<Tag>, n: nat, next: nat, p: int, s: string)
    requires WellNestedAt(tags, p, s) && s != [] && StartedBy(tags, n, p) && n <= next <= |tags|
    requires forall k | n <= k < |tags| :: k < next <==> tags[k].offset == p
    ensures var q := p + CharWidth(s[0]);
      StartedBy(tags, next, q) && Between(tags, next, p, q) && forall k | next <= k < |tags| :: End(tags[k]) != q
  {
    NothingInside(tags, p, s);
  }

  lemma CharacterCloses(prefix: string, c: char, tags: seq<Tag>, n: nat, p: int, q: int)
    requires Between(tags, n, p, q) && q == p + CharWidth(c)
    requires forall k | n <= k < |tags| :: End(tags[k]) != q
    ensures EventSteps(At(tags, n, p, prefix), [Char(c)] + Closes(ClosingAt(tags, q))) == At(tags, n, q, prefix + [c])
  {
    CharReaches(tags, n, p, q, prefix, c);
    ClosesStep(tags, n, n, p, q, prefix + [c]);
    ClosersAreStarted(tags, n, q);
    AllClosed(tags, n, p, q, prefix + [c]);
    assert ([Char(c)] + Closes(ClosingAt(tags, q)))[1..] == Closes(ClosingAt(tags, q));
  }

  lemma NothingInside(tags: seq<Tag>, p: int, s: string)
    requires WellNestedAt(tags, p, s) && s != []
    ensures var q := p + CharWidth(s[0]);
      forall k | 0 <= k < |tags| ::
        (tags[k].offset <= p || q <= tags[k].offset) && (End(tags[k]) <= p || q <= End(tags[k]))
  {
    forall k | 0 <= k < |tags| ensures tags[k].offset <= p || p + CharWidth(s[0]) <= tags[k].offset {
      JumpsOver(s, tags[k].offset - p);
    }
    forall k | 0 <= k < |tags| ensures End(tags[k]) <= p || p + CharWidth(s[0]) <= End(tags[k]) {
      JumpsOver(s, End(tags[k]) - p);
    }
  }

  lemma NestedIsSorted(tags: seq<Tag>)
    requires forall i, j {:trigger Nested(tags[i], tags[j])} | 0 <= i < j < |tags| :: Nested(tags[i], tags[j])
    ensures Sorted(tags)
  {
    forall i, j | 0 <= i < j < |tags| ensures tags[i].offset <= tags[j].offset {
      assert Nested(tags[i], tags[j]);
    }
  }

  /** Nested tags, none of which starts or ends inside a character of `s`, the text from `p` on. */
  ghost predicate WellNestedAt(tags: seq<Tag>, p: int, s: string) {
    && (forall i | 0 <= i < |tags| :: 0 < tags[i].length)
    && (forall i, j {:trigger Nested(tags[i], tags[j])} | 0 <= i < j < |tags| :: Nested(tags[i], tags[j]))
    && Aligned(s, tags, p)
  }

  lemma JumpsOver(s: string, x: int)
    requires s != [] && (0 <= x ==> IsBoundary(s, x))
    ensures x <= 0 || CharWidth(s[0]) <= x
  {
  }

  lemma {:induction false} OpenersAreNew(tags: seq<Tag>, n: nat, p: int)
    requires n <= |tags| && forall k | 0 <= k < n :: tags[k].offset != p
    ensures OpeningAt(tags, p) == OpeningAt(tags[n..], p)
    decreases n
  {
    if n > 0 {
      OpenersAreNew(tags[1..], n - 1, p);
      assert tags[1..][n - 1..] == tags[n..];
    } else {
      assert tags[0..] == tags;
    }
  }

  lemma CharReaches(tags: seq<Tag>, n: nat, p: int, q: int, prefix: string, c: char)
    requires n <= |tags| && q == p + CharWidth(c)
    ensures EventStep(At(tags, n, p, prefix), Char(c)) == Closing(tags, n, n, p, q, prefix + [c])
  {
    assert Recorded(tags, n, n, p, p) == Recorded(tags, n, n, p, q);
    assert Live(tags, 0, n, p) + [] == Live(tags, 0, n, p);
    assert Width([c]) == CharWidth(c) by { assert [c][1..] == []; }
  }

  lemma AllClosed(tags: seq<Tag>, n: nat, p: int, q: int, text: string)
    requires n <= |tags| && p < q
    ensures Closing(tags, n, 0, p, q, text) == At(tags, n, q, text)
  {
    assert Recorded(tags, n, 0, p, q) == Recorded(tags, n, n, q, q);
    assert [] + Live(tags, 0, n, q) == Live(tags, 0, n, q);
  }

  lemma {:induction false} EventsRebuild(prefix: string, s: string, tags: seq<Tag>, n: nat, text: string)
    requires WellNestedAt(tags, Width(prefix), s) && StartedBy(tags, n, Width(prefix))
    requires text == prefix + s && EndBy(tags, Width(text))
    ensures EventSteps(At(tags, n, Width(prefix), prefix), Events(s, tags, Width(prefix)))
      == Parse(text, Width(text), tags, [])
    decreases |s|
  {
    if s == [] {
      assert text == prefix;
      AllSeen(text, tags, n);
    } else {
      var next := FirstOfRest(prefix, s, tags, n);
      FirstMoves(prefix, s);
      EventsRebuild(prefix + [s[0]], s[1..], tags, next, text);
    }
  }

  lemma FirstOfRest(prefix: string, s: string, tags: seq<Tag>, n: nat) returns (next: nat)
    requires s != [] && WellNestedAt(tags, Width(prefix), s) && StartedBy(tags, n, Width(prefix))
    ensures var p, q := Width(prefix), Width(prefix + [s[0]]);
      && q == p + CharWidth(s[0]) && StartedBy(tags, next, q) && WellNestedAt(tags, q, s[1..])
      && EventSteps(At(tags, n, p, prefix), Events(s, tags, p))
         == EventSteps(At(tags, next, q, prefix + [s[0]]), Events(s[1..], tags, q))
  {
    var p := Width(prefix);
    next := CharacterStep(prefix, s[0], tags, n, p, s);
    FirstCharacter(At(tags, n, p, prefix), s, tags, p);
    WellNestedNext(s, tags, p);
  }

  lemma FirstMoves(prefix: string, s: string)
    requires s != []
    ensures prefix + [s[0]] + s[1..] == prefix + s
  {
  }

  ghost predicate EndBy(tags: seq<Tag>, p: int) {
    forall i | 0 <= i < |tags| :: End(tags[i]) <= p
  }

  lemma WellNestedNext(s: string, tags: seq<Tag>, p: int)
    requires s != [] && WellNestedAt(tags, p, s)
    ensures WellNestedAt(tags, p + CharWidth(s[0]), s[1..])
  {
    AlignedNext(s, tags, p);
  }

  lemma AllSeen(text: string, tags: seq<Tag>, n: nat)
    requires StartedBy(tags, n, Width(text))
    requires EndBy(tags, Width(text)) && forall i | 0 <= i < |tags| :: 0 < tags[i].length
    ensures At(tags, n, Width(text), text) == Parse(text, Width(text), tags, [])
  {
    assert n == |tags|;
    NoneLive(tags, 0, n, Width(text));
    assert Recorded(tags, n, n, Width(text), Width(text)) == tags;
  }

  lemma Regrouped<T>(a: seq<T>, b: seq<T>, c: seq<T>, d: seq<T>)
    ensures a + (b + c) + d == a + (b + (c + d))
  {
  }

  lemma FirstCharacter(state: Parse, s: string, tags: seq<Tag>, p: int)
    requires s != []
    ensures var q := p + CharWidth(s[0]);
      EventSteps(state, Events(s, tags, p))
        == EventSteps(EventSteps(state, Opens(OpeningAt(tags, p)) + ([Char(s[0])] + Closes(ClosingAt(tags, q)))),
                      Events(s[1..], tags, q))
  {
    var q := p + CharWidth(s[0]);
    var a, b, rest := Opens(OpeningAt(tags, p)), Closes(ClosingAt(tags, q)), Events(s[1..], tags, q);
    EventStepsSplit(state, a + ([Char(s[0])] + b), rest);
    Regrouped(a, [Char(s[0])], b, rest);
  }

  lemma {:induction false} EventsArePrintable(s: string, tags: seq<Tag>, p: int)
    requires HasNo(s, '<') && HasNo(s, '&') && forall i | 0 <= i < |tags| :: Supported(tags[i].ty)
    ensures AllPrintable(Events(s, tags, p))
    decreases |s|
  {
    if s != [] {
      var q := p + CharWidth(s[0]);
      EventsArePrintable(s[1..], tags, q);
      OpenersAreTags(tags, p);
      ClosersAreTags(tags, q);
      OpensArePrintable(OpeningAt(tags, p));
      ClosesArePrintable(ClosingAt(tags, q));
    }
  }

  lemma {:induction false} OpenersAreTags(tags: seq<Tag>, p: int)
    requires forall i | 0 <= i < |tags| :: Supported(tags[i].ty)
    ensures forall i | 0 <= i < |OpeningAt(tags, p)| :: Supported(OpeningAt(tags, p)[i].ty)
  {
    if tags != [] { OpenersAreTags(tags[1..], p); }
  }

  lemma {:induction false} ClosersAreTags(tags: seq<Tag>, p: int)
    requires forall i | 0 <= i < |tags| :: Supported(tags[i].ty)
    ensures forall i | 0 <= i < |ClosingAt(tags, p)| :: Supported(ClosingAt(tags, p)[i].ty)
  {
    if tags != [] { ClosersAreTags(tags[..|tags| - 1], p); }
  }

  lemma {:induction false} OpensArePrintable(tags: seq<Tag>)
    requires forall i | 0 <= i < |tags| :: Supported(tags[i].ty)
    ensures AllPrintable(Opens(tags))
  {
    if tags != [] { OpensArePrintable(tags[1..]); }
  }

  lemma {:induction false} ClosesArePrintable(tags: seq<Tag>)
    requires forall i | 0 <= i < |tags| :: Supported(tags[i].ty)
    ensures AllPrintable(Closes(tags))
  {
    if tags != [] { ClosesArePrintable(tags[..|tags| - 1]); }
  }

  // ---------- the round trip ----------

  lemma {:induction false} NothingTrimmed(tags: seq<Tag>, width: int)
    requires forall i | 0 <= i < |tags| :: 0 <= tags[i].offset && 0 < tags[i].length && End(tags[i]) <= width
    ensures TrimTags(tags, 0, width) == tags
  {
    if tags != [] {
      KeptWhole(tags[0], width);
      NothingTrimmed(tags[1..], width);
      HeadAndTail(tags);
    }
  }

  lemma KeptWhole(t: Tag, width: int)
    requires 0 <= t.offset && 0 < t.length && End(t) <= width
    ensures Surviving(t, 0, width) == [t]
  {
  }

  lemma HeadAndTail(tags: seq<Tag>)
    requires tags != []
    ensures [tags[0]] + tags[1..] == tags
  {
  }

  /** The text that InsertTagsIntoText produces. */
  function Printed(text: string, tags: seq<Tag>): string {
    Decode(Units(Encode(text), tags, 0))
  }

  lemma PrintedIsEvents(text: string, tags: seq<Tag>)
    requires WellNested(tags, text)
    ensures Printed(text, tags) == Flatten(Events(text, tags, 0)) && Aligned(text, tags, 0)
  {
    UnitsEncodeEvents(text, tags, 0);
    DecodeEncode(Flatten(Events(text, tags, 0)));
  }

  /** Main result: however the tags are written, parsing gives the text and the tags. */
  lemma ParseReadsWriting(text: string, tags: seq<Tag>, pieces: seq<string>, lower: char -> char,
                          unescape: string -> string)
    requires HasNo(text, '<') && HasNo(text, '&') && NoOuterSpace(text) && WellNested(tags, text)
    requires AreWritten(pieces, Events(text, tags, 0), lower) && OnlyReferences(unescape)
    ensures Parsed(Concat(pieces), Maker(lower), unescape) == (text, tags)
  {
    EventsArePrintable(text, tags, 0);
    PrintedParsesByEvents(BEGIN, Events(text, tags, 0), pieces, lower, unescape);
    AllEventsRebuild(text, tags);
    PiecesAgree(BEGIN, Events(text, tags, 0), pieces);
    FinishKeepsAll(text, tags);
  }

  /** So parsing undoes printing. */
  lemma ParseUndoesPrint(text: string, tags: seq<Tag>, lower: char -> char, unescape: string -> string)
    requires HasNo(text, '<') && HasNo(text, '&') && NoOuterSpace(text) && WellNested(tags, text)
    requires OnlyReferences(unescape)
    ensures Parsed(Printed(text, tags), Maker(lower), unescape) == (text, tags)
  {
    var events := Events(text, tags, 0);
    PrintedIsEvents(text, tags);
    EventsArePrintable(text, tags, 0);
    PrintedIsWritten(events, lower);
    ParseReadsWriting(text, tags, PiecesOf(events), lower, unescape);
  }

  function PiecesOf(events: seq<Event>): seq<string> {
    if events == [] then [] else [EventText(events[0])] + PiecesOf(events[1..])
  }

  lemma {:induction false} PrintedIsWritten(events: seq<Event>, lower: char -> char)
    requires AllPrintable(events)
    ensures Concat(PiecesOf(events)) == Flatten(events) && AreWritten(PiecesOf(events), events, lower)
  {
    if events != [] {
      var pieces, rest := PiecesOf(events), PiecesOf(events[1..]);
      PrintedIsWritten(events[1..], lower);
      assert pieces[1..] == rest && Printable(events[0]);
      if !events[0].Char? {
        SupportedIsName(events[0].ty);
        PrintedTagIsWritten(events[0], lower);
      }
      forall i | 0 <= i < |pieces| ensures IsWritten(pieces[i], events[i], lower) {
        if i > 0 { assert IsWritten(rest[i - 1], events[1..][i - 1], lower); }
      }
    }
  }

  lemma PrintedTagIsWritten(e: Event, lower: char -> char)
    requires !e.Char? && IsName(e.ty)
    ensures IsWritten(EventText(e), e, lower)
  {
    SlashOf(e);
    PlainTagIsWritten(EventText(e), if e.Close? then "/" else "", e.ty, e.Close?, lower);
  }

  lemma SlashOf(e: Event)
    requires !e.Char?
    ensures EventText(e) == "<" + ((if e.Close? then "/" else "") + e.ty) + ">"
  {
  }

  predicate IsName(s: string) {
    s != [] && forall i | 0 <= i < |s| :: 'a' <= s[i] <= 'z'
  }

  lemma SupportedIsName(name: string)
    requires Supported(name)
    ensures IsName(name)
  {
  }

  lemma PlainTagIsWritten(piece: string, slash: string, ty: string, closing: bool, lower: char -> char)
    requires IsName(ty) && piece == "<" + (slash + ty) + ">" && slash == if closing then "/" else ""
    ensures IsWrittenTag(piece, ty, closing, lower)
  {
    PlainSpells(piece, slash, ty, closing);
    NameIsLowerCase(ty, lower);
    PlainTagEnds(piece, slash + ty);
  }

  lemma PlainTagEnds(piece: string, body: string)
    requires piece == "<" + body + ">" && forall i | 0 <= i < |body| :: body[i] == '/' || 'a' <= body[i] <= 'z'
    ensures EndsTag(piece[1..], |piece| - 2)
  {
    PlainEnds(body);
    assert piece[1..] == body + ">";
  }

  lemma PlainSpells(piece: string, slash: string, ty: string, closing: bool)
    requires IsName(ty) && piece == "<" + (slash + ty) + ">" && slash == if closing then "/" else ""
    ensures Spells(piece, closing, ty)
  {
    assert ty + "" == ty && piece == "<" + "" + slash + ty + "" + "" + ">";
    assert !IsSpace(ty[0]) && !IsSpace(ty[|ty| - 1]);
    assert IsTagWith(piece, closing, "", slash, ty, "", "");
  }

  lemma NameIsLowerCase(ty: string, lower: char -> char)
    requires IsName(ty)
    ensures IsLowerCase(ty, ty, lower)
  {
    forall i | 0 <= i < |ty| ensures IsLowerOf(ty[i], ty[i], lower) { UpperIsAscii(ty[i]); }
  }

  lemma PlainEnds(body: string)
    requires forall i | 0 <= i < |body| :: body[i] == '/' || 'a' <= body[i] <= 'z'
    ensures EndsTag(body + ">", |body|)
  {
    assert (body + ">")[..|body|] == body;
    PlainIsBalanced(body);
  }

  lemma {:induction false} PlainIsBalanced(body: string)
    requires forall i | 0 <= i < |body| :: body[i] == '/' || 'a' <= body[i] <= 'z'
    ensures Balanced(body)
  {
    if body != [] { PlainIsBalanced(body[1..]); }
  }

  lemma AllEndWithin(text: string, tags: seq<Tag>)
    requires WellNested(tags, text)
    ensures EndBy(tags, Width(text))
  {
    forall i | 0 <= i < |tags| ensures End(tags[i]) <= Width(text) {
      BoundaryWithin(text, End(tags[i]));
    }
  }

  lemma FinishKeepsAll(text: string, tags: seq<Tag>)
    requires NoOuterSpace(text) && WellNested(tags, text)
    ensures Finish(Parse(text, Width(text), tags, [])) == (text, tags)
  {
    AllEndWithin(text, tags);
    NothingTrimmed(tags, Width(text));
  }

  lemma AllEventsRebuild(text: string, tags: seq<Tag>)
    requires WellNested(tags, text)
    ensures EventSteps(BEGIN, Events(text, tags, 0)) == Parse(text, Width(text), tags, [])
  {
    AllEndWithin(text, tags);
    assert At(tags, 0, 0, "") == BEGIN;
    EventsRebuild("", text, tags, 0, text);
  }
}
