/** The inverse of the parser, InsertTagsIntoText (telegram/formatting.go), for tags without attributes.
    It works on UTF-16 units: before unit i the tags that start at i, after it those that end at i + 1. */
module HtmlPrinter {
  import opened Utf16
  import opened HtmlParser

  function End(t: Tag): int {
    t.offset + t.length
  }

  function OpeningAt(tags: seq<Tag>, p: int): seq<Tag> {
    if tags == [] then [] else (if tags[0].offset == p then [tags[0]] else []) + OpeningAt(tags[1..], p)
  }

  function ClosingAt(tags: seq<Tag>, p: int): seq<Tag> {
    if tags == [] then []
    else ClosingAt(tags[..|tags| - 1], p) + (if End(tags[|tags| - 1]) == p then [tags[|tags| - 1]] else [])
  }

  function OpenText(tags: seq<Tag>): string {
    if tags == [] then "" else "<" + tags[0].ty + ">" + OpenText(tags[1..])
  }

  /** Closing tags come out last to first. */
  function CloseText(tags: seq<Tag>): string {
    if tags == [] then "" else "</" + tags[|tags| - 1].ty + ">" + CloseText(tags[..|tags| - 1])
  }

  /** The units written for the rest `us` of the text, which starts at position `i`. */
  function Units(us: seq<Unit>, tags: seq<Tag>, i: int): seq<Unit> {
    if us == [] then []
    else UnitsAt(us[0], tags, i) + Units(us[1..], tags, i + 1)
  }

  function UnitsAt(u: Unit, tags: seq<Tag>, i: int): seq<Unit> {
    Encode(OpenText(OpeningAt(tags, i))) + [u] + Encode(CloseText(ClosingAt(tags, i + 1)))
  }

  method InsertTagsIntoText(text: string, tags: seq<Tag>) returns (r: string)
    ensures r == Decode(Units(Encode(text), tags, 0))
  {
    var units := Encode(text);
    var openTags, closeTags := Group(tags);
    var result: seq<Unit> := [];
    assert units[0..] == units;
    for i := 0 to |units|
      invariant WrittenUpTo(result, units, tags, i)
    {
      UnitStep(result, units, tags, i);
      LookupOpen(tags, i);
      LookupClose(tags, i + 1);
      var opening := EncodeOpening(Lookup(openTags, i));
      var closing := EncodeClosing(Lookup(closeTags, i + 1));
      result := result + (opening + [units[i]] + closing);
    }
    assert units[|units|..] == [] && result + [] == result;
    r := Decode(result);
  }

  ghost predicate WrittenUpTo(result: seq<Unit>, units: seq<Unit>, tags: seq<Tag>, i: nat)
    requires i <= |units|
  {
    result + Units(units[i..], tags, i) == Units(units, tags, 0)
  }

  lemma UnitStep(result: seq<Unit>, units: seq<Unit>, tags: seq<Tag>, i: nat)
    requires i < |units| && WrittenUpTo(result, units, tags, i)
    ensures WrittenUpTo(result + UnitsAt(units[i], tags, i), units, tags, i + 1)
  {
    assert units[i..][1..] == units[i + 1..];
    Associates(result, UnitsAt(units[i], tags, i), Units(units[i + 1..], tags, i + 1));
  }

  function Lookup(table: map<int, seq<Tag>>, p: int): seq<Tag> {
    if p in table then table[p] else []
  }

  function Add(table: map<int, seq<Tag>>, p: int, t: Tag): map<int, seq<Tag>> {
    table[p := Lookup(table, p) + [t]]
  }

  function OpenTable(tags: seq<Tag>): map<int, seq<Tag>> {
    if tags == [] then map[]
    else var t := tags[|tags| - 1]; Add(OpenTable(tags[..|tags| - 1]), t.offset, t)
  }

  function CloseTable(tags: seq<Tag>): map<int, seq<Tag>> {
    if tags == [] then map[]
    else var t := tags[|tags| - 1]; Add(CloseTable(tags[..|tags| - 1]), End(t), t)
  }

  /** The two tables by position, each list in the order of the tags. */
  method Group(tags: seq<Tag>) returns (openTags: map<int, seq<Tag>>, closeTags: map<int, seq<Tag>>)
    ensures openTags == OpenTable(tags) && closeTags == CloseTable(tags)
  {
    openTags, closeTags := map[], map[];
    for k := 0 to |tags|
      invariant openTags == OpenTable(tags[..k]) && closeTags == CloseTable(tags[..k])
    {
      assert tags[..k + 1][..k] == tags[..k];
      openTags := Add(openTags, tags[k].offset, tags[k]);
      closeTags := Add(closeTags, End(tags[k]), tags[k]);
    }
    assert tags[..|tags|] == tags;
  }

  lemma {:induction false} LookupOpen(tags: seq<Tag>, p: int)
    ensures Lookup(OpenTable(tags), p) == OpeningAt(tags, p)
  {
    if tags != [] {
      var k := |tags| - 1;
      LookupOpen(tags[..k], p);
      OpeningOfAppended(tags[..k], tags[k], p);
      assert tags == tags[..k] + [tags[k]];
    }
  }

  lemma {:induction false} LookupClose(tags: seq<Tag>, p: int)
    ensures Lookup(CloseTable(tags), p) == ClosingAt(tags, p)
  {
    if tags != [] { LookupClose(tags[..|tags| - 1], p); }
  }

  lemma {:induction false} OpeningOfAppended(tags: seq<Tag>, t: Tag, p: int)
    ensures OpeningAt(tags + [t], p) == OpeningAt(tags, p) + (if t.offset == p then [t] else [])
  {
    if tags == [] {
      assert ([] + [t])[1..] == [];
    } else {
      OpeningOfAppended(tags[1..], t, p);
      assert (tags + [t])[1..] == tags[1..] + [t];
      Associates(if tags[0].offset == p then [tags[0]] else [], OpeningAt(tags[1..], p),
                 if t.offset == p then [t] else []);
    }
  }

  method EncodeOpening(tags: seq<Tag>) returns (r: seq<Unit>)
    ensures r == Encode(OpenText(tags))
  {
    r := [];
    assert tags[0..] == tags;
    for k := 0 to |tags|
      invariant r + Encode(OpenText(tags[k..])) == Encode(OpenText(tags))
    {
      assert tags[k..][1..] == tags[k + 1..];
      EncodeSplits("<" + tags[k].ty + ">", OpenText(tags[k + 1..]));
      Associates(r, Encode("<" + tags[k].ty + ">"), Encode(OpenText(tags[k + 1..])));
      r := r + Encode("<" + tags[k].ty + ">");
    }
  }

  method EncodeClosing(tags: seq<Tag>) returns (r: seq<Unit>)
    ensures r == Encode(CloseText(tags))
  {
    r := [];
    var j := |tags|;
    assert tags[..j] == tags;
    while j > 0
      invariant 0 <= j <= |tags|
      invariant r + Encode(CloseText(tags[..j])) == Encode(CloseText(tags))
    {
      j := j - 1;
      assert tags[..j + 1][..j] == tags[..j];
      EncodeSplits("</" + tags[j].ty + ">", CloseText(tags[..j]));
      Associates(r, Encode("</" + tags[j].ty + ">"), Encode(CloseText(tags[..j])));
      r := r + Encode("</" + tags[j].ty + ">");
    }
  }

  // ---------- the same, character by character ----------

  datatype Event = Open(ty: string) | Char(c: char) | Close(ty: string)

  function Opens(tags: seq<Tag>): seq<Event> {
    if tags == [] then [] else [Open(tags[0].ty)] + Opens(tags[1..])
  }

  function Closes(tags: seq<Tag>): seq<Event> {
    if tags == [] then [] else [Close(tags[|tags| - 1].ty)] + Closes(tags[..|tags| - 1])
  }

  /** The events for the rest `s` of the text, which starts at position `p`. */
  function Events(s: string, tags: seq<Tag>, p: int): seq<Event> {
    if s == [] then []
    else
      var q := p + CharWidth(s[0]);
      Opens(OpeningAt(tags, p)) + ([Char(s[0])] + (Closes(ClosingAt(tags, q)) + Events(s[1..], tags, q)))
  }

  function EventText(e: Event): string {
    match e
    case Open(ty) => "<" + ty + ">"
    case Char(c) => [c]
    case Close(ty) => "</" + ty + ">"
  }

  function Flatten(events: seq<Event>): string {
    if events == [] then "" else EventText(events[0]) + Flatten(events[1..])
  }

  lemma {:induction false} FlattenSplits(a: seq<Event>, b: seq<Event>)
    ensures Flatten(a + b) == Flatten(a) + Flatten(b)
  {
    if a == [] {
      assert a + b == b;
    } else {
      FlattenSplits(a[1..], b);
      FirstOfBoth(a, b);
      FlattenFirst(a[0], a[1..] + b);
      Associates(EventText(a[0]), Flatten(a[1..]), Flatten(b));
    }
  }

  lemma FirstOfBoth(a: seq<Event>, b: seq<Event>)
    requires a != []
    ensures a + b == [a[0]] + (a[1..] + b)
  {
  }

  lemma FlattenFirst(e: Event, rest: seq<Event>)
    ensures Flatten([e] + rest) == EventText(e) + Flatten(rest)
  {
    assert ([e] + rest)[1..] == rest;
  }

  lemma {:induction false} FlattenOpens(tags: seq<Tag>)
    ensures Flatten(Opens(tags)) == OpenText(tags)
  {
    if tags != [] { FlattenOpens(tags[1..]); }
  }

  lemma {:induction false} FlattenCloses(tags: seq<Tag>)
    ensures Flatten(Closes(tags)) == CloseText(tags)
  {
    if tags != [] { FlattenCloses(tags[..|tags| - 1]); }
  }

  /** Position `x` of `s` falls between two characters. */
  predicate IsBoundary(s: string, x: int)
    decreases |s|
  {
    x == 0 || (s != [] && x >= CharWidth(s[0]) && IsBoundary(s[1..], x - CharWidth(s[0])))
  }

  /** No tag that is still to come starts or ends inside a character of `s`, which starts at `p`. */
  ghost predicate Aligned(s: string, tags: seq<Tag>, p: int) {
    forall i | 0 <= i < |tags| ::
      && (p <= tags[i].offset ==> IsBoundary(s, tags[i].offset - p))
      && (p <= End(tags[i]) ==> IsBoundary(s, End(tags[i]) - p))
  }

  lemma {:induction false} NothingOpensAt(tags: seq<Tag>, p: int)
    requires forall i | 0 <= i < |tags| :: tags[i].offset != p
    ensures OpeningAt(tags, p) == []
  {
    if tags != [] { NothingOpensAt(tags[1..], p); }
  }

  lemma {:induction false} NothingClosesAt(tags: seq<Tag>, p: int)
    requires forall i | 0 <= i < |tags| :: End(tags[i]) != p
    ensures ClosingAt(tags, p) == []
  {
    if tags != [] { NothingClosesAt(tags[..|tags| - 1], p); }
  }

  /** On character boundaries the printer never splits a surrogate pair: its units encode the events. */
  lemma {:induction false} UnitsEncodeEvents(s: string, tags: seq<Tag>, p: int)
    requires Aligned(s, tags, p)
    ensures Units(Encode(s), tags, p) == Encode(Flatten(Events(s, tags, p)))
    decreases |s|
  {
    if s != [] {
      var q := p + CharWidth(s[0]);
      AlignedNext(s, tags, p);
      UnitsEncodeEvents(s[1..], tags, q);
      EncodeEvent(OpeningAt(tags, p), s[0], ClosingAt(tags, q), Events(s[1..], tags, q));
      UnitsOfChar(s, tags, p);
    }
  }

  lemma AlignedNext(s: string, tags: seq<Tag>, p: int)
    requires s != [] && Aligned(s, tags, p)
    ensures Aligned(s[1..], tags, p + CharWidth(s[0]))
    ensures CharWidth(s[0]) == 2 ==> OpeningAt(tags, p + 1) == [] && ClosingAt(tags, p + 1) == []
  {
    if CharWidth(s[0]) == 2 {
      assert !IsBoundary(s, 1);
      NothingOpensAt(tags, p + 1);
      NothingClosesAt(tags, p + 1);
    }
  }

  lemma EncodeEvent(opening: seq<Tag>, c: char, closing: seq<Tag>, rest: seq<Event>)
    ensures Encode(Flatten(Opens(opening) + ([Char(c)] + (Closes(closing) + rest))))
      == Encode(OpenText(opening)) + (EncodeChar(c) + (Encode(CloseText(closing)) + Encode(Flatten(rest))))
  {
    FlattenSplits(Opens(opening), [Char(c)] + (Closes(closing) + rest));
    FlattenSplits([Char(c)], Closes(closing) + rest);
    FlattenSplits(Closes(closing), rest);
    FlattenOpens(opening);
    FlattenCloses(closing);
    assert Flatten([Char(c)]) == [c];
    EncodeSplits(OpenText(opening), [c] + (CloseText(closing) + Flatten(rest)));
    EncodeSplits([c], CloseText(closing) + Flatten(rest));
    EncodeSplits(CloseText(closing), Flatten(rest));
    assert Encode([c]) == EncodeChar(c);
  }

  lemma UnitsOfChar(s: string, tags: seq<Tag>, p: int)
    requires s != []
    requires CharWidth(s[0]) == 2 ==> OpeningAt(tags, p + 1) == [] && ClosingAt(tags, p + 1) == []
    ensures var q := p + CharWidth(s[0]);
      Units(Encode(s), tags, p) == Encode(OpenText(OpeningAt(tags, p)))
        + (EncodeChar(s[0]) + (Encode(CloseText(ClosingAt(tags, q))) + Units(Encode(s[1..]), tags, q)))
  {
    var head, tail := EncodeChar(s[0]), Encode(s[1..]);
    if |head| == 1 {
      UnitsFirst(head[0], tail, tags, p);
      assert head == [head[0]];
      Rebracket(Encode(OpenText(OpeningAt(tags, p))), head, Encode(CloseText(ClosingAt(tags, p + 1))),
                Units(tail, tags, p + 1));
    } else {
      PairIsTwo(head, tail);
      UnitsFirst(head[0], [head[1]] + tail, tags, p);
      UnitsFirst(head[1], tail, tags, p + 1);
      UnitsOfPair(head[0], head[1], tags, p);
      Interleave(Encode(OpenText(OpeningAt(tags, p))), head[0], head[1],
                 Encode(CloseText(ClosingAt(tags, p + 2))), Units(tail, tags, p + 2));
    }
  }

  lemma UnitsFirst(u: Unit, rest: seq<Unit>, tags: seq<Tag>, p: int)
    ensures Units([u] + rest, tags, p) == UnitsAt(u, tags, p) + Units(rest, tags, p + 1)
  {
    assert ([u] + rest)[1..] == rest;
  }

  lemma PairIsTwo(head: seq<Unit>, tail: seq<Unit>)
    requires |head| == 2
    ensures head + tail == [head[0]] + ([head[1]] + tail) && head == [head[0]] + [head[1]]
  {
  }

  /** Nothing is written between the two units of a pair. */
  lemma UnitsOfPair(u: Unit, v: Unit, tags: seq<Tag>, p: int)
    requires OpeningAt(tags, p + 1) == [] && ClosingAt(tags, p + 1) == []
    ensures UnitsAt(u, tags, p) == Encode(OpenText(OpeningAt(tags, p))) + [u]
    ensures UnitsAt(v, tags, p + 1) == [v] + Encode(CloseText(ClosingAt(tags, p + 2)))
  {
  }

  lemma Rebracket<T>(a: seq<T>, b: seq<T>, c: seq<T>, d: seq<T>)
    ensures a + b + c + d == a + (b + (c + d))
  {
  }

  lemma Interleave<T>(a: seq<T>, x: T, y: T, b: seq<T>, c: seq<T>)
    ensures a + [x] + ([y] + b + c) == a + ([x] + [y] + (b + c))
  {
  }
}
