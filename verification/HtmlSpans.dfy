/** What parseHTMLToTags (telegram/formatting.go) computes, without its stack: closing tags are matched to
    opening ones as brackets of one kind, and a tag spans what was written between the two. */
module HtmlSpans {
  import opened Utf16
  import opened HtmlTokenizer
  import opened HtmlParser

  predicate Opens(t: Token, name: string) {
    t.isTag && !t.isClosing && t.name == name && Supported(name)
  }

  predicate Closes(t: Token, name: string) {
    t.isTag && t.isClosing && t.name == name
  }

  /** How many tags of that name are open after the tokens; a closing one without an opening one is none. */
  ghost function OpenCount(tokens: seq<Token>, name: string): nat {
    if tokens == [] then 0
    else
      var before, last := OpenCount(tokens[..|tokens| - 1], name), tokens[|tokens| - 1];
      if Opens(last, name) then before + 1 else if Closes(last, name) && before > 0 then before - 1 else before
  }

  /** The text of the tokens: unescaped text, and tags that are not supported or close nothing, as they stand. */
  ghost function Text(tokens: seq<Token>, unescape: string -> string): string {
    if tokens == [] then ""
    else
      var front, last := tokens[..|tokens| - 1], tokens[|tokens| - 1];
      Text(front, unescape) +
        (if !last.isTag then unescape(last.text)
         else if Opens(last, last.name) || (last.isClosing && OpenCount(front, last.name) > 0) then ""
         else last.text)
  }

  /** Where in the text the n-th token begins, in UTF-16 units. */
  ghost function Position(tokens: seq<Token>, n: nat, unescape: string -> string): nat
    requires n <= |tokens|
  {
    Width(Text(tokens[..n], unescape))
  }

  /** The first token from the j-th on that closes a tag of that name when `depth` more have been opened
      since; |tokens| if there is none. */
  ghost function Closing(tokens: seq<Token>, j: nat, name: string, depth: nat): (c: nat)
    requires j <= |tokens|
    ensures j <= c <= |tokens| && (c < |tokens| ==> Closes(tokens[c], name))
    decreases |tokens| - j
  {
    if j == |tokens| then j
    else if Opens(tokens[j], name) then Closing(tokens, j + 1, name, depth + 1)
    else if Closes(tokens[j], name) then (if depth == 0 then j else Closing(tokens, j + 1, name, depth - 1))
    else Closing(tokens, j + 1, name, depth)
  }

  /** The indices of the supported opening tags, in order. */
  ghost function Starts(tokens: seq<Token>): (r: seq<nat>)
    ensures forall k | 0 <= k < |r| :: r[k] < |tokens| && Opens(tokens[r[k]], tokens[r[k]].name)
  {
    if tokens == [] then []
    else
      var last := |tokens| - 1;
      Starts(tokens[..last]) + (if Opens(tokens[last], tokens[last].name) then [last] else [])
  }

  /** The tag opened by the i-th token: from there to the token that closes it, or to the end. */
  ghost function SpanFrom(tokens: seq<Token>, i: nat, unescape: string -> string): Tag
    requires i < |tokens|
  {
    var name := tokens[i].name;
    var start := Position(tokens, i, unescape);
    Tag(name, start, Position(tokens, Closing(tokens, i + 1, name, 0), unescape) - start)
  }

  ghost function Spans(tokens: seq<Token>, unescape: string -> string): seq<Tag> {
    var starts := Starts(tokens);
    seq(|starts|, k requires 0 <= k < |starts| => SpanFrom(tokens, starts[k], unescape))
  }

  // ---------- the parser's stack agrees ----------

  ghost function CountOf(open: seq<OpenTag>, name: string): nat {
    if open == [] then 0 else (if open[0].ty == name then 1 else 0) + CountOf(open[1..], name)
  }

  lemma {:induction false} CountSplits(a: seq<OpenTag>, b: seq<OpenTag>, name: string)
    ensures CountOf(a + b, name) == CountOf(a, name) + CountOf(b, name)
  {
    if a == [] {
      assert a + b == b;
    } else {
      CountSplits(a[1..], b, name);
      assert (a + b)[1..] == a[1..] + b;
    }
  }

  lemma {:induction false} NoneCounted(open: seq<OpenTag>, name: string)
    requires forall j | 0 <= j < |open| :: open[j].ty != name
    ensures CountOf(open, name) == 0
  {
    if open != [] { NoneCounted(open[1..], name); }
  }

  /** Taking out the innermost tag of a name leaves one less of that name, and as many of the others. */
  lemma CountWithout(open: seq<OpenTag>, q: nat, name: string)
    requires q < |open|
    ensures CountOf(open[..q] + open[q + 1..], name) == CountOf(open, name) - (if open[q].ty == name then 1 else 0)
  {
    assert open == open[..q] + ([open[q]] + open[q + 1..]);
    CountSplits(open[..q], [open[q]] + open[q + 1..], name);
    CountSplits([open[q]], open[q + 1..], name);
    CountSplits(open[..q], open[q + 1..], name);
  }

  lemma InnermostIsCounted(open: seq<OpenTag>, name: string)
    ensures Innermost(open, name) >= 0 <==> CountOf(open, name) > 0
    ensures Innermost(open, name) >= 0 ==> CountOf(open[Innermost(open, name) + 1..], name) == 0
  {
    var q := Innermost(open, name);
    if q >= 0 {
      CountWithout(open, q, name);
      NoneCounted(open[q + 1..], name);
    } else {
      NoneCounted(open, name);
    }
  }

  /** After n tokens: an open tag will be closed by the token that closes as many as are stacked on it. */
  ghost predicate OpenInv(tokens: seq<Token>, n: nat, open: seq<OpenTag>, starts: seq<nat>, j: nat)
    requires n <= |tokens| && j < |open| && (forall k | 0 <= k < |starts| :: starts[k] < n)
  {
    var o := open[j];
    o.index < |starts|
    && Closing(tokens, starts[o.index] + 1, o.ty, 0) == Closing(tokens, n, o.ty, CountOf(open[j + 1..], o.ty))
  }

  ghost predicate AllOpen(tokens: seq<Token>, n: nat, open: seq<OpenTag>, starts: seq<nat>)
    requires n <= |tokens|
  {
    && (forall k | 0 <= k < |starts| :: starts[k] < n)
    && forall j {:trigger OpenInv(tokens, n, open, starts, j)} | 0 <= j < |open| :: OpenInv(tokens, n, open, starts, j)
  }

  /** After n tokens: the k-th tag starts where its opening token stands, and if it has been closed, it ends
      where the closing one stands. */
  ghost predicate SpanInv(tokens: seq<Token>, n: nat, p: Parse, i: nat, k: nat, unescape: string -> string)
    requires i < n <= |tokens| && k < |p.tags|
  {
    var t := p.tags[k];
    && t.ty == tokens[i].name && t.offset == Position(tokens, i, unescape)
    && (!IsOpen(p, k) ==> Closing(tokens, i + 1, t.ty, 0) < n && t == SpanFrom(tokens, i, unescape))
  }

  ghost predicate StackInv(tokens: seq<Token>, n: nat, p: Parse, unescape: string -> string)
    requires n <= |tokens|
  {
    && TextAgrees(tokens, n, p, unescape) && CountsAgree(tokens, n, p)
    && AllOpen(tokens, n, p.open, Starts(tokens[..n])) && SpansAgree(tokens, n, p, Starts(tokens[..n]), unescape)
  }

  ghost predicate TextAgrees(tokens: seq<Token>, n: nat, p: Parse, unescape: string -> string)
    requires n <= |tokens|
  {
    ParseInv(p) && p.text == Text(tokens[..n], unescape)
  }

  ghost predicate CountsAgree(tokens: seq<Token>, n: nat, p: Parse)
    requires n <= |tokens|
  {
    forall name :: CountOf(p.open, name) == OpenCount(tokens[..n], name)
  }

  ghost predicate SpansAgree(tokens: seq<Token>, n: nat, p: Parse, starts: seq<nat>, unescape: string -> string)
    requires n <= |tokens|
  {
    && |p.tags| == |starts| && (forall k | 0 <= k < |starts| :: starts[k] < n)
    && forall k {:trigger SpanInv(tokens, n, p, starts[k], k, unescape)} | 0 <= k < |p.tags| ::
         SpanInv(tokens, n, p, starts[k], k, unescape)
  }

  lemma PrefixGrows(tokens: seq<Token>, n: nat, unescape: string -> string)
    requires n < |tokens|
    ensures var front, t := tokens[..n], tokens[n];
      && Text(tokens[..n + 1], unescape) == Text(front, unescape) +
          (if !t.isTag then unescape(t.text)
           else if Opens(t, t.name) || (t.isClosing && OpenCount(front, t.name) > 0) then "" else t.text)
      && Starts(tokens[..n + 1]) == Starts(front) + (if Opens(t, t.name) then [n] else [])
  {
    assert tokens[..n + 1][..n] == tokens[..n];
  }

  lemma CountGrows(tokens: seq<Token>, n: nat, name: string)
    requires n < |tokens|
    ensures var before, t := OpenCount(tokens[..n], name), tokens[n];
      OpenCount(tokens[..n + 1], name)
        == if Opens(t, name) then before + 1 else if Closes(t, name) && before > 0 then before - 1 else before
  {
    assert tokens[..n + 1][..n] == tokens[..n];
  }

  lemma StepKeepsCounts(tokens: seq<Token>, n: nat, p: Parse, unescape: string -> string, name: string)
    requires n < |tokens| && StackInv(tokens, n, p, unescape)
    ensures CountOf(Step(p, tokens[n], unescape).open, name) == OpenCount(tokens[..n + 1], name)
  {
    var t := tokens[n];
    CountGrows(tokens, n, name);
    InnermostIsCounted(p.open, t.name);
    if t.isTag && !t.isClosing && Supported(t.name) {
      CountSplits(p.open, [OpenTag(t.name, p.offset, |p.tags|)], name);
    } else if t.isTag && t.isClosing && Innermost(p.open, t.name) >= 0 {
      CountWithout(p.open, Innermost(p.open, t.name), name);
    }
  }

  lemma PushKeepsOpen(tokens: seq<Token>, n: nat, open: seq<OpenTag>, o: OpenTag, starts: seq<nat>, j: nat)
    requires n < |tokens| && j < |open| && (forall k | 0 <= k < |starts| :: starts[k] < n)
    requires OpenInv(tokens, n, open, starts, j) && Opens(tokens[n], o.ty)
    ensures OpenInv(tokens, n + 1, open + [o], starts + [n], j)
  {
    assert (open + [o])[j + 1..] == open[j + 1..] + [o];
    CountSplits(open[j + 1..], [o], open[j].ty);
  }

  lemma PopKeepsOpen(tokens: seq<Token>, n: nat, open: seq<OpenTag>, i: nat, starts: seq<nat>, j: nat)
    requires n < |tokens| && i < |open| && j < |open| - 1 && (forall k | 0 <= k < |starts| :: starts[k] < n)
    requires OpenInv(tokens, n, open, starts, if j < i then j else j + 1)
    requires Closes(tokens[n], open[i].ty) && forall m | i < m < |open| :: open[m].ty != open[i].ty
    ensures OpenInv(tokens, n + 1, open[..i] + open[i + 1..], starts, j)
  {
    var rest := open[..i] + open[i + 1..];
    if j < i {
      CountWithout(open[j + 1..], i - j - 1, open[j].ty);
      AboveTakenOut(open, i, j);
    } else {
      BelowTakenOut(open, i, j);
    }
  }

  lemma AboveTakenOut(open: seq<OpenTag>, i: nat, j: nat)
    requires j < i < |open|
    ensures (open[..i] + open[i + 1..])[j + 1..] == open[j + 1..][..i - j - 1] + open[j + 1..][i - j..]
    ensures (open[..i] + open[i + 1..])[j] == open[j] && open[j + 1..][i - j - 1] == open[i]
  {
  }

  lemma BelowTakenOut(open: seq<OpenTag>, i: nat, j: nat)
    requires i <= j < |open| - 1
    ensures (open[..i] + open[i + 1..])[j + 1..] == open[j + 2..]
    ensures (open[..i] + open[i + 1..])[j] == open[j + 1]
  {
  }

  lemma PushKeepsAll(tokens: seq<Token>, n: nat, open: seq<OpenTag>, o: OpenTag, starts: seq<nat>)
    requires n < |tokens| && AllOpen(tokens, n, open, starts) && Opens(tokens[n], o.ty) && o.index == |starts|
    ensures AllOpen(tokens, n + 1, open + [o], starts + [n])
  {
    var m, open', starts' := n + 1, open + [o], starts + [n];
    forall j | 0 <= j < |open'| ensures OpenInv(tokens, m, open', starts', j) {
      if j < |open| {
        assert OpenInv(tokens, n, open, starts, j);
        PushKeepsOpen(tokens, n, open, o, starts, j);
      } else {
        assert open'[j + 1..] == [];
      }
    }
  }

  lemma PopKeepsAll(tokens: seq<Token>, n: nat, open: seq<OpenTag>, i: nat, starts: seq<nat>)
    requires n < |tokens| && AllOpen(tokens, n, open, starts) && i < |open| && Closes(tokens[n], open[i].ty)
    requires forall m | i < m < |open| :: open[m].ty != open[i].ty
    ensures AllOpen(tokens, n + 1, open[..i] + open[i + 1..], starts)
  {
    var m, rest := n + 1, open[..i] + open[i + 1..];
    forall j | 0 <= j < |rest| ensures OpenInv(tokens, m, rest, starts, j) {
      assert OpenInv(tokens, n, open, starts, if j < i then j else j + 1);
      PopKeepsOpen(tokens, n, open, i, starts, j);
    }
  }

  lemma IdleKeepsAll(tokens: seq<Token>, n: nat, open: seq<OpenTag>, starts: seq<nat>)
    requires n < |tokens| && AllOpen(tokens, n, open, starts)
    requires forall j | 0 <= j < |open| :: !Opens(tokens[n], open[j].ty) && !Closes(tokens[n], open[j].ty)
    ensures AllOpen(tokens, n + 1, open, starts)
  {
    var m := n + 1;
    forall j | 0 <= j < |open| ensures OpenInv(tokens, m, open, starts, j) {
      assert OpenInv(tokens, n, open, starts, j);
    }
  }

  lemma StepKeepsOpen(tokens: seq<Token>, n: nat, p: Parse, unescape: string -> string)
    requires n < |tokens| && AllOpen(tokens, n, p.open, Starts(tokens[..n])) && |p.tags| == |Starts(tokens[..n])|
    ensures AllOpen(tokens, n + 1, Step(p, tokens[n], unescape).open, Starts(tokens[..n + 1]))
  {
    var t, q, starts := tokens[n], Step(p, tokens[n], unescape), Starts(tokens[..n]);
    var i := Innermost(p.open, t.name);
    PrefixGrows(tokens, n, unescape);
    if Opens(t, t.name) {
      PushKeepsAll(tokens, n, p.open, OpenTag(t.name, p.offset, |p.tags|), starts);
    } else if t.isTag && t.isClosing && i >= 0 {
      PopKeepsAll(tokens, n, p.open, i, starts);
      assert Starts(tokens[..n + 1]) == starts;
    } else {
      IdleKeepsAll(tokens, n, p.open, starts);
      assert Starts(tokens[..n + 1]) == starts && q.open == p.open;
    }
  }

  lemma StepKeepsSpan(tokens: seq<Token>, n: nat, p: Parse, unescape: string -> string, k: nat)
    requires n < |tokens| && StackInv(tokens, n, p, unescape)
    requires k < |Step(p, tokens[n], unescape).tags| == |Starts(tokens[..n + 1])|
    ensures SpanInv(tokens, n + 1, Step(p, tokens[n], unescape), Starts(tokens[..n + 1])[k], k, unescape)
  {
    var t, q, starts := tokens[n], Step(p, tokens[n], unescape), Starts(tokens[..n]);
    PrefixGrows(tokens, n, unescape);
    if k < |p.tags| {
      assert SpanInv(tokens, n, p, starts[k], k, unescape);
      if IsOpen(p, k) && !IsOpen(q, k) {
        var j := ClosedIsInnermost(p, t, unescape, k);
        ClosedHere(tokens, n, p.open, starts, j);
      }
      SpanStays(tokens, n, p, starts[k], k, unescape);
    } else {
      assert q.open[|p.open|].index == k;
    }
  }

  lemma SpanStays(tokens: seq<Token>, n: nat, p: Parse, i: nat, k: nat, unescape: string -> string)
    requires i < n < |tokens| && k < |p.tags| && TextAgrees(tokens, n, p, unescape)
    requires SpanInv(tokens, n, p, i, k, unescape)
    requires IsOpen(p, k) && !IsOpen(Step(p, tokens[n], unescape), k) ==>
      Closing(tokens, i + 1, p.tags[k].ty, 0) == n
    ensures k < |Step(p, tokens[n], unescape).tags|
    ensures SpanInv(tokens, n + 1, Step(p, tokens[n], unescape), i, k, unescape)
  {
    StepSetsSpans(p, tokens[n], unescape, k);
  }

  /** The tag that token n closes is the one whose closing token is n. */
  lemma ClosedHere(tokens: seq<Token>, n: nat, open: seq<OpenTag>, starts: seq<nat>, j: nat)
    requires n < |tokens| && AllOpen(tokens, n, open, starts) && j < |open| && Closes(tokens[n], open[j].ty)
    requires forall m | j < m < |open| :: open[m].ty != open[j].ty
    ensures open[j].index < |starts| && Closing(tokens, starts[open[j].index] + 1, open[j].ty, 0) == n
  {
    assert OpenInv(tokens, n, open, starts, j);
    InnermostCloses(tokens, n, open, starts, j);
  }

  lemma InnermostCloses(tokens: seq<Token>, n: nat, open: seq<OpenTag>, starts: seq<nat>, j: nat)
    requires n < |tokens| && j < |open| && (forall k | 0 <= k < |starts| :: starts[k] < n)
    requires OpenInv(tokens, n, open, starts, j) && Closes(tokens[n], open[j].ty)
    requires forall m | j < m < |open| :: open[m].ty != open[j].ty
    ensures Closing(tokens, starts[open[j].index] + 1, open[j].ty, 0) == n
  {
    NoneCounted(open[j + 1..], open[j].ty);
  }

  lemma ClosedIsInnermost(p: Parse, t: Token, unescape: string -> string, k: nat) returns (j: nat)
    requires ParseInv(p) && k < |p.tags| && IsOpen(p, k) && !IsOpen(Step(p, t, unescape), k)
    ensures j < |p.open| && Closes(t, p.open[j].ty) && p.open[j].index == k && p.open[j].ty == p.tags[k].ty
    ensures forall m | j < m < |p.open| :: p.open[m].ty != p.open[j].ty
  {
    StepSetsSpans(p, t, unescape, k);
    var i := Innermost(p.open, t.name);
    j :| 0 <= j < |p.open| && p.open[j].index == k;
    if i != j { StaysOpen(p, t, unescape, i, j); }
  }

  lemma StaysOpen(p: Parse, t: Token, unescape: string -> string, i: int, j: nat)
    requires t.isTag && t.isClosing && i == Innermost(p.open, t.name) && j < |p.open| && i != j
    ensures IsOpen(Step(p, t, unescape), p.open[j].index)
  {
    var q := Step(p, t, unescape);
    assert q.open[if 0 <= i < j then j - 1 else j] == p.open[j];
  }

  lemma StepKeepsText(tokens: seq<Token>, n: nat, p: Parse, unescape: string -> string)
    requires n < |tokens| && TextAgrees(tokens, n, p, unescape) && CountsAgree(tokens, n, p)
    ensures TextAgrees(tokens, n + 1, Step(p, tokens[n], unescape), unescape)
  {
    StepKeepsInv(p, tokens[n], unescape);
    PrefixGrows(tokens, n, unescape);
    InnermostIsCounted(p.open, tokens[n].name);
  }

  lemma StepKeepsSpans(tokens: seq<Token>, n: nat, p: Parse, unescape: string -> string)
    requires n < |tokens| && StackInv(tokens, n, p, unescape)
    ensures SpansAgree(tokens, n + 1, Step(p, tokens[n], unescape), Starts(tokens[..n + 1]), unescape)
  {
    var m, q := n + 1, Step(p, tokens[n], unescape);
    var starts := Starts(tokens[..m]);
    PrefixGrows(tokens, n, unescape);
    forall k | 0 <= k < |q.tags| ensures SpanInv(tokens, m, q, starts[k], k, unescape) {
      StepKeepsSpan(tokens, n, p, unescape, k);
    }
  }

  lemma StepKeepsStack(tokens: seq<Token>, n: nat, p: Parse, unescape: string -> string)
    requires n < |tokens| && StackInv(tokens, n, p, unescape)
    ensures StackInv(tokens, n + 1, Step(p, tokens[n], unescape), unescape)
  {
    var q := Step(p, tokens[n], unescape);
    StepKeepsText(tokens, n, p, unescape);
    StepKeepsOpen(tokens, n, p, unescape);
    StepKeepsSpans(tokens, n, p, unescape);
    forall name ensures CountOf(q.open, name) == OpenCount(tokens[..n + 1], name) {
      StepKeepsCounts(tokens, n, p, unescape, name);
    }
  }

  /** After any number of tokens the stack agrees with the brackets. */
  lemma {:induction false} StackAgrees(tokens: seq<Token>, n: nat, unescape: string -> string)
    requires n <= |tokens|
    ensures StackInv(tokens, n, Steps(BEGIN, tokens[..n], unescape), unescape)
  {
    if n > 0 {
      StackAgrees(tokens, n - 1, unescape);
      StepsAppend(BEGIN, tokens[..n - 1], tokens[n - 1], unescape);
      assert tokens[..n] == tokens[..n - 1] + [tokens[n - 1]];
      StepKeepsStack(tokens, n - 1, Steps(BEGIN, tokens[..n - 1], unescape), unescape);
    }
  }

  lemma {:induction false} StepsAppend(p: Parse, tokens: seq<Token>, t: Token, unescape: string -> string)
    ensures Steps(p, tokens + [t], unescape) == Step(Steps(p, tokens, unescape), t, unescape)
    decreases |tokens|
  {
    if tokens == [] {
      assert tokens + [t] == [t] && [t][1..] == [];
    } else {
      StepsAppend(Step(p, tokens[0], unescape), tokens[1..], t, unescape);
      assert (tokens + [t])[1..] == tokens[1..] + [t];
    }
  }

  // ---------- the end of the source ----------

  ghost predicate HasIndex(open: seq<OpenTag>, k: nat) {
    exists j :: 0 <= j < |open| && open[j].index == k
  }

  /** The tags left open, and no others, are given the length up to the end. */
  lemma {:induction false} ClosedAllAt(tags: seq<Tag>, open: seq<OpenTag>, end: int, k: nat)
    requires k < |tags|
    requires forall j | 0 <= j < |open| && open[j].index == k :: open[j].offset == tags[k].offset
    ensures |ClosedAll(tags, open, end)| == |tags|
    ensures ClosedAll(tags, open, end)[k]
      == if HasIndex(open, k) then tags[k].(length := end - tags[k].offset) else tags[k]
    decreases |open|
  {
    if open != [] {
      ClosedAllAt(SetLength(tags, open[0], end), open[1..], end, k);
      if j :| 0 <= j < |open| && open[j].index == k {
        assert j == 0 || open[1..][j - 1].index == k;
      }
    }
  }

  lemma {:induction false} ClosedAllLength(tags: seq<Tag>, open: seq<OpenTag>, end: int)
    ensures |ClosedAll(tags, open, end)| == |tags|
    decreases |open|
  {
    if open != [] { ClosedAllLength(SetLength(tags, open[0], end), open[1..], end); }
  }

  /** The raw tags are the spans of the brackets, all of them, in the order of their opening tokens. */
  lemma RawTagsAreSpans(tokens: seq<Token>, unescape: string -> string)
    ensures var p := Steps(BEGIN, tokens, unescape);
      && p.text == Text(tokens, unescape) && RawTags(p) == Spans(tokens, unescape)
      && forall k | 0 <= k < |RawTags(p)| :: 0 <= RawTags(p)[k].offset && 0 <= RawTags(p)[k].length
  {
    var p := Steps(BEGIN, tokens, unescape);
    assert tokens[..|tokens|] == tokens;
    StackAgrees(tokens, |tokens|, unescape);
    ClosedAllLength(p.tags, p.open, p.offset);
    forall k | 0 <= k < |p.tags|
      ensures RawTags(p)[k] == SpanFrom(tokens, Starts(tokens)[k], unescape)
      ensures 0 <= RawTags(p)[k].offset && 0 <= RawTags(p)[k].length
    {
      RawTagIsSpan(tokens, p, unescape, k);
    }
  }

  lemma RawTagIsSpan(tokens: seq<Token>, p: Parse, unescape: string -> string, k: nat)
    requires tokens[..|tokens|] == tokens && StackInv(tokens, |tokens|, p, unescape) && k < |p.tags| == |RawTags(p)|
    ensures RawTags(p)[k] == SpanFrom(tokens, Starts(tokens)[k], unescape)
    ensures 0 <= RawTags(p)[k].offset && 0 <= RawTags(p)[k].length
  {
    ClosedAllAt(p.tags, p.open, p.offset, k);
    LastSpan(tokens, p, Starts(tokens), unescape, k);
  }

  lemma LastSpan(tokens: seq<Token>, p: Parse, starts: seq<nat>, unescape: string -> string, k: nat)
    requires k < |p.tags| == |starts| && AllOpen(tokens, |tokens|, p.open, starts) && ParseInv(p)
    requires SpanInv(tokens, |tokens|, p, starts[k], k, unescape) && p.offset == Position(tokens, |tokens|, unescape)
    ensures SpanFrom(tokens, starts[k], unescape)
      == if HasIndex(p.open, k) then p.tags[k].(length := p.offset - p.tags[k].offset) else p.tags[k]
  {
    if j :| 0 <= j < |p.open| && p.open[j].index == k {
      assert OpenInv(tokens, |tokens|, p.open, starts, j);
      assert Closing(tokens, starts[k] + 1, p.tags[k].ty, 0) == |tokens|;
    }
  }

  // ---------- what survives trimming ----------

  /** `kept` are the spans with the given indices, cut to the part that survives. */
  ghost predicate IsCutTo(kept: Tag, span: Tag, lead: int, width: int) {
    && kept.ty == span.ty && 0 <= kept.offset && 0 < kept.length && kept.offset + kept.length <= width
    && forall u :: kept.offset <= u < kept.offset + kept.length <==> InSurvivingPart(span, lead, width, u)
  }

  ghost predicate Survives(span: Tag, lead: int, width: int) {
    exists u :: InSurvivingPart(span, lead, width, u)
  }

  /** The tags kept are, in order and each once, the spans that survive, cut to their surviving parts. */
  ghost predicate AreSurvivors(indices: seq<nat>, kept: seq<Tag>, spans: seq<Tag>, lead: int, width: int) {
    && |indices| == |kept|
    && (forall i, j | 0 <= i < j < |indices| :: indices[i] < indices[j])
    && (forall i | 0 <= i < |indices| :: indices[i] < |spans| && IsCutTo(kept[i], spans[indices[i]], lead, width))
    && (forall k | 0 <= k < |spans| :: Survives(spans[k], lead, width) <==> k in indices)
  }

  lemma {:induction false} TrimTagsSelects(tags: seq<Tag>, lead: int, width: int) returns (indices: seq<nat>)
    requires 0 <= lead && 0 <= width
    requires forall k | 0 <= k < |tags| :: 0 <= tags[k].offset && 0 <= tags[k].length
    ensures AreSurvivors(indices, TrimTags(tags, lead, width), tags, lead, width)
  {
    indices := [];
    if tags != [] {
      var last := |tags| - 1;
      var t := tags[last];
      var before := TrimTagsSelects(tags[..last], lead, width);
      TrimTagsAppend(tags[..last], t, lead, width);
      OneMoreSelected(before, TrimTags(tags[..last], lead, width), tags[..last], t, lead, width);
      assert tags == tags[..last] + [t];
      indices := before + (if Surviving(t, lead, width) != [] then [last] else []);
    }
  }

  lemma OneMoreSelected(indices: seq<nat>, kept: seq<Tag>, spans: seq<Tag>, t: Tag, lead: int, width: int)
    requires 0 <= lead && 0 <= width && 0 <= t.offset && 0 <= t.length
    requires AreSurvivors(indices, kept, spans, lead, width)
    ensures AreSurvivors(indices + (if Surviving(t, lead, width) != [] then [|spans|] else []),
                         kept + Surviving(t, lead, width), spans + [t], lead, width)
  {
    KeptSpanIsSurvivingPart(t, lead, width);
    var more := Surviving(t, lead, width);
    var indices' := indices + (if more != [] then [|spans|] else []);
    var spans' := spans + [t];
    forall k | 0 <= k < |spans'| ensures Survives(spans'[k], lead, width) <==> k in indices' {
      if k < |spans| {
        assert Survives(spans[k], lead, width) <==> k in indices;
      } else {
        assert k !in indices;
      }
    }
    forall i | 0 <= i < |indices'| ensures IsCutTo((kept + more)[i], spans'[indices'[i]], lead, width) {
      if i < |indices| { assert IsCutTo(kept[i], spans[indices[i]], lead, width); }
    }
  }

  lemma {:induction false} TrimTagsAppend(tags: seq<Tag>, t: Tag, lead: int, width: int)
    ensures TrimTags(tags + [t], lead, width) == TrimTags(tags, lead, width) + Surviving(t, lead, width)
  {
    if tags == [] {
      assert tags + [t] == [t] && [t][1..] == [];
    } else {
      TrimTagsAppend(tags[1..], t, lead, width);
      assert (tags + [t])[1..] == tags[1..] + [t];
    }
  }

  /** `result` is what the tokens ask for: their text from `start` to `end`, and the tags that survive the cut. */
  ghost predicate IsParseOf(
      result: (string, seq<Tag>), tokens: seq<Token>, unescape: string -> string,
      start: nat, end: nat, indices: seq<nat>)
  {
    var text := Text(tokens, unescape);
    && start <= end <= |text| && result.0 == text[start..end]
    && AllSpace(text[..start]) && AllSpace(text[end..]) && NoOuterSpace(result.0)
    && AreSurvivors(indices, result.1, Spans(tokens, unescape), Width(text[..start]), Width(result.0))
  }

  /** Main result, for any source: the cleaned text is the text of the tokens less its outer white space, and
      the returned tags are, in order and each once, the spans from opening to closing token, or to the end,
      cut to the part that survives; those of which nothing survives are dropped. */
  lemma TagsAreWhatSurvives(source: string, make: TokenMaker, unescape: string -> string)
    returns (start: nat, end: nat, indices: seq<nat>)
    ensures IsParseOf(Parsed(source, make, unescape), Tokenize(source, make), unescape, start, end, indices)
  {
    var tokens := Tokenize(source, make);
    var p := Steps(BEGIN, tokens, unescape);
    RawTagsAreSpans(tokens, unescape);
    start, end, indices := FinishSelects(p);
    assert Parsed(source, make, unescape) == Finish(p);
  }

  lemma FinishSelects(p: Parse) returns (start: nat, end: nat, indices: seq<nat>)
    requires forall k | 0 <= k < |RawTags(p)| :: 0 <= RawTags(p)[k].offset && 0 <= RawTags(p)[k].length
    ensures start <= end <= |p.text| && Finish(p).0 == p.text[start..end]
    ensures AllSpace(p.text[..start]) && AllSpace(p.text[end..]) && NoOuterSpace(Finish(p).0)
    ensures AreSurvivors(indices, Finish(p).1, RawTags(p), Width(p.text[..start]), Width(Finish(p).0))
  {
    start, end := CleanedIsInside(p.text);
    indices := TrimTagsSelects(RawTags(p), Width(p.text[..start]), Width(TrimSpace(p.text)));
  }
}
