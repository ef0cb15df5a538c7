/** The request/response table (network.go, mtproto.go).

    Every caller of makeRequest, the read loop and the connection-change notifier share one table from
    message id to response channel.  A state below is the table together with everything in flight; an
    event is one atomic step of one party, so a sequence of events is one interleaving. */
module PendingRequests {

  datatype Message = Reply(value: int) | ConfigChanged

  /** A response channel of capacity one: the id and the call it was made for, every message ever put in
      it, tagged with the id it answers, and how many of them its reader has taken. */
  datatype Channel = Channel(id: int, call: nat, sent: seq<(int, Message)>, taken: nat)

  /** A table entry taken out by the read loop or the notifier, which has yet to send its message. */
  datatype Held = Held(ch: nat, msg: Message)

  datatype Answer = Received(id: int, msg: Message) | Abandoned | OutOfAttempts

  /** A makeRequest call: at the top of its attempt loop, writing its packet, waiting, or returned. */
  datatype Call =
    | Ready(attempts: nat)
    | Writing(attempts: nat, id: int, ch: nat)
    | Waiting(attempts: nat, id: int, ch: nat)
    | Finished(answer: Answer)

  datatype State = State(
    table: map<int, nat>,        // responseChannels
    expected: set<int>,          // the keys of expectedTypes
    held: map<int, Held>,        // entries popped and not yet sent to, by message id
    chans: seq<Channel>,
    calls: map<nat, Call>,
    drawn: map<int, nat>)        // every message id ever drawn, with the channel made beside it

  const START := State(map[], {}, map[], [], map[], map[])

  datatype Event =
    | Begin(call: nat, attempts: nat)
    | Send(call: nat, id: int)
    | WriteFailed(call: nat, again: bool)
    | Written(call: nat)
    | Respond(id: int, msg: Message)
    | ConnectionChange
    | ForgetTypes
    | Deliver(id: int)
    | Receive(call: nat, again: bool)
    | Abandon(call: nat)
    | GiveUp(call: nat)

  predicate IsReady(s: State, call: nat) { call in s.calls && s.calls[call].Ready? }

  predicate IsWriting(s: State, call: nat) { call in s.calls && s.calls[call].Writing? }

  predicate IsWaiting(s: State, call: nat) { call in s.calls && s.calls[call].Waiting? }

  predicate HasMessage(s: State, ch: nat) { ch < |s.chans| && s.chans[ch].taken < |s.chans[ch].sent| }

  /** makeRequest's cleanup: drop the pending id from both tables. */
  function Cleanup(s: State, id: int): State {
    s.(table := s.table - {id}, expected := s.expected - {id})
  }

  function SetCall(s: State, call: nat, c: Call): State {
    s.(calls := s.calls[call := c])
  }

  function Next(attempts: nat, again: bool, answer: Answer): Call {
    if again && attempts > 0 then Ready(attempts - 1) else Finished(answer)
  }

  /** Two parties never hold the same entry: the new ones are disjoint from those already out. */
  function Hold(s: State, items: map<int, Held>): State
    requires s.held.Keys !! items.Keys
  {
    s.(held := s.held + items)
  }

  /** The send with a default case: a full channel drops the message. */
  function Put(c: Channel, id: int, msg: Message): Channel {
    if |c.sent| <= c.taken then c.(sent := c.sent + [(id, msg)]) else c
  }

  function Apply(s: State, e: Event): State
    requires Inv(s)
  {
    match e
    case Begin(call, attempts) =>
      if call in s.calls then s else SetCall(s, call, Ready(attempts))
    case Send(call, id) =>  // the id generator never repeats an id
      if !IsReady(s, call) || s.calls[call].attempts == 0 || id in s.drawn then s else
        SetCall(s, call, Writing(s.calls[call].attempts, id, |s.chans|)).(
          table := s.table[id := |s.chans|], expected := s.expected + {id},
          chans := s.chans + [Channel(id, call, [], 0)], drawn := s.drawn[id := |s.chans|])
    case WriteFailed(call, again) =>
      if !IsWriting(s, call) then s else
        SetCall(Cleanup(s, s.calls[call].id), call, Next(s.calls[call].attempts, again, Abandoned))
    case Written(call) =>
      if !IsWriting(s, call) then s else
        SetCall(s, call, Waiting(s.calls[call].attempts, s.calls[call].id, s.calls[call].ch))
    case Respond(id, msg) =>
      if id !in s.table then s else
        Hold(s.(table := s.table - {id}), map[id := Held(s.table[id], msg)])
    case ConnectionChange =>
      Hold(s.(table := map[]), map id | id in s.table :: Held(s.table[id], ConfigChanged))
    case ForgetTypes =>
      s.(expected := {})
    case Deliver(id) =>
      if id !in s.held then s else
        var h := s.held[id];
        s.(expected := s.expected - {id}, held := s.held - {id},
           chans := s.chans[h.ch := Put(s.chans[h.ch], id, h.msg)])
    case Receive(call, again) =>
      if !IsWaiting(s, call) || !HasMessage(s, s.calls[call].ch) then s else
        var c := s.calls[call];
        var (id, msg) := s.chans[c.ch].sent[s.chans[c.ch].taken];
        SetCall(Cleanup(s, c.id), call, Next(c.attempts, again, Received(id, msg))).(
          chans := s.chans[c.ch := s.chans[c.ch].(taken := s.chans[c.ch].taken + 1)])
    case Abandon(call) =>
      if !IsWaiting(s, call) then s else
        SetCall(Cleanup(s, s.calls[call].id), call, Finished(Abandoned))
    case GiveUp(call) =>
      if IsReady(s, call) then SetCall(s, call, Finished(OutOfAttempts)) else s
  }

  // ---------- the invariant ----------

  /** The call that made channel `ch` is still writing its packet or waiting on it. */
  predicate Live(s: State, ch: nat)
    requires ch < |s.chans|
  {
    var call := s.chans[ch].call;
    (IsWriting(s, call) || IsWaiting(s, call)) && s.calls[call].ch == ch
  }

  /** Where the one message for channel `ch` is: still to come, with a party about to send it, or sent. */
  ghost predicate ChannelInv(s: State, ch: nat)
    requires ch < |s.chans|
  {
    var c := s.chans[ch];
    && c.id in s.drawn && s.drawn[c.id] == ch
    && c.taken <= |c.sent| <= 1
    && (c.sent != [] ==> c.sent[0].0 == c.id)
    && (c.id in s.table ==> s.table[c.id] == ch && c.id !in s.held && c.sent == [])
    && (c.id in s.held ==> s.held[c.id].ch == ch && c.sent == [])
    && (c.id in s.table || c.id in s.expected ==> Live(s, ch))
    && (Live(s, ch) ==> c.taken == 0 && (c.id in s.table || c.id in s.held || c.sent != []))
  }

  ghost predicate CallInv(s: State, call: nat)
    requires call in s.calls
  {
    var c := s.calls[call];
    && (c.Writing? || c.Waiting? ==> c.ch < |s.chans| && s.chans[c.ch].id == c.id && s.chans[c.ch].call == call)
    && (c.Finished? && c.answer.Received? ==> Answered(s, call, c.answer.id, c.answer.msg))
  }

  /** `msg` is the one message ever sent for `id`, an id this call drew itself. */
  ghost predicate Answered(s: State, call: nat, id: int, msg: Message) {
    && id in s.drawn && s.drawn[id] < |s.chans|
    && var c := s.chans[s.drawn[id]]; c.call == call && c.taken == 1 && c.sent == [(id, msg)]
  }

  ghost predicate DrawnInv(s: State, id: int)
    requires id in s.drawn
  {
    s.drawn[id] < |s.chans| && s.chans[s.drawn[id]].id == id
  }

  ghost predicate Inv(s: State) {
    && s.table.Keys <= s.drawn.Keys && s.held.Keys <= s.drawn.Keys && s.expected <= s.drawn.Keys
    && (forall id | id in s.drawn :: DrawnInv(s, id))
    && (forall ch | 0 <= ch < |s.chans| :: ChannelInv(s, ch))
    && (forall call | call in s.calls :: CallInv(s, call))
    && s.table.Keys !! s.held.Keys
    && (forall id | id in s.held :: s.held[id].ch < |s.chans|)
  }

  lemma ApplyKeepsInv(s: State, e: Event)
    requires Inv(s)
    ensures Inv(Apply(s, e))
  {
    var t := Apply(s, e);
    forall id | id in t.drawn ensures DrawnInv(t, id) {
      if id in s.drawn { assert DrawnInv(s, id); }
    }
    forall call | call in t.calls ensures CallInv(t, call) {
      ApplyKeepsCall(s, e, call);
    }
    forall ch | 0 <= ch < |t.chans| ensures ChannelInv(t, ch) {
      ApplyKeepsChannel(s, e, ch);
    }
    KeysApart(s, e);
  }

  lemma ApplyKeepsCall(s: State, e: Event, call: nat)
    requires Inv(s) && call in Apply(s, e).calls
    ensures CallInv(Apply(s, e), call)
  {
    if call in s.calls {
      assert CallInv(s, call);
      match e
      case Receive(other, again) => ReceiveKeepsCall(s, other, again, call);
      case Deliver(id) => DeliverKeepsCall(s, id, call);
      case Send(other, id) => SendKeepsCall(s, other, id, call);
      case _ => StepKeepsCall(s, e, call);
    }
  }

  lemma SendKeepsCall(s: State, other: nat, id: int, call: nat)
    requires Inv(s) && call in s.calls && CallInv(s, call)
    ensures CallInv(Apply(s, Send(other, id)), call)
  {
  }

  lemma StepKeepsCall(s: State, e: Event, call: nat)
    requires Inv(s) && call in s.calls && CallInv(s, call) && !e.Receive? && !e.Deliver? && !e.Send?
    ensures CallInv(Apply(s, e), call)
  {
  }

  lemma ReceiveKeepsCall(s: State, other: nat, again: bool, call: nat)
    requires Inv(s) && call in s.calls && CallInv(s, call)
    ensures CallInv(Apply(s, Receive(other, again)), call)
  {
    PendingChannel(s, other);
    if IsWaiting(s, other) { assert ChannelInv(s, s.calls[other].ch); }
  }

  lemma DeliverKeepsCall(s: State, id: int, call: nat)
    requires Inv(s) && call in s.calls && CallInv(s, call)
    ensures CallInv(Apply(s, Deliver(id)), call)
  {
    if id in s.held { assert DrawnInv(s, id) && ChannelInv(s, s.drawn[id]); }
  }

  lemma KeysApart(s: State, e: Event)
    requires Inv(s)
    ensures var t := Apply(s, e);
      && t.table.Keys !! t.held.Keys
      && t.table.Keys <= t.drawn.Keys && t.held.Keys <= t.drawn.Keys && t.expected <= t.drawn.Keys
      && (forall id | id in t.held :: t.held[id].ch < |t.chans|)
  {
    HeldChannelsExist(s, e);
  }

  lemma HeldChannelsExist(s: State, e: Event)
    requires Inv(s)
    ensures var t := Apply(s, e); forall id | id in t.held :: t.held[id].ch < |t.chans|
  {
    forall id | id in s.table ensures s.table[id] < |s.chans| {
      assert DrawnInv(s, id) && ChannelInv(s, s.drawn[id]);
    }
  }

  lemma PendingChannel(s: State, call: nat)
    requires Inv(s)
    ensures IsWriting(s, call) || IsWaiting(s, call) ==>
      var c := s.calls[call];
      && c.ch < |s.chans| && s.chans[c.ch].call == call && s.chans[c.ch].id == c.id
      && c.id in s.drawn && s.drawn[c.id] == c.ch
  {
    if IsWriting(s, call) || IsWaiting(s, call) {
      assert CallInv(s, call) && ChannelInv(s, s.calls[call].ch);
    }
  }

  lemma ApplyKeepsChannel(s: State, e: Event, ch: nat)
    requires Inv(s) && ch < |Apply(s, e).chans|
    ensures ChannelInv(Apply(s, e), ch)
  {
    if ch < |s.chans| {
      assert ChannelInv(s, ch);
      PendingChannel(s, s.chans[ch].call);
      match e
      case Deliver(id) => DeliverKeepsChannel(s, id, ch);
      case Receive(call, again) => ReceiveKeepsChannel(s, call, again, ch);
      case WriteFailed(call, again) => ReturnKeepsChannel(s, e, call, ch);
      case Abandon(call) => ReturnKeepsChannel(s, e, call, ch);
      case Send(call, id) => SendKeepsChannel(s, call, id, ch);
      case Respond(_, _) => PopKeepsChannel(s, e, ch);
      case ConnectionChange => PopKeepsChannel(s, e, ch);
      case _ => StepKeepsChannel(s, e, ch);
    }
  }

  lemma StepKeepsChannel(s: State, e: Event, ch: nat)
    requires Inv(s) && ch < |s.chans| && ChannelInv(s, ch)
    requires e.Begin? || e.Written? || e.ForgetTypes? || e.GiveUp?
    ensures ChannelInv(Apply(s, e), ch)
  {
    PendingChannel(s, s.chans[ch].call);
  }

  lemma PopKeepsChannel(s: State, e: Event, ch: nat)
    requires Inv(s) && ch < |s.chans| && ChannelInv(s, ch) && (e.Respond? || e.ConnectionChange?)
    ensures ChannelInv(Apply(s, e), ch)
  {
  }

  lemma SendKeepsChannel(s: State, call: nat, id: int, ch: nat)
    requires Inv(s) && ch < |s.chans| && ChannelInv(s, ch)
    ensures ChannelInv(Apply(s, Send(call, id)), ch)
  {
  }

  lemma ReturnKeepsChannel(s: State, e: Event, call: nat, ch: nat)
    requires Inv(s) && ch < |s.chans| && ChannelInv(s, ch)
    requires (e.WriteFailed? && e.call == call) || e == Abandon(call)
    ensures ChannelInv(Apply(s, e), ch)
  {
    PendingChannel(s, call);
    PendingChannel(s, s.chans[ch].call);
  }

  lemma DeliverKeepsChannel(s: State, id: int, ch: nat)
    requires Inv(s) && ch < |s.chans| && ChannelInv(s, ch)
    ensures ChannelInv(Apply(s, Deliver(id)), ch)
  {
    if id in s.held {
      assert DrawnInv(s, id) && ChannelInv(s, s.drawn[id]);
    }
  }

  lemma ReceiveKeepsChannel(s: State, call: nat, again: bool, ch: nat)
    requires Inv(s) && ch < |s.chans| && ChannelInv(s, ch)
    ensures ChannelInv(Apply(s, Receive(call, again)), ch)
  {
    PendingChannel(s, call);
    PendingChannel(s, s.chans[ch].call);
    if IsWaiting(s, call) && s.calls[call].ch != ch {
      assert s.chans[ch].id != s.calls[call].id;
    }
  }

  ghost function Run(events: seq<Event>): (s: State)
    ensures Inv(s)
  {
    if events == [] then START
    else
      var before := Run(events[..|events| - 1]);
      ApplyKeepsInv(before, events[|events| - 1]);
      Apply(before, events[|events| - 1])
  }

  // ---------- what every interleaving keeps ----------

  /** A response channel gets at most one message, so a send never finds it full: whatever a party holds,
      delivering it puts it in an empty channel that it then alone has written. */
  lemma SendNeverFindsTheChannelFull(events: seq<Event>, id: int)
    requires id in Run(events).held
    ensures var h, t := Run(events).held[id], Run(events + [Deliver(id)]);
      h.ch < |t.chans| && t.chans[h.ch].sent == [(id, h.msg)] && id !in t.table && id !in t.held
  {
    var s := Run(events);
    var after := events + [Deliver(id)];
    assert after[..|after| - 1] == events;
    assert DrawnInv(s, id) && ChannelInv(s, s.drawn[id]);
  }

  /** A returned call leaves nothing behind: every entry of both tables belongs to a call still at work. */
  lemma FinishedCallsLeaveNoEntry(events: seq<Event>, id: int)
    requires id in Run(events).table || id in Run(events).expected
    ensures var s := Run(events);
      id in s.drawn && s.drawn[id] < |s.chans|
      && (IsWriting(s, s.chans[s.drawn[id]].call) || IsWaiting(s, s.chans[s.drawn[id]].call))
  {
    var s := Run(events);
    assert DrawnInv(s, id) && ChannelInv(s, s.drawn[id]);
  }

  /** No wake-up is lost: the message a waiting call needs is in exactly one of three places. */
  lemma WaitersAreNeverForgotten(events: seq<Event>, call: nat)
    requires IsWaiting(Run(events), call)
    ensures var s := Run(events); var c := s.calls[call];
      && (if c.id in s.table then 1 else 0) + (if c.id in s.held then 1 else 0)
         + (if HasMessage(s, c.ch) then 1 else 0) == 1
      && (c.id in s.table ==> s.table[c.id] == c.ch) && (c.id in s.held ==> s.held[c.id].ch == c.ch)
  {
    var s := Run(events);
    PendingChannel(s, call);
    assert ChannelInv(s, s.calls[call].ch);
  }

  /** Routing: what a finished call was given is the one message sent for an id that it drew. */
  lemma AnswersReachTheirCaller(events: seq<Event>, call: nat)
    requires var s := Run(events);
      call in s.calls && s.calls[call].Finished? && s.calls[call].answer.Received?
    ensures var s := Run(events); Answered(s, call, s.calls[call].answer.id, s.calls[call].answer.msg)
  {
    assert CallInv(Run(events), call);
  }
}
