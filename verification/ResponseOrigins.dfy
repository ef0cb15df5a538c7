/** Which message a caller gets (network.go, mtproto.go): every answer is traced back to the response, or the
    change of the connection, that it stands for, and every response forward to the caller.  The parties and
    their steps are those of PendingRequests. */
module ResponseOrigins {
  import opened PendingRequests

  /** A run: its events, and its states, one more than it has events. */
  datatype History = History(states: seq<State>, events: seq<Event>)

  ghost predicate IsRun(h: History) {
    && |h.states| == |h.events| + 1 && h.states[0] == START
    && (forall n | 0 <= n <= |h.events| :: Inv(h.states[n]))
    && (forall n {:trigger IsStep(h, n)} | 0 <= n < |h.events| :: IsStep(h, n))
  }

  ghost predicate IsStep(h: History, n: int)
    requires 0 <= n < |h.events| == |h.states| - 1
  {
    Inv(h.states[n]) && h.states[n + 1] == Apply(h.states[n], h.events[n])
  }

  function Last(h: History): State
    requires h.states != []
  {
    h.states[|h.states| - 1]
  }

  /** Every list of events has one, which ends in the state Run(events). */
  lemma {:induction false} HistoryOf(events: seq<Event>) returns (h: History)
    ensures IsRun(h) && h.events == events && Last(h) == Run(events)
  {
    if events == [] {
      h := History([START], []);
    } else {
      var n := |events| - 1;
      var before := HistoryOf(events[..n]);
      ApplyKeepsInv(Last(before), events[n]);
      h := History(before.states + [Apply(Last(before), events[n])], events);
      forall k | 0 <= k < |events| ensures IsStep(h, k) {
        if k < n { assert IsStep(before, k); }
      }
    }
  }

  /** The event answers the request `id`, if it is still in the table, with this message. */
  predicate Answers(e: Event, id: int, msg: Message) {
    e == Respond(id, msg) || (e == ConnectionChange && msg == ConfigChanged)
  }

  /** Step `k` finds the request in the table and takes it out, with this message. */
  ghost predicate Takes(h: History, k: nat, id: int, msg: Message) {
    k < |h.events| < |h.states| && id in h.states[k].table && Answers(h.events[k], id, msg)
  }

  /** At step `d` the call draws `id` and enters it in the table. */
  ghost predicate Draws(h: History, d: nat, call: nat, id: int) {
    && d < |h.events| < |h.states| && h.events[d] == Send(call, id)
    && id !in h.states[d].drawn && id in h.states[d + 1].table
  }

  // ---------- back from the answer to the response ----------

  ghost predicate HasOrigin(h: History, n: nat, id: int, msg: Message) {
    exists k: nat :: k < n && Takes(h, k, id, msg)
  }

  ghost predicate OriginInv(h: History, n: nat)
    requires n < |h.states|
  {
    var s := h.states[n];
    && (forall id | id in s.held :: HasOrigin(h, n, id, s.held[id].msg))
    && (forall ch | 0 <= ch < |s.chans| && s.chans[ch].sent != [] ::
          HasOrigin(h, n, s.chans[ch].sent[0].0, s.chans[ch].sent[0].1))
  }

  lemma Longer(h: History, n: nat, id: int, msg: Message)
    requires HasOrigin(h, n, id, msg)
    ensures HasOrigin(h, n + 1, id, msg)
  {
    var k: nat :| k < n && Takes(h, k, id, msg);
    assert k < n + 1 && Takes(h, k, id, msg);
  }

  /** What a party holds it held before, or it has just taken it out of the table. */
  lemma HeldStep(s: State, e: Event, id: int)
    requires Inv(s) && id in Apply(s, e).held
    ensures var msg := Apply(s, e).held[id].msg;
      (id in s.held && s.held[id].msg == msg) || (id in s.table && Answers(e, id, msg))
  {
  }

  lemma SentStep(s: State, e: Event, ch: nat)
    requires Inv(s) && ch < |Apply(s, e).chans| && Apply(s, e).chans[ch].sent != []
    ensures var m := Apply(s, e).chans[ch].sent[0];
      || (ch < |s.chans| && s.chans[ch].sent != [] && s.chans[ch].sent[0] == m)
      || (m.0 in s.held && s.held[m.0].msg == m.1)
  {
    if ch < |s.chans| { assert ChannelInv(s, ch); }
  }

  lemma StepKeepsHeld(h: History, n: nat, id: int)
    requires IsRun(h)
    requires n < |h.events| && OriginInv(h, n) && id in h.states[n + 1].held
    ensures HasOrigin(h, n + 1, id, h.states[n + 1].held[id].msg)
  {
    var s := h.states[n];
    assert IsStep(h, n);
    HeldStep(s, h.events[n], id);
    var msg := Apply(s, h.events[n]).held[id].msg;
    if id in s.held && s.held[id].msg == msg {
      Longer(h, n, id, msg);
    } else {
      assert Takes(h, n, id, msg);
    }
  }

  lemma StepKeepsSent(h: History, n: nat, ch: nat)
    requires IsRun(h)
    requires n < |h.events| && OriginInv(h, n)
    requires ch < |h.states[n + 1].chans| && h.states[n + 1].chans[ch].sent != []
    ensures var m := h.states[n + 1].chans[ch].sent[0]; HasOrigin(h, n + 1, m.0, m.1)
  {
    assert IsStep(h, n);
    SentStep(h.states[n], h.events[n], ch);
    var m := h.states[n + 1].chans[ch].sent[0];
    Longer(h, n, m.0, m.1);
  }

  lemma {:induction false} EveryRunKeepsOrigins(h: History, n: nat)
    requires IsRun(h) && n <= |h.events|
    ensures OriginInv(h, n)
  {
    if n > 0 {
      EveryRunKeepsOrigins(h, n - 1);
      forall id | id in h.states[n].held ensures HasOrigin(h, n, id, h.states[n].held[id].msg) {
        StepKeepsHeld(h, n - 1, id);
      }
      forall ch | 0 <= ch < |h.states[n].chans| && h.states[n].chans[ch].sent != []
        ensures HasOrigin(h, n, h.states[n].chans[ch].sent[0].0, h.states[n].chans[ch].sent[0].1)
      {
        StepKeepsSent(h, n - 1, ch);
      }
    }
  }

  // ---------- the draw ----------

  /** An id that is in the table was drawn, and has been in the table ever since. */
  lemma {:induction false} DrawOf(h: History, n: nat, id: int) returns (d: nat)
    requires IsRun(h) && n <= |h.events| && id in h.states[n].drawn
    ensures d < n && Draws(h, d, h.states[n].chans[h.states[n].drawn[id]].call, id)
  {
    d := 0;
    if n > 0 {
      assert IsStep(h, n - 1);
      var s := h.states[n - 1];
      if id in s.drawn {
        d := DrawOf(h, n - 1, id);
        SameMaker(s, h.events[n - 1], id);
      } else {
        NewDraw(s, h.events[n - 1], id);
        d := n - 1;
      }
    }
  }

  lemma NewDraw(s: State, e: Event, id: int)
    requires Inv(s) && id !in s.drawn && id in Apply(s, e).drawn
    ensures var t := Apply(s, e);
      && t.drawn[id] < |t.chans| && e == Send(t.chans[t.drawn[id]].call, id) && id in t.table
  {
  }

  lemma SameMaker(s: State, e: Event, id: int)
    requires Inv(s) && id in s.drawn
    ensures var t := Apply(s, e);
      && s.drawn[id] < |s.chans| && id in t.drawn && t.drawn[id] == s.drawn[id] < |t.chans|
      && t.chans[t.drawn[id]].call == s.chans[s.drawn[id]].call
  {
    assert DrawnInv(s, id);
  }

  lemma {:induction false} OnceGone(h: History, k: nat, n: nat, id: int)
    requires IsRun(h) && k <= n <= |h.events| && id in h.states[k].drawn && id !in h.states[k].table
    ensures id in h.states[n].drawn && id !in h.states[n].table
  {
    if k < n {
      OnceGone(h, k, n - 1, id);
      assert IsStep(h, n - 1);
      GoneStep(h.states[n - 1], h.events[n - 1], id);
    }
  }

  lemma GoneStep(s: State, e: Event, id: int)
    requires Inv(s)
    ensures id in s.table ==> id in s.drawn
    ensures id in s.drawn ==> id in Apply(s, e).drawn && (id !in s.table ==> id !in Apply(s, e).table)
    ensures (exists m :: Answers(e, id, m)) ==> id !in Apply(s, e).table
  {
  }

  /** The answer of a call is that of the first response to an id that it drew, or of the change of the connection
      if that came first. */
  ghost predicate ComesFrom(h: History, call: nat, id: int, msg: Message, d: nat, k: nat) {
    && d < k && Draws(h, d, call, id) && Takes(h, k, id, msg)
    && forall j, m | d < j < k :: !Answers(h.events[j], id, m)
  }

  /** Main result: whatever a caller is given is what the server answered to this very request, unless the
      connection changed first. */
  lemma AnswersAreResponses(h: History, call: nat)
    requires IsRun(h) && call in Last(h).calls && Last(h).calls[call].Finished? && Last(h).calls[call].answer.Received?
    ensures var a := Last(h).calls[call].answer;
      exists d: nat, k: nat :: ComesFrom(h, call, a.id, a.msg, d, k)
  {
    var n := |h.events|;
    var s := Last(h);
    var id, msg := s.calls[call].answer.id, s.calls[call].answer.msg;
    assert CallInv(s, call);
    var ch := s.drawn[id];
    assert s.chans[ch].sent[0] == (id, msg);
    EveryRunKeepsOrigins(h, n);
    var k: nat :| k < n && Takes(h, k, id, msg);
    var d := DrawOf(h, n, id);
    DrawBefore(h, d, k, call, id, msg);
    assert ComesFrom(h, call, id, msg, d, k);
  }

  lemma DrawBefore(h: History, d: nat, k: nat, call: nat, id: int, msg: Message)
    requires IsRun(h) && Draws(h, d, call, id) && Takes(h, k, id, msg)
    ensures d < k && forall j, m | d < j < k :: !Answers(h.events[j], id, m)
  {
    InTableIsDrawn(h, k, id);
    if k <= d { DrawnStays(h, k, d, id); }
    InTableIsDrawn(h, d + 1, id);
    forall j, m | d < j < k ensures !Answers(h.events[j], id, m) {
      if Answers(h.events[j], id, m) {
        DrawnStays(h, d + 1, j, id);
        AnsweredIsGone(h, j, id, m);
        OnceGone(h, j + 1, k, id);
      }
    }
  }

  lemma InTableIsDrawn(h: History, n: nat, id: int)
    requires IsRun(h) && n <= |h.events| && id in h.states[n].table
    ensures id in h.states[n].drawn
  {
  }

  lemma AnsweredIsGone(h: History, j: nat, id: int, msg: Message)
    requires IsRun(h) && j < |h.events| && id in h.states[j].drawn && Answers(h.events[j], id, msg)
    ensures id in h.states[j + 1].drawn && id !in h.states[j + 1].table
  {
    assert IsStep(h, j);
    GoneStep(h.states[j], h.events[j], id);
  }

  lemma {:induction false} DrawnStays(h: History, k: nat, n: nat, id: int)
    requires IsRun(h) && k <= n <= |h.events| && id in h.states[k].drawn
    ensures id in h.states[n].drawn
  {
    if k < n {
      DrawnStays(h, k, n - 1, id);
      assert IsStep(h, n - 1);
      GoneStep(h.states[n - 1], h.events[n - 1], id);
    }
  }

  // ---------- forward from the response to the caller ----------

  /** The message for this channel is on its way or in it, and no other has been or will be. */
  ghost predicate IsDue(s: State, id: int, ch: nat, msg: Message) {
    && ch < |s.chans| && id in s.drawn && s.drawn[id] == ch && id !in s.table
    && if id in s.held then s.held[id] == Held(ch, msg) && s.chans[ch].sent == []
       else s.chans[ch].sent == [(id, msg)]
  }

  lemma StepKeepsDue(s: State, e: Event, id: int, ch: nat, msg: Message)
    requires Inv(s) && IsDue(s, id, ch, msg)
    ensures IsDue(Apply(s, e), id, ch, msg)
    ensures e == Deliver(id) ==> id !in Apply(s, e).held
    ensures id !in s.held ==> id !in Apply(s, e).held
  {
    assert ChannelInv(s, ch) && DrawnInv(s, id);
    match e
    case Deliver(other) => DeliverKeepsDue(s, other, id, ch, msg);
    case Receive(call, again) => if IsWaiting(s, call) { assert CallInv(s, call); }
    case _ =>
  }

  lemma DeliverKeepsDue(s: State, other: int, id: int, ch: nat, msg: Message)
    requires Inv(s) && IsDue(s, id, ch, msg)
    ensures IsDue(Apply(s, Deliver(other)), id, ch, msg)
    ensures other == id || id !in s.held ==> id !in Apply(s, Deliver(other)).held
  {
    assert ChannelInv(s, ch);
    if other in s.held { assert DrawnInv(s, other) && ChannelInv(s, s.drawn[other]); }
  }

  lemma NextKeepsDue(h: History, n: nat, id: int, ch: nat, msg: Message)
    requires IsRun(h) && n < |h.events| && IsDue(h.states[n], id, ch, msg)
    ensures IsDue(h.states[n + 1], id, ch, msg)
    ensures h.events[n] == Deliver(id) || id !in h.states[n].held ==> id !in h.states[n + 1].held
  {
    assert IsStep(h, n);
    StepKeepsDue(h.states[n], h.events[n], id, ch, msg);
  }

  lemma {:induction false} DueStays(h: History, k: nat, n: nat, id: int, ch: nat, msg: Message)
    requires IsRun(h) && k <= n <= |h.events| && IsDue(h.states[k], id, ch, msg)
    ensures IsDue(h.states[n], id, ch, msg)
    ensures (id !in h.states[k].held || exists j :: k <= j < n && h.events[j] == Deliver(id)) ==>
      id !in h.states[n].held
  {
    if k < n {
      DueStays(h, k, n - 1, id, ch, msg);
      NextKeepsDue(h, n - 1, id, ch, msg);
    }
  }

  /** Main result: a response, or a change of the connection, that finds a request in the table decides it.
      Whatever follows, the channel's only message is this one as soon as it is delivered. */
  lemma ResponseIsDelivered(h: History, k: nat, n: nat, id: int, msg: Message)
    requires IsRun(h) && k < n <= |h.events| && Takes(h, k, id, msg)
    ensures var s, t := h.states[k], h.states[n];
      && IsDue(t, id, s.table[id], msg)
      && ((exists j :: k < j < n && h.events[j] == Deliver(id)) ==> t.chans[s.table[id]].sent == [(id, msg)])
  {
    var s := h.states[k];
    assert DrawnInv(s, id) && ChannelInv(s, s.drawn[id]);
    assert IsStep(h, k);
    DueStays(h, k + 1, n, id, s.table[id], msg);
  }

  /** And the call that waits on it is given this message. */
  lemma WaiterGetsTheMessage(h: History, k: nat, call: nat, id: int, msg: Message, again: bool)
    requires IsRun(h) && Takes(h, k, id, msg) && IsWaiting(Last(h), call) && Last(h).calls[call].id == id
    requires HasMessage(Last(h), Last(h).calls[call].ch)
    ensures var c, t := Last(h).calls[call], Apply(Last(h), Receive(call, again));
      t.calls[call] == if again && c.attempts > 0 then Ready(c.attempts - 1) else Finished(Received(id, msg))
  {
    var s := Last(h);
    ResponseIsDelivered(h, k, |h.events|, id, msg);
    PendingChannel(s, call);
    assert ChannelInv(s, s.calls[call].ch);
  }

  /** After a change of the connection every waiting call has, or will be sent, a message: that the connection
      changed, if nothing had come for it before. */
  lemma ConnectionChangeReachesAll(h: History, call: nat)
    requires IsRun(h) && IsWaiting(Last(h), call)
    ensures var s := Last(h); var c, t := s.calls[call], Apply(s, ConnectionChange);
      if c.id in s.table then IsDue(t, c.id, c.ch, ConfigChanged)
      else exists k: nat, msg :: Takes(h, k, c.id, msg) && IsDue(t, c.id, c.ch, msg)
  {
    var s := Last(h);
    var c := s.calls[call];
    PendingChannel(s, call);
    assert ChannelInv(s, c.ch);
    if c.id !in s.table {
      EveryRunKeepsOrigins(h, |h.events|);
      var msg := if c.id in s.held then s.held[c.id].msg else s.chans[c.ch].sent[0].1;
      var k: nat :| k < |h.events| && Takes(h, k, c.id, msg);
      StepKeepsDue(s, ConnectionChange, c.id, c.ch, msg);
    }
  }
}
