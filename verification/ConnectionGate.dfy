/** The connection gate TcpState (mtproto.go): a flag, a shutdown mark and the channel waiters block on.

    A channel is named by its creation index; `shut[c]` tells whether it has been closed.  Closing a
    closed channel panics in Go, so CloseChannel demands an open one. */
module ConnectionGate {

  datatype Gate = Gate(active: bool, closed: bool, ch: nat, shut: seq<bool>)

  const NEW_GATE := Gate(false, false, 0, [false])

  /** The gate's invariant: its channel is open exactly while it is neither active nor closed, and every
      channel it ever replaced had been closed first. */
  ghost predicate Consistent(g: Gate) {
    && g.ch == |g.shut| - 1
    && (g.shut[g.ch] <==> g.active || g.closed)
    && !(g.active && g.closed)
    && forall c | 0 <= c < g.ch :: g.shut[c]
  }

  function MakeChannel(g: Gate): Gate {
    g.(ch := |g.shut|, shut := g.shut + [false])
  }

  function CloseChannel(g: Gate): Gate
    requires g.ch < |g.shut| && !g.shut[g.ch]
  {
    g.(shut := g.shut[g.ch := true])
  }

  function Activated(g: Gate): Gate
    requires Consistent(g)
  {
    if g.active then g
    else if g.closed then CloseChannel(MakeChannel(g.(active := true, closed := false)))
    else CloseChannel(g.(active := true))
  }

  function Deactivated(g: Gate): Gate {
    if g.active then MakeChannel(g.(active := false)) else g
  }

  function Closed(g: Gate): Gate
    requires Consistent(g)
  {
    (if !g.active && !g.closed then CloseChannel(g) else g).(active := false, closed := true)
  }

  class TcpState {
    var active: bool
    var closed: bool
    var ch: nat
    var shut: seq<bool>

    ghost function View(): Gate
      reads this
    {
      Gate(active, closed, ch, shut)
    }

    constructor ()
      ensures View() == NEW_GATE && Consistent(View())
    {
      active, closed, ch, shut := false, false, 0, [false];
    }

    method Make()
      modifies this`ch, this`shut
      ensures View() == MakeChannel(old(View()))
    {
      ch, shut := |shut|, shut + [false];
    }

    method CloseCurrent()
      requires ch < |shut| && !shut[ch]
      modifies this`shut
      ensures View() == CloseChannel(old(View()))
    {
      shut := shut[ch := true];
    }

    method SetActive(value: bool)
      requires Consistent(View())
      modifies this
      ensures Consistent(View())
      ensures View() == if value then Activated(old(View())) else Deactivated(old(View()))
      ensures active == value
      ensures forall c | 0 <= c < |old(shut)| :: shut[c] <==> old(shut)[c] || (value && !old(active))
    {
      if active == value { return; }
      active := value;
      if value {
        if closed {
          Make();
          closed := false;
        }
        CloseCurrent();
      } else {
        Make();
      }
    }

    method Close()
      requires Consistent(View())
      modifies this
      ensures Consistent(View()) && View() == Closed(old(View()))
      ensures forall c | 0 <= c < |shut| :: shut[c]
    {
      if !active && !closed { CloseCurrent(); }
      active := false;
      closed := true;
    }
  }

  // ---------- waiters ----------

  datatype Outcome = Connected | Disconnected | Canceled

  /** One WaitForActive call: about to look at the gate, blocked on the channel it saw, released from
      it and about to look at the active flag alone, or returned. */
  datatype Waiter = Looking | Blocked(ch: nat) | Released | Returned(outcome: Outcome)

  datatype System = System(gate: Gate, waiters: map<nat, Waiter>)

  datatype Event =
    | Activate
    | Deactivate
    | Shutdown
    | Arrive(id: nat)
    | Look(id: nat)
    | Wake(id: nat)
    | Recheck(id: nat)
    | Cancel(id: nat)

  predicate At(s: System, id: nat, w: Waiter) {
    id in s.waiters && s.waiters[id] == w
  }

  /** A blocked waiter can only take a value from a closed channel. */
  predicate CanWake(s: System, id: nat) {
    && id in s.waiters && s.waiters[id].Blocked?
    && s.waiters[id].ch < |s.gate.shut| && s.gate.shut[s.waiters[id].ch]
  }

  function Put(s: System, id: nat, w: Waiter): System {
    s.(waiters := s.waiters[id := w])
  }

  function Apply(s: System, e: Event): System
    requires Consistent(s.gate)
  {
    match e
    case Activate => s.(gate := Activated(s.gate))
    case Deactivate => s.(gate := Deactivated(s.gate))
    case Shutdown => s.(gate := Closed(s.gate))
    case Arrive(id) => if id in s.waiters then s else Put(s, id, Looking)
    case Look(id) =>
      if !At(s, id, Looking) then s
      else if s.gate.closed then Put(s, id, Returned(Disconnected))
      else if s.gate.active then Put(s, id, Returned(Connected))
      else Put(s, id, Blocked(s.gate.ch))
    case Wake(id) => if CanWake(s, id) then Put(s, id, Released) else s
    case Recheck(id) =>
      if !At(s, id, Released) then s
      else if s.gate.active then Put(s, id, Returned(Connected))
      else Put(s, id, Looking)
    case Cancel(id) =>
      if id in s.waiters && s.waiters[id].Blocked? then Put(s, id, Returned(Canceled)) else s
  }

  /** No waiter sleeps on a channel that nobody will close: an open channel held by a waiter is the
      gate's own. */
  ghost predicate Inv(s: System) {
    && Consistent(s.gate)
    && forall id | id in s.waiters && s.waiters[id].Blocked? :: s.waiters[id].ch < |s.gate.shut|
  }

  lemma ApplyKeepsInv(s: System, e: Event)
    requires Inv(s)
    ensures Inv(Apply(s, e))
    ensures |s.gate.shut| <= |Apply(s, e).gate.shut|
    ensures forall c | 0 <= c < |s.gate.shut| && s.gate.shut[c] :: Apply(s, e).gate.shut[c]
  {
  }

  const START := System(NEW_GATE, map[])

  ghost function Run(events: seq<Event>): (s: System)
    ensures Inv(s)
  {
    if events == [] then START
    else
      var before := Run(events[..|events| - 1]);
      ApplyKeepsInv(before, events[|events| - 1]);
      Apply(before, events[|events| - 1])
  }

  /** Main result: after any run, an activation or a shutdown lets every waiter blocked at that moment
      proceed, and deactivations, reopenings and arrivals that follow never take that away. */
  lemma EveryWaiterIsWoken(events: seq<Event>, signal: Event, later: seq<Event>, id: nat)
    requires signal == Activate || signal == Shutdown
    requires var s := Run(events); id in s.waiters && s.waiters[id].Blocked?
    ensures
      var s, t := Run(events), Run(events + [signal] + later);
      At(t, id, s.waiters[id]) ==> CanWake(t, id)
  {
    StillShut(events, signal, later, Run(events).waiters[id].ch);
  }

  lemma {:induction false} StillShut(events: seq<Event>, signal: Event, later: seq<Event>, c: nat)
    requires signal == Activate || signal == Shutdown
    requires c < |Run(events).gate.shut|
    ensures var t := Run(events + [signal] + later).gate; c < |t.shut| && t.shut[c]
    decreases |later|
  {
    var prefix := events + [signal];
    if later == [] {
      assert prefix + later == prefix;
      Then(events, signal);
    } else {
      var rest := later[..|later| - 1];
      StillShut(events, signal, rest, c);
      LastOf(prefix, later);
      ApplyKeepsInv(Run(prefix + rest), later[|later| - 1]);
    }
  }

  lemma LastOf(prefix: seq<Event>, later: seq<Event>)
    requires later != []
    ensures Run(prefix + later) == Apply(Run(prefix + later[..|later| - 1]), later[|later| - 1])
  {
    var rest, last := later[..|later| - 1], later[|later| - 1];
    assert later == rest + [last];
    assert prefix + later == (prefix + rest) + [last];
    Then(prefix + rest, last);
  }

  lemma Then(events: seq<Event>, e: Event)
    ensures Run(events + [e]) == Apply(Run(events), e)
  {
    assert (events + [e])[..|events|] == events;
  }

  /** Conversely a waiter sleeps only for a reason: while its channel is open the gate is down, so
      looking again would have blocked it on that same channel. */
  lemma SleepersAreJustified(events: seq<Event>, id: nat)
    requires var s := Run(events); id in s.waiters && s.waiters[id].Blocked? && !CanWake(s, id)
    ensures var g := Run(events).gate; !g.active && !g.closed && Run(events).waiters[id].ch == g.ch
  {
  }

  /** A waiter is told "connected" or "disconnected" only in a state where that is so. */
  lemma AnswersAreTrue(events: seq<Event>, e: Event, id: nat)
    requires var s := Run(events); id in s.waiters && !s.waiters[id].Returned?
    ensures
      var s, t := Run(events), Apply(Run(events), e);
      && (At(t, id, Returned(Connected)) ==> s.gate.active && !s.gate.closed)
      && (At(t, id, Returned(Disconnected)) ==> s.gate.closed)
      && (At(t, id, Returned(Canceled)) ==> s.waiters[id].Blocked? && e == Cancel(id))
  {
  }

  /** A waiter that looks at a gate that is up or closed returns, and so does one that was woken and finds it up. */
  lemma LooksAreAnswered(events: seq<Event>, id: nat)
    ensures var s := Run(events);
      && (At(s, id, Looking) && s.gate.closed ==> At(Apply(s, Look(id)), id, Returned(Disconnected)))
      && (At(s, id, Looking) && s.gate.active && !s.gate.closed ==> At(Apply(s, Look(id)), id, Returned(Connected)))
      && (At(s, id, Released) && s.gate.active ==> At(Apply(s, Recheck(id)), id, Returned(Connected)))
  {
  }

  /** So a blocked waiter returns in two steps of its own after an activation, and in three after a shutdown. */
  lemma ActivationIsAnswered(events: seq<Event>, id: nat)
    requires var s := Run(events); id in s.waiters && s.waiters[id].Blocked?
    ensures At(Run(events + [Activate] + [Wake(id)] + [Recheck(id)]), id, Returned(Connected))
  {
    var up := events + [Activate];
    StillShut(events, Activate, [], Run(events).waiters[id].ch);
    assert up + [] == up;
    Then(events, Activate);
    WakingUp(up, id, Run(events).waiters[id].ch);
    Then(up + [Wake(id)], Recheck(id));
  }

  lemma ShutdownIsAnswered(events: seq<Event>, id: nat)
    requires var s := Run(events); id in s.waiters && s.waiters[id].Blocked?
    ensures At(Run(events + [Shutdown] + [Wake(id)] + [Recheck(id)] + [Look(id)]), id, Returned(Disconnected))
  {
    var down := events + [Shutdown];
    StillShut(events, Shutdown, [], Run(events).waiters[id].ch);
    assert down + [] == down;
    Then(events, Shutdown);
    WakingUp(down, id, Run(events).waiters[id].ch);
    Then(down + [Wake(id)], Recheck(id));
    Then(down + [Wake(id)] + [Recheck(id)], Look(id));
  }

  lemma WakingUp(events: seq<Event>, id: nat, c: nat)
    requires At(Run(events), id, Blocked(c)) && c < |Run(events).gate.shut| && Run(events).gate.shut[c]
    ensures At(Run(events + [Wake(id)]), id, Released) && Run(events + [Wake(id)]).gate == Run(events).gate
  {
    Then(events, Wake(id));
  }

  /** `outcome` is what a waiter may be told in this state. */
  predicate IsSo(outcome: Outcome, s: System, e: Event, id: nat) {
    match outcome
    case Connected => s.gate.active && !s.gate.closed
    case Disconnected => s.gate.closed
    case Canceled => id in s.waiters && s.waiters[id].Blocked? && e == Cancel(id)
  }

  /** So in every run, what a call has returned was true at one moment of that call. */
  lemma {:induction false} AnswersWereTrue(events: seq<Event>, id: nat, outcome: Outcome) returns (n: nat)
    requires At(Run(events), id, Returned(outcome))
    ensures n < |events|
    ensures var s := Run(events[..n]);
      id in s.waiters && !s.waiters[id].Returned? && IsSo(outcome, s, events[n], id)
    decreases |events|
  {
    n := |events| - 1;
    var front := events[..n];
    if At(Run(front), id, Returned(outcome)) {
      n := AnswersWereTrue(front, id, outcome);
      assert front[..n] == events[..n];
    } else {
      Answering(Run(front), events[n], id, outcome);
    }
  }

  lemma Answering(s: System, e: Event, id: nat, outcome: Outcome)
    requires Consistent(s.gate) && At(Apply(s, e), id, Returned(outcome)) && !At(s, id, Returned(outcome))
    ensures id in s.waiters && !s.waiters[id].Returned? && IsSo(outcome, s, e, id)
  {
  }
}
