/** When the transfer pacer must act (telegram/media.go): exactly when it cuts the window, when it lets it grow and
    when it raises the rate, and what that means for runs. */
module PacerControl {
  import opened TransferPacer
  import opened PacerRuns

  /** A complaint, a timeout, or one slow answer too many, to a request that was sent since the last cut. */
  predicate NeedsCut(p: State, ticket: Ticket, outcome: Outcome, now: real) {
    ticket.epoch == p.epoch &&
    (outcome.Flood? || outcome.Backoff?
      || (outcome.Fine? && now - ticket.started > 8.0 && p.window > 1 && p.slowResponses + 1 >= Min(3, p.window)))
  }

  /** A flood wait takes one off the window, a timeout and slow answers half of it; nothing else takes anything. */
  lemma CutsExactlyWhen(p: State, ticket: Ticket, bytes: nat, outcome: Outcome, now: real)
    requires PacerInv(p)
    ensures var q := Finished(p, ticket, bytes, outcome, now);
      if NeedsCut(p, ticket, outcome, now)
      then q.epoch == p.epoch + 1 && q.slowResponses == 0 && now + 15.0 <= q.windowProbeAfter
           && q.window == Max(1, if outcome.Flood? then p.window - 1 else p.window / 2)
      else q.epoch == p.epoch && q.window >= p.window
  {
  }

  /** A prompt answer makes the window grow if there is room and the probe is due. */
  lemma GrowsExactlyWhen(p: State, ticket: Ticket, bytes: nat, outcome: Outcome, now: real)
    requires PacerInv(p)
    ensures var q := Finished(p, ticket, bytes, outcome, now);
      (if outcome == Fine && ticket.epoch == p.epoch && now - ticket.started < 4.0
          && p.window < RateWindow(q.rate, q.maximum) && p.windowProbeAfter <= now
       then q.window == p.window + 1 else q.window <= p.window)
  {
  }

  /** What a success says about the link: the bytes that came since the sample began, over the time. */
  function Seen(p: State, bytes: nat, now: real): real
    requires now - p.sampleStart >= 1.0
  {
    (p.sampleBytes + bytes) as real / (now - p.sampleStart)
  }

  /** The rate is raised by a fiftieth when a second of transfers nearly filled it and the probe is due. */
  lemma RaisesExactlyWhen(p: State, ticket: Ticket, bytes: nat, outcome: Outcome, now: real)
    requires PacerInv(p) && !outcome.Flood?
    ensures var q := Finished(p, ticket, bytes, outcome, now);
      if outcome == Fine && now - p.sampleStart >= 1.0 && p.rate > 0.0 && p.probeAfter <= now
         && Seen(p, bytes, now) >= p.rate * 0.85
      then q.rate == p.rate * 1.02 && q.probeAfter == now + (if p.learned then 30.0 else 5.0)
      else q.rate == p.rate && q.probeAfter == p.probeAfter
  {
  }

  /** A sample holds the bytes of the successes since it began, and begins anew when it is used. */
  lemma SampleIsWhatCame(p: State, ticket: Ticket, bytes: nat, now: real)
    requires PacerInv(p)
    ensures var q := Finished(p, ticket, bytes, Fine, now);
      if now - p.sampleStart >= 1.0
      then q.sampleStart == now && q.sampleBytes == 0 && q.peakRate == Later(p.peakRate * 0.95, Seen(p, bytes, now))
      else q.sampleStart == p.sampleStart && q.sampleBytes == p.sampleBytes + bytes && q.peakRate == p.peakRate
  {
  }

  // ---------- runs ----------

  predicate IsSlow(w: World, e: Event, epoch: nat) {
    && e.Done? && e.i < |w.out| && e.now > 0.0 && e.outcome == Fine
    && w.out[e.i].ticket.epoch == epoch && e.now - w.out[e.i].ticket.started > 8.0
  }

  predicate AllSlow(w: World, events: seq<Event>, epoch: nat)
    decreases |events|
  {
    events == [] || (IsSlow(w, events[0], epoch) && AllSlow(Apply(w, events[0]), events[1..], epoch))
  }

  /** Three slow answers in a row halve the window, once. */
  lemma SlowAnswersCut(w: World, events: seq<Event>)
    requires Inv(w) && |events| >= 3 && AllSlow(w, events, w.p.epoch) && w.p.window > 1
    ensures After(w, events).p.epoch == w.p.epoch + 1 && After(w, events).p.window == w.p.window / 2
  {
    SlowRun(w, events, w.p.epoch, w.p.window);
  }

  lemma {:induction false} SlowRun(w: World, events: seq<Event>, epoch: nat, window: int)
    requires Inv(w) && AllSlow(w, events, epoch) && window > 1
    requires if w.p.epoch == epoch
             then w.p.window == window && |events| + w.p.slowResponses >= 3 && (events == [] ==> w.p.slowResponses < 3)
             else w.p.epoch == epoch + 1 && w.p.window == window / 2
    ensures After(w, events).p.epoch == epoch + 1 && After(w, events).p.window == window / 2
    decreases |events|
  {
    if events != [] {
      var e := events[0];
      ApplyKeepsInv(w, e);
      SlowStep(w.p, w.out[e.i].ticket, e.bytes, e.now, epoch, window);
      SlowRun(Apply(w, e), events[1..], epoch, window);
    }
  }

  lemma SlowStep(p: State, ticket: Ticket, bytes: nat, now: real, epoch: nat, window: int)
    requires PacerInv(p) && ticket.epoch == epoch && now - ticket.started > 8.0 && window > 1
    requires if p.epoch == epoch then p.window == window else p.epoch == epoch + 1 && p.window == window / 2
    ensures var q := Finished(p, ticket, bytes, Fine, now);
      if q.epoch == epoch then q.window == window && q.slowResponses == p.slowResponses + 1 < 3
      else q.epoch == epoch + 1 && q.window == window / 2
  {
  }

  /** A flood wait keeps the rate from rising until half a minute after the pacer's block is over. */
  lemma {:induction false} RateRests(w: World, events: seq<Event>, until: real)
    requires Inv(w) && w.p.learned && until <= w.p.probeAfter && until <= w.p.blockedUntil + 30.0
    requires forall k | 0 <= k < |events| && events[k].Done? :: events[k].now < until
    ensures After(w, events).p.rate <= w.p.rate
    decreases |events|
  {
    if events != [] {
      var e := events[0];
      ApplyKeepsInv(w, e);
      if e.Done? && e.i < |w.out| && e.now > 0.0 {
        RateStep(w.p, w.out[e.i].ticket, e.bytes, e.outcome, e.now, until);
      }
      RateRests(Apply(w, e), events[1..], until);
    }
  }

  lemma RateStep(p: State, ticket: Ticket, bytes: nat, outcome: Outcome, now: real, until: real)
    requires PacerInv(p) && p.learned && now < until && until <= p.probeAfter && until <= p.blockedUntil + 30.0
    ensures var q := Finished(p, ticket, bytes, outcome, now);
      q.learned && q.rate <= p.rate && until <= q.probeAfter && until <= q.blockedUntil + 30.0
  {
  }

  /** So it is after every flood wait on a ticket of the current epoch. */
  lemma FloodRestsTheRate(w: World, i: nat, bytes: nat, seconds: int, now: real, events: seq<Event>)
    requires Inv(w) && i < |w.out| && now > 0.0 && w.out[i].ticket.epoch == w.p.epoch
    requires forall k | 0 <= k < |events| && events[k].Done? :: events[k].now < now + Wait(seconds) + 30.0
    ensures var w' := Apply(w, Done(i, bytes, Flood(seconds), now)); After(w', events).p.rate <= w'.p.rate
  {
    var e := Done(i, bytes, Flood(seconds), now);
    ApplyKeepsInv(w, e);
    RateRests(Apply(w, e), events, now + Wait(seconds) + 30.0);
  }
}
