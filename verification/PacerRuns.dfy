/** Whole runs of the transfer pacer (telegram/media.go): callers ask, sleep and finish in any order, with any
    outcomes and delays. */
module PacerRuns {
  import opened TransferPacer

  /** A ticket that has not been finished, and the how-manieth it was. */
  datatype Held = Held(ticket: Ticket, number: nat)

  datatype Grant = Grant(time: real, bytes: nat, rate: real)

  datatype Timer = Never | At(time: real)

  /** A caller asleep in acquire: on the channel it saw, and perhaps on a timer. */
  datatype Sleeper = Sleeper(limit: int, channel: nat, timer: Timer)

  /** The pacer, with what has happened: the grants in order, how many times the window was cut, and how many
      grants there were at the last cut. */
  datatype World = World(
    p: State, clock: real, out: seq<Held>, log: seq<Grant>, cuts: nat, cut: nat, sleepers: seq<Sleeper>)

  datatype Event =
    | Ask(bytes: nat, limit: int, now: real)
    | Done(i: nat, bytes: nat, outcome: Outcome, now: real)

  function Start(maximum: int, rate: real, probeAfter: real): World {
    World(New(maximum, rate, probeAfter), 0.0, [], [], 0, 0, [])
  }

  /** acquire reads the clock under the lock, so its readings never go back; finish reads it before. */
  function Apply(w: World, e: Event): World {
    match e
    case Ask(bytes, limit, now) =>
      if now <= 0.0 || now < w.clock then w
      else if Grants(w.p, limit, now) then
        w.(p := Granted(w.p, bytes, now), clock := now,
           out := w.out + [Held(Ticket(w.p.epoch, now), |w.log|)], log := w.log + [Grant(now, bytes, w.p.rate)])
      else
        w.(clock := now, sleepers := w.sleepers + [SleeperOf(w.p, limit, now)])
    case Done(i, bytes, outcome, now) =>
      if i >= |w.out| || now <= 0.0 then w
      else
        var p := Finished(w.p, w.out[i].ticket, bytes, outcome, now);
        var cut := p.window < w.p.window;
        w.(p := p, out := w.out[..i] + w.out[i + 1..],
           cuts := if cut then w.cuts + 1 else w.cuts, cut := if cut then |w.log| else w.cut)
  }

  function SleeperOf(p: State, limit: int, now: real): Sleeper {
    Sleeper(limit, p.changed, if now < Until(p) then At(Until(p)) else Never)
  }

  function After(w: World, events: seq<Event>): World
    decreases |events|
  {
    if events == [] then w else After(Apply(w, events[0]), events[1..])
  }

  // ---------- the invariant ----------

  predicate PacerInv(p: State) {
    && 1 <= p.window <= p.maximum && 2 <= p.maximum && 0 <= p.active <= p.maximum
    && (p.rate == 0.0 || p.rate >= 1024.0) && (p.learned ==> p.rate >= 1024.0)
    && p.peakRate >= 0.0 && p.sampleBytes >= 0 && p.slowResponses >= 0
  }

  /** Tickets of the current epoch were issued after the last cut. */
  predicate TicketInv(epoch: nat, cut: nat, issued: nat, h: Held) {
    h.ticket.epoch <= epoch && h.number < issued && (h.ticket.epoch == epoch ==> cut <= h.number)
  }

  predicate TicketsInv(w: World) {
    && w.p.active == |w.out| && w.p.requests == |w.log|
    && w.cuts <= w.cut <= |w.log|
    && forall i | 0 <= i < |w.out| :: TicketInv(w.p.epoch, w.cut, |w.log|, w.out[i])
  }

  /** How long a grant keeps the next one waiting. */
  function Cost(g: Grant): real {
    if g.rate > 0.0 then g.bytes as real / g.rate else 0.0
  }

  /** Grants do not follow one another faster than the rate allows. */
  predicate Paced(log: seq<Grant>) {
    forall k | 0 <= k < |log| - 1 :: log[k].time + Cost(log[k]) <= log[k + 1].time
  }

  predicate LogInv(w: World) {
    && Paced(w.log)
    && (w.log != [] ==> var last := w.log[|w.log| - 1];
      last.time <= w.clock && (last.rate > 0.0 ==> last.time + Cost(last) <= w.p.next))
  }

  /** A caller sleeps only while it could not go: before the pacer would grant it a ticket, its channel has been
      closed or its timer has gone off. */
  ghost predicate Justified(p: State, s: Sleeper) {
    && s.channel <= p.changed
    && (s.channel == p.changed ==> forall now | Grants(p, s.limit, now) :: s.timer.At? && s.timer.time <= now)
  }

  ghost predicate SleepInv(w: World) {
    forall s | s in w.sleepers :: Justified(w.p, s)
  }

  ghost predicate Inv(w: World) {
    PacerInv(w.p) && TicketsInv(w) && LogInv(w) && SleepInv(w)
  }

  // ---------- every event keeps it ----------

  lemma QuotientIsPositive(a: real, b: real)
    requires a >= 0.0 && b > 0.0
    ensures a / b >= 0.0
  {
  }

  lemma SampledKeepsInv(p: State, bytes: nat, now: real)
    requires PacerInv(p)
    ensures PacerInv(Sampled(p, bytes, now))
  {
    if now - p.sampleStart >= 1.0 {
      QuotientIsPositive((p.sampleBytes + bytes) as real, now - p.sampleStart);
    }
  }

  lemma FinishedKeepsInv(p: State, ticket: Ticket, bytes: nat, outcome: Outcome, now: real)
    requires PacerInv(p) && p.active > 0
    ensures PacerInv(Finished(p, ticket, bytes, outcome, now))
  {
    match outcome
    case Flood(seconds) => FloodedKeepsInv(Ended(p, outcome), ticket, Wait(seconds), now);
    case Backoff => HalvedKeepsInv(Ended(p, outcome), now);
    case Broken =>
    case Fine => FineKeepsInv(Ended(p, outcome), ticket, bytes, now);
  }

  lemma FineKeepsInv(p: State, ticket: Ticket, bytes: nat, now: real)
    requires PacerInv(p)
    ensures PacerInv(Timed(Sampled(p, bytes, now), ticket, now))
  {
    SampledKeepsInv(p, bytes, now);
    TimedKeepsInv(Sampled(p, bytes, now), ticket, now);
  }

  lemma HalvedKeepsInv(p: State, now: real)
    requires PacerInv(p)
    ensures PacerInv(Halved(p, now))
  {
  }

  lemma FloodedKeepsInv(p: State, ticket: Ticket, wait: real, now: real)
    requires PacerInv(p) && wait > 0.0
    ensures PacerInv(Flooded(p, ticket, wait, now))
  {
    assert FloodRate(p.learned, p.rate, Estimate(p.peakRate, p.sampleStart, p.sampleBytes, now), wait) >= 1024.0;
  }

  lemma TimedKeepsInv(p: State, ticket: Ticket, now: real)
    requires PacerInv(p)
    ensures PacerInv(Timed(p, ticket, now))
  {
  }

  /** Only a ticket of the current epoch cuts the window, and that ends the epoch. */
  lemma CutEndsEpoch(p: State, ticket: Ticket, bytes: nat, outcome: Outcome, now: real)
    requires PacerInv(p) && ticket.epoch <= p.epoch
    ensures var q := Finished(p, ticket, bytes, outcome, now);
      && p.epoch <= q.epoch <= p.epoch + 1
      && (ticket.epoch < p.epoch ==> q.epoch == p.epoch && q.window == p.window)
      && (q.window < p.window ==> q.epoch == p.epoch + 1)
      && (q.epoch == p.epoch ==> p.window <= q.window <= p.window + 1)
      && (q.epoch != p.epoch ==> Max(1, p.window / 2) <= q.window <= p.window)
  {
  }

  lemma TicketsAfterDone(w: World, i: nat, bytes: nat, outcome: Outcome, now: real)
    requires Inv(w) && i < |w.out| && now > 0.0
    ensures TicketsInv(Apply(w, Done(i, bytes, outcome, now)))
  {
    var w' := Apply(w, Done(i, bytes, outcome, now));
    assert TicketInv(w.p.epoch, w.cut, |w.log|, w.out[i]);
    CutEndsEpoch(w.p, w.out[i].ticket, bytes, outcome, now);
    forall k | 0 <= k < |w'.out| ensures TicketInv(w'.p.epoch, w'.cut, |w'.log|, w'.out[k]) {
      assert w'.out[k] == w.out[if k < i then k else k + 1];
      assert TicketInv(w.p.epoch, w.cut, |w.log|, w'.out[k]);
    }
  }

  lemma GrantedKeepsSleepers(p: State, bytes: nat, limit: int, now: real, s: Sleeper)
    requires Grants(p, limit, now) && Justified(p, s)
    ensures Justified(Granted(p, bytes, now), s)
  {
    var q := Granted(p, bytes, now);
    if p.rate > 0.0 { QuotientIsPositive(bytes as real, p.rate); }
    forall later | Grants(q, s.limit, later) ensures Grants(p, s.limit, later) {
      assert Until(p) <= Until(q);
    }
  }

  lemma AskKeepsInv(w: World, bytes: nat, limit: int, now: real)
    requires Inv(w)
    ensures Inv(Apply(w, Ask(bytes, limit, now)))
  {
    var w' := Apply(w, Ask(bytes, limit, now));
    if now > 0.0 && now >= w.clock {
      if Grants(w.p, limit, now) {
        if w.p.rate > 0.0 { QuotientIsPositive(bytes as real, w.p.rate); }
        forall s | s in w'.sleepers ensures Justified(w'.p, s) {
          GrantedKeepsSleepers(w.p, bytes, limit, now, s);
        }
        assert LogInv(w') by { PacedLonger(w.log, w'.log[|w.log|]); }
        assert TicketsInv(w');
      } else {
        assert Justified(w.p, SleeperOf(w.p, limit, now));
      }
    }
  }

  lemma PacedLonger(log: seq<Grant>, g: Grant)
    requires Paced(log) && (log != [] ==> log[|log| - 1].time + Cost(log[|log| - 1]) <= g.time)
    ensures Paced(log + [g])
  {
  }

  /** finishAt closes the channel on which everybody sleeps, and delays no grant that was due. */
  lemma DoneWakesAll(w: World, i: nat, bytes: nat, outcome: Outcome, now: real)
    requires Inv(w) && i < |w.out| && now > 0.0
    ensures var w' := Apply(w, Done(i, bytes, outcome, now));
      SleepInv(w') && LogInv(w') && forall s | s in w'.sleepers :: s.channel < w'.p.changed
  {
    var w' := Apply(w, Done(i, bytes, outcome, now));
    assert w'.p.changed == w.p.changed + 1 && w'.p.next == w.p.next;
    forall s | s in w'.sleepers ensures s.channel < w'.p.changed && Justified(w'.p, s) {
      assert Justified(w.p, s);
    }
  }

  lemma ApplyKeepsInv(w: World, e: Event)
    requires Inv(w)
    ensures Inv(Apply(w, e))
  {
    match e
    case Ask(bytes, limit, now) => AskKeepsInv(w, bytes, limit, now);
    case Done(i, bytes, outcome, now) =>
      if i < |w.out| && now > 0.0 {
        TicketsAfterDone(w, i, bytes, outcome, now);
        FinishedKeepsInv(w.p, w.out[i].ticket, bytes, outcome, now);
        DoneWakesAll(w, i, bytes, outcome, now);
      }
  }

  // ---------- what holds of every run ----------

  lemma {:induction false} RunKeepsInv(w: World, events: seq<Event>)
    requires Inv(w)
    ensures Inv(After(w, events))
    decreases |events|
  {
    if events != [] {
      ApplyKeepsInv(w, events[0]);
      RunKeepsInv(Apply(w, events[0]), events[1..]);
    }
  }

  /** The sizes the source starts with: 12, 64 or 128 at most, and no rate or the cap. */
  lemma EveryRunKeepsInv(maximum: int, rate: real, probeAfter: real, events: seq<Event>)
    requires 2 <= maximum && (rate == 0.0 || rate >= 1024.0)
    ensures Inv(After(Start(maximum, rate, probeAfter), events))
  {
    RunKeepsInv(Start(maximum, rate, probeAfter), events);
  }

  /** A ticket is given out only to keep the number in flight within the window, the rate's window and the
      caller's limit, and never while the server has asked to wait. */
  lemma GrantIsAllowed(w: World, bytes: nat, limit: int, now: real)
    requires Inv(w) && |Apply(w, Ask(bytes, limit, now)).log| > |w.log|
    ensures var w' := Apply(w, Ask(bytes, limit, now));
      && w'.log == w.log + [Grant(now, bytes, w.p.rate)] && |w'.out| == |w.out| + 1
      && |w'.out| <= w.p.window && |w'.out| <= RateWindow(w.p.rate, w.p.maximum) && (limit > 0 ==> |w'.out| <= limit)
      && w.p.blockedUntil <= now && w.p.next <= now
  {
  }

  /** The conditions for a grant, in the world just before it. */
  predicate IsAllowedIn(w: World, limit: int, now: real) {
    && |w.out| < w.p.window && |w.out| < RateWindow(w.p.rate, w.p.maximum) && (limit > 0 ==> |w.out| < limit)
    && w.p.blockedUntil <= now && w.p.next <= now
  }

  /** So in every run, each grant that was ever made was allowed at its moment. */
  lemma {:induction false} EveryGrantWasAllowed(w: World, events: seq<Event>, k: nat) returns (n: nat)
    requires Inv(w) && |w.log| <= k < |After(w, events).log|
    ensures n < |events| && events[n].Ask?
    ensures var (e, v) := (events[n], After(w, events[..n]));
      |v.log| == k && After(w, events).log[k] == Grant(e.now, e.bytes, v.p.rate) && IsAllowedIn(v, e.limit, e.now)
    decreases |events|
  {
    var w' := Apply(w, events[0]);
    BlockIsKept(w', events[1..]);
    ApplyKeepsInv(w, events[0]);
    if |w'.log| > k {
      n := 0;
      GrantIsAllowed(w, events[0].bytes, events[0].limit, events[0].now);
    } else {
      var m := EveryGrantWasAllowed(w', events[1..], k);
      n := m + 1;
      assert events[..n][1..] == events[1..][..m];
    }
  }

  /** Once the server has asked to wait, no ticket is given out before the wait is over, whatever happens. */
  lemma {:induction false} BlockIsKept(w: World, events: seq<Event>)
    ensures w.p.blockedUntil <= After(w, events).p.blockedUntil
    ensures w.log <= After(w, events).log
    ensures forall k | |w.log| <= k < |After(w, events).log| :: w.p.blockedUntil <= After(w, events).log[k].time
    decreases |events|
  {
    if events != [] {
      var w' := Apply(w, events[0]);
      BlockIsKept(w', events[1..]);
      assert |w'.log| > |w.log| ==> w.p.blockedUntil <= w'.log[|w.log|].time;
      assert w.p.blockedUntil <= w'.p.blockedUntil;
    }
  }

  lemma FloodBlocks(w: World, i: nat, bytes: nat, seconds: int, now: real, events: seq<Event>)
    requires i < |w.out| && now > 0.0
    ensures var w' := Apply(w, Done(i, bytes, Flood(seconds), now));
      forall k | |w.log| <= k < |After(w', events).log| :: now + Wait(seconds) <= After(w', events).log[k].time
  {
    BlockIsKept(Apply(w, Done(i, bytes, Flood(seconds), now)), events);
  }

  /** The window is cut only by a ticket issued after the last cut. */
  lemma CutNeedsNewTicket(w: World, e: Event)
    requires Inv(w) && Apply(w, e).p.window < w.p.window
    ensures e.Done? && e.i < |w.out| && w.cut <= w.out[e.i].number
    ensures Apply(w, e).cuts == w.cuts + 1 <= |w.log|
  {
    if e.Done? {
      assert TicketInv(w.p.epoch, w.cut, |w.log|, w.out[e.i]);
      CutEndsEpoch(w.p, w.out[e.i].ticket, e.bytes, e.outcome, e.now);
    }
  }

  /** Tickets issued before epoch e + 1, with the window cut at most once since. */
  predicate BatchInv(e: nat, window: int, cuts: nat, w: World) {
    && (forall i | 0 <= i < |w.out| :: w.out[i].ticket.epoch <= e)
    && PacerInv(w.p) && w.p.active == |w.out|
    && ((w.p.epoch == e && w.p.window >= window && w.cuts == cuts)
      || (w.p.epoch == e + 1 && w.p.window >= Max(1, window / 2) && w.cuts <= cuts + 1))
  }

  lemma {:induction false} BatchStep(e: nat, window: int, cuts: nat, w: World, events: seq<Event>)
    requires BatchInv(e, window, cuts, w) && forall k | 0 <= k < |events| :: events[k].Done?
    ensures BatchInv(e, window, cuts, After(w, events))
    decreases |events|
  {
    if events != [] {
      DoneKeepsBatch(e, window, cuts, w, events[0]);
      BatchStep(e, window, cuts, Apply(w, events[0]), events[1..]);
    }
  }

  lemma DoneKeepsBatch(e: nat, window: int, cuts: nat, w: World, d: Event)
    requires BatchInv(e, window, cuts, w) && d.Done?
    ensures BatchInv(e, window, cuts, Apply(w, d))
  {
    if d.i < |w.out| && d.now > 0.0 {
      CutEndsEpoch(w.p, w.out[d.i].ticket, d.bytes, d.outcome, d.now);
      FinishedKeepsInv(w.p, w.out[d.i].ticket, d.bytes, d.outcome, d.now);
    }
  }

  /** However many of the requests in flight fail, time out or are slow, together they cut the window once, and
      leave at least half of it. */
  lemma BatchCutsOnce(w: World, events: seq<Event>)
    requires Inv(w) && forall k | 0 <= k < |events| :: events[k].Done?
    ensures After(w, events).cuts <= w.cuts + 1
    ensures After(w, events).p.window >= Max(1, w.p.window / 2)
  {
    forall i | 0 <= i < |w.out| ensures w.out[i].ticket.epoch <= w.p.epoch {
      assert TicketInv(w.p.epoch, w.cut, |w.log|, w.out[i]);
    }
    BatchStep(w.p.epoch, w.p.window, w.cuts, w, events);
  }

  /** And it grows by one, for a prompt answer to a ticket of this epoch, never beyond what the rate needs. */
  lemma GrowthIsEarned(p: State, ticket: Ticket, bytes: nat, outcome: Outcome, now: real)
    requires PacerInv(p) && Finished(p, ticket, bytes, outcome, now).window > p.window
    ensures var q := Finished(p, ticket, bytes, outcome, now);
      && q.window == p.window + 1 <= RateWindow(q.rate, q.maximum)
      && outcome == Fine && ticket.epoch == p.epoch && now - ticket.started < 4.0 && p.windowProbeAfter <= now
  {
  }

  /** With nothing in flight and no time to wait for, every caller is served: the window never closes. */
  lemma IdlePacerServes(p: State, limit: int, now: real)
    requires PacerInv(p) && p.active == 0 && now >= Until(p)
    ensures Grants(p, limit, now)
  {
  }

  // ---------- the rate is kept ----------

  /** The time that the grants take at the rates at which they were given. */
  function Duration(log: seq<Grant>): real {
    if log == [] then 0.0 else Cost(log[0]) + Duration(log[1..])
  }

  function Bytes(log: seq<Grant>): nat {
    if log == [] then 0 else log[0].bytes + Bytes(log[1..])
  }

  /** From the first of some consecutive grants to the next one after them, at least that time has passed. */
  lemma {:induction false} RateIsKept(log: seq<Grant>, i: int, j: int)
    requires Paced(log) && 0 <= i <= j < |log|
    ensures log[i].time + Duration(log[i..j]) <= log[j].time
    decreases j - i
  {
    if i < j {
      assert log[i..j][1..] == log[i + 1..j];
      RateIsKept(log, i + 1, j);
    }
  }

  predicate RatesWithin(log: seq<Grant>, most: real) {
    forall k | 0 <= k < |log| :: 0.0 < log[k].rate <= most
  }

  lemma {:induction false} BytesAtMost(log: seq<Grant>, most: real)
    requires RatesWithin(log, most)
    ensures Bytes(log) as real <= most * Duration(log)
  {
    if log != [] {
      BytesAtMost(log[1..], most);
      ByteCost(log[0], most);
      Distribute(most, Cost(log[0]), Duration(log[1..]));
    }
  }

  lemma ByteCost(g: Grant, most: real)
    requires 0.0 < g.rate <= most
    ensures g.bytes as real <= most * Cost(g)
  {
    var cost := Cost(g);
    assert cost * g.rate == g.bytes as real;
    QuotientIsPositive(g.bytes as real, g.rate);
    Scale(cost, g.rate, most);
    assert cost * most == most * cost;
  }

  lemma Scale(c: real, a: real, b: real)
    requires c >= 0.0 && a <= b
    ensures c * a <= c * b
  {
  }

  lemma Distribute(m: real, a: real, b: real)
    ensures m * (a + b) == m * a + m * b
  {
  }

  lemma BytesFitTheTime(log: seq<Grant>, i: nat, j: nat, most: real)
    requires Paced(log) && i <= j < |log| && RatesWithin(log[i..j], most) && 0.0 <= most
    ensures Bytes(log[i..j]) as real <= most * (log[j].time - log[i].time)
  {
    RateIsKept(log, i, j);
    BytesFit(log[i..j], most, log[j].time - log[i].time);
  }

  lemma BytesFit(part: seq<Grant>, most: real, time: real)
    requires RatesWithin(part, most) && 0.0 <= most && Duration(part) <= time
    ensures Bytes(part) as real <= most * time
  {
    BytesAtMost(part, most);
    ScaleFurther(Bytes(part) as real, most, Duration(part), time);
  }

  lemma ScaleFurther(bytes: real, most: real, short: real, long: real)
    requires 0.0 <= most && bytes <= most * short && short <= long
    ensures bytes <= most * long
  {
    Scale(most, short, long);
  }

  /** In every run, the bytes asked for in any stretch of grants fit the time until the next grant at the
      highest rate in force. */
  lemma EveryRunKeepsTheRate(
      maximum: int, rate: real, probeAfter: real, events: seq<Event>, log: seq<Grant>, i: nat, j: nat, most: real)
    requires 2 <= maximum && (rate == 0.0 || rate >= 1024.0)
    requires log == After(Start(maximum, rate, probeAfter), events).log && 0.0 <= most
    requires i <= j < |log| && RatesWithin(log[i..j], most)
    ensures Bytes(log[i..j]) as real <= most * (log[j].time - log[i].time)
  {
    EveryRunIsPaced(maximum, rate, probeAfter, events);
    BytesFitTheTime(log, i, j, most);
  }

  lemma EveryRunIsPaced(maximum: int, rate: real, probeAfter: real, events: seq<Event>)
    requires 2 <= maximum && (rate == 0.0 || rate >= 1024.0)
    ensures Paced(After(Start(maximum, rate, probeAfter), events).log)
  {
    EveryRunKeepsInv(maximum, rate, probeAfter, events);
  }

  /** A flood wait on a ticket of the current epoch slows the pacer down, unless it is at the least rate
      already, and teaches it a rate if it had none. */
  lemma FloodSlows(p: State, ticket: Ticket, bytes: nat, seconds: int, now: real)
    requires PacerInv(p) && ticket.epoch == p.epoch
    ensures var q := Finished(p, ticket, bytes, Flood(seconds), now);
      q.learned && q.rate >= 1024.0 && (p.rate > 0.0 ==> q.rate <= Later(1024.0, p.rate * 0.9))
  {
  }
}
