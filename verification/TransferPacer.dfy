/** The transfer pacer (telegram/media.go): how many requests may be in flight, how fast they may start, and
    how both are cut when the server complains.  Times are seconds after the zero time, rates bytes per
    second, both without rounding. */
module TransferPacer {

  const CAP: real := 20971520.0  // UploadCap20M

  datatype Ticket = Ticket(epoch: nat, started: real)

  /** What became of a request, as finishAt tells errors apart. */
  datatype Outcome = Fine | Flood(seconds: int) | Backoff | Broken

  /** `changed` stands for the channel that finishAt closes and replaces. */
  datatype State = State(
    changed: nat, epoch: nat, active: int, window: int, maximum: int, rate: real, learned: bool,
    next: real, blockedUntil: real, probeAfter: real, windowProbeAfter: real,
    sampleStart: real, sampleBytes: int, peakRate: real, requests: nat, floods: nat, failed: nat, slowResponses: nat)

  function Max(a: int, b: int): int { if a < b then b else a }

  function Min(a: int, b: int): int { if a < b then a else b }

  function Later(a: real, b: real): real { if a < b then b else a }

  function Lesser(a: real, b: real): real { if a < b then a else b }

  function Ceil(x: real): int { -((-x).Floor) }

  /** A new pacer; the zero time is 0.0. */
  function New(maximum: int, rate: real, probeAfter: real): State {
    State(0, 0, 0, 2, maximum, rate, false, 0.0, 0.0, probeAfter, 0.0, 0.0, 0, 0.0, 0, 0, 0, 0)
  }

  function RateWindow(rate: real, maximum: int): int {
    if rate <= 0.0 then maximum else Min(maximum, Max(2, Ceil(rate / CAP * 12.0)))
  }

  // ---------- acquire ----------

  /** How many requests may be in flight for a caller with this limit; zero or less means none of its own. */
  function Allowed(p: State, limit: int): int {
    var window := Min(p.window, RateWindow(p.rate, p.maximum));
    if limit > 0 then Min(window, limit) else window
  }

  function Until(p: State): real {
    Later(p.next, p.blockedUntil)
  }

  predicate Grants(p: State, limit: int, now: real) {
    p.active < Allowed(p, limit) && now >= Until(p)
  }

  function Granted(p: State, bytes: nat, now: real): State {
    p.(sampleStart := if p.sampleStart == 0.0 then now else p.sampleStart,
       next := if p.rate > 0.0 then now + bytes as real / p.rate else p.next,
       active := p.active + 1, requests := p.requests + 1)
  }

  // ---------- finishAt ----------

  function Wait(seconds: int): real {
    Max(1, seconds) as real
  }

  /** What the link is believed to carry. */
  function Estimate(peakRate: real, sampleStart: real, sampleBytes: int, now: real): real {
    var seen := if sampleStart != 0.0 && now > sampleStart
      then Later(peakRate, sampleBytes as real / Later(0.25, now - sampleStart)) else peakRate;
    if seen == 0.0 then 8388608.0 else seen
  }

  /** Less than that, the less the longer the server wants to wait. */
  function Guess(estimate: real, wait: real): real
    requires wait > 0.0
  {
    estimate * (Later(0.5, 5.0 / (5.0 + wait)) * 0.95)
  }

  /** The rate after a flood wait: a first guess, or a tenth less. */
  function FloodRate(learned: bool, rate: real, estimate: real, wait: real): real
    requires wait > 0.0
  {
    Later(1024.0,
      if !learned && rate == 0.0 then Guess(estimate, wait)
      else if !learned && estimate < rate * 0.75 then Lesser(rate * 0.9, Guess(estimate, wait))
      else rate * 0.9)
  }

  function Flooded(p: State, ticket: Ticket, wait: real, now: real): State
    requires wait > 0.0
  {
    var q := p.(floods := p.floods + 1, blockedUntil := Later(p.blockedUntil, now + wait));
    var r := if ticket.epoch == p.epoch then Slowed(q, wait, now) else q;
    r.(probeAfter := q.blockedUntil + 30.0, windowProbeAfter := q.blockedUntil + 15.0)
  }

  /** A new epoch with a lower rate and a smaller window. */
  function Slowed(p: State, wait: real, now: real): State
    requires wait > 0.0
  {
    p.(epoch := p.epoch + 1, slowResponses := 0,
       rate := FloodRate(p.learned, p.rate, Estimate(p.peakRate, p.sampleStart, p.sampleBytes, now), wait),
       learned := true, window := Max(1, p.window - 1))
  }

  /** A new epoch with half the window. */
  function Halved(p: State, now: real): State {
    p.(epoch := p.epoch + 1, slowResponses := 0, window := Max(1, p.window / 2), windowProbeAfter := now + 15.0)
  }

  function Sampled(p: State, bytes: nat, now: real): State {
    var total := p.sampleBytes + bytes;
    var elapsed := now - p.sampleStart;
    if elapsed < 1.0 then p.(sampleBytes := total) else Observed(p, total as real / elapsed, now)
  }

  /** A new sample begins, and a rate that the link nearly fills is raised. */
  function Observed(p: State, observed: real, now: real): State {
    var faster := p.rate > 0.0 && observed >= p.rate * 0.85 && now >= p.probeAfter;
    p.(peakRate := Later(p.peakRate * 0.95, observed), sampleStart := now, sampleBytes := 0,
       rate := if faster then p.rate * 1.02 else p.rate,
       probeAfter := if faster then now + (if p.learned then 30.0 else 5.0) else p.probeAfter)
  }

  function Timed(p: State, ticket: Ticket, now: real): State {
    var latency := now - ticket.started;
    if ticket.epoch != p.epoch then p
    else if latency > 8.0 then
      var q := p.(slowResponses := p.slowResponses + 1);
      if q.slowResponses >= Min(3, p.window) && p.window > 1 then Halved(q, now) else q
    else if latency < 4.0 && p.window < RateWindow(p.rate, p.maximum) && now >= p.windowProbeAfter then
      p.(slowResponses := 0, window := p.window + 1,
         windowProbeAfter := if p.windowProbeAfter == 0.0 then 0.0 else now + 1.0)
    else p.(slowResponses := 0)
  }

  /** One request less in flight, and everybody who waits is woken. */
  function Ended(p: State, outcome: Outcome): State {
    p.(changed := p.changed + 1, active := p.active - 1, failed := if outcome == Fine then p.failed else p.failed + 1)
  }

  function Finished(p: State, ticket: Ticket, bytes: nat, outcome: Outcome, now: real): State {
    var q := Ended(p, outcome);
    match outcome
    case Flood(seconds) => Flooded(q, ticket, Wait(seconds), now)
    case Backoff => if ticket.epoch == p.epoch then Halved(q, now) else q
    case Broken => q
    case Fine => Timed(Sampled(q, bytes, now), ticket, now)
  }

  /** The pacer itself; its methods are what runs under its lock. */
  class Pacer {
    var changed: nat
    var epoch: nat
    var active: int
    var window: int
    var maximum: int
    var rate: real
    var learned: bool
    var next: real
    var blockedUntil: real
    var probeAfter: real
    var windowProbeAfter: real
    var sampleStart: real
    var sampleBytes: int
    var peakRate: real
    var requests: nat
    var floods: nat
    var failed: nat
    var slowResponses: nat

    ghost function View(): State
      reads this
    {
      State(changed, epoch, active, window, maximum, rate, learned, next, blockedUntil, probeAfter, windowProbeAfter,
            sampleStart, sampleBytes, peakRate, requests, floods, failed, slowResponses)
    }

    constructor (maximum: int, rate: real, probeAfter: real)
      ensures View() == New(maximum, rate, probeAfter)
    {
      changed, epoch, active, window, learned := 0, 0, 0, 2, false;
      this.maximum, this.rate, this.probeAfter := maximum, rate, probeAfter;
      next, blockedUntil, windowProbeAfter, sampleStart, peakRate := 0.0, 0.0, 0.0, 0.0, 0.0;
      sampleBytes, requests, floods, failed, slowResponses := 0, 0, 0, 0, 0;
    }

    /** One round of acquire's loop: a ticket, or the time to wait for on the channel `changed`. */
    method TryAcquire(bytes: nat, limit: int, now: real) returns (ok: bool, ticket: Ticket, until: real)
      modifies this
      ensures ok == Grants(old(View()), limit, now) && until == Until(old(View()))
      ensures ok ==> ticket == Ticket(old(epoch), now)
      ensures View() == if ok then Granted(old(View()), bytes, now) else old(View())
    {
      until := next;
      if blockedUntil > until { until := blockedUntil; }
      var allowed := Min(window, RateWindow(rate, maximum));
      if limit > 0 { allowed := Min(allowed, limit); }
      ticket := Ticket(epoch, now);
      ok := active < allowed && !(now < until);
      if ok {
        if sampleStart == 0.0 { sampleStart := now; }
        if rate > 0.0 { next := now + bytes as real / rate; }
        active := active + 1;
        requests := requests + 1;
      }
    }

    method FinishAt(ticket: Ticket, bytes: nat, outcome: Outcome, now: real)
      modifies this
      ensures View() == Finished(old(View()), ticket, bytes, outcome, now)
    {
      Leave(outcome);
      match outcome
      case Flood(seconds) => AfterFlood(ticket, Wait(seconds), now);
      case Backoff =>
        if ticket.epoch == epoch { Halve(now); }
      case Broken =>
      case Fine => AfterSuccess(ticket, bytes, now);
    }

    method Leave(outcome: Outcome)
      modifies this
      ensures View() == Ended(old(View()), outcome)
    {
      active := active - 1;
      if outcome != Fine { failed := failed + 1; }
      changed := changed + 1;
    }

    method AfterSuccess(ticket: Ticket, bytes: nat, now: real)
      modifies this
      ensures View() == Timed(Sampled(old(View()), bytes, now), ticket, now)
    {
      Sample(bytes, now);
      Measure(ticket, now);
    }

    method Halve(now: real)
      modifies this
      ensures View() == Halved(old(View()), now)
    {
      epoch, slowResponses := epoch + 1, 0;
      window := Max(1, window / 2);
      windowProbeAfter := now + 15.0;
    }

    method AfterFlood(ticket: Ticket, wait: real, now: real)
      requires wait > 0.0
      modifies this
      ensures View() == Flooded(old(View()), ticket, wait, now)
    {
      floods := floods + 1;
      var until := now + wait;
      if until > blockedUntil { blockedUntil := until; }
      if ticket.epoch == epoch { CutForFlood(wait, now); }
      probeAfter := blockedUntil + 30.0;
      windowProbeAfter := blockedUntil + 15.0;
    }

    method CutForFlood(wait: real, now: real)
      requires wait > 0.0
      modifies this
      ensures View() == Slowed(old(View()), wait, now)
    {
      CutRate(wait, now);
      epoch, slowResponses := epoch + 1, 0;
      window := Max(1, window - 1);
    }

    method CutRate(wait: real, now: real)
      requires wait > 0.0
      modifies this`rate, this`learned
      ensures learned
      ensures rate == FloodRate(old(learned), old(rate), Estimate(peakRate, sampleStart, sampleBytes, now), wait)
    {
      if !learned {
        var estimate := peakRate;
        if sampleStart != 0.0 && now > sampleStart {
          estimate := Later(estimate, sampleBytes as real / Later(0.25, now - sampleStart));
        }
        if estimate == 0.0 { estimate := 8388608.0; }
        var slower := estimate < rate * 0.75;
        estimate := Guess(estimate, wait);
        if rate == 0.0 {
          rate := estimate;
        } else {
          rate := rate * 0.9;
          if slower { rate := Lesser(rate, estimate); }
        }
        learned := true;
      } else {
        rate := rate * 0.9;
      }
      rate := Later(1024.0, rate);
    }

    method Sample(bytes: nat, now: real)
      modifies this
      ensures View() == Sampled(old(View()), bytes, now)
    {
      sampleBytes := sampleBytes + bytes;
      var elapsed := now - sampleStart;
      if elapsed >= 1.0 { Observe(sampleBytes as real / elapsed, now); }
    }

    method Observe(observed: real, now: real)
      modifies this
      ensures View() == Observed(old(View()), observed, now)
    {
      peakRate := Later(peakRate * 0.95, observed);
      if rate > 0.0 && observed >= rate * 0.85 && !(now < probeAfter) {
        rate := rate * 1.02;
        var interval := 5.0;
        if learned { interval := 30.0; }
        probeAfter := now + interval;
      }
      sampleStart, sampleBytes := now, 0;
    }

    method Measure(ticket: Ticket, now: real)
      modifies this
      ensures View() == Timed(old(View()), ticket, now)
    {
      if ticket.epoch != epoch { return; }
      var latency := now - ticket.started;
      if latency > 8.0 {
        slowResponses := slowResponses + 1;
        if slowResponses >= Min(3, window) && window > 1 { Halve(now); }
        return;
      }
      slowResponses := 0;
      if latency < 4.0 && window < RateWindow(rate, maximum) && !(now < windowProbeAfter) {
        window := window + 1;
        if windowProbeAfter != 0.0 { windowProbeAfter := now + 1.0; }
      }
    }
  }
}
