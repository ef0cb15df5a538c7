/** The retry loop fetchWithRetry (telegram/media.go): it asks again after a failure, for less after a
    timeout, and puts the part together from what arrives. */
module RetryFetch {
  import opened Files

  const MAX_ATTEMPTS: nat := 20
  const LEAST: int := 4096

  /** What classifyError makes of an error; only a retryable one may be a timeout. */
  datatype Failure = Fatal | Canceled | Flood | Retry(timeout: bool) | Migrate

  datatype Outcome = Data(bytes: seq<Byte>) | Failed(failure: Failure)

  datatype Problem = Fatally | ContextDone | TooLong | Exhausted

  datatype Result = Success(bytes: seq<Byte>) | Error(problem: Problem)

  /** The world as the loop meets it: what the n-th fetch returns, and whether the context is done when the
      loop looks before that fetch or sleeps after it. */
  datatype World = World(fetch: (nat, Range, nat) -> Outcome, doneBefore: nat -> bool, doneAfter: nat -> bool)

  ghost predicate Faithful(fetch: (nat, Range, nat) -> Outcome, file: seq<Byte>) {
    forall n: nat, r: Range, attempt: nat | 0 <= r.offset && 0 < r.limit && fetch(n, r, attempt).Data? ::
      fetch(n, r, attempt).bytes == Slice(file, r.offset, r.limit)
  }

  /** A failure that the loop gets over: not fatal, and the context is alive when it sleeps after it. */
  ghost predicate IsSurvived(world: World, n: nat, outcome: Outcome) {
    outcome.Data? || outcome == Failed(Flood)
    || (outcome != Failed(Fatal) && outcome != Failed(Canceled) && !world.doneAfter(n + 1))
  }

  /** The fetches from `start` on fail, for these ranges, as tries of one piece. */
  ghost predicate IsStreak(fetch: (nat, Range, nat) -> Outcome, start: nat, tries: seq<Range>) {
    forall i | 0 <= i < |tries| :: FailsAt(fetch, start, tries, i)
  }

  ghost predicate FailsAt(fetch: (nat, Range, nat) -> Outcome, start: nat, tries: seq<Range>, i: int)
    requires 0 <= i < |tries|
  {
    0 <= tries[i].offset && 0 < tries[i].limit && fetch(start + i, tries[i], i).Failed?
  }

  ghost predicate NoLongStreak(fetch: (nat, Range, nat) -> Outcome) {
    forall start: nat, tries: seq<Range> | |tries| == MAX_ATTEMPTS :: !IsStreak(fetch, start, tries)
  }

  /** What comes is right, every failure can be got over, and 20 never come in a row. */
  ghost predicate Reliable(world: World, file: seq<Byte>) {
    && Faithful(world.fetch, file) && NoLongStreak(world.fetch)
    && (forall n: nat :: !world.doneBefore(n))
    && (forall n: nat, r: Range, attempt: nat | 0 <= r.offset && 0 < r.limit ::
          IsSurvived(world, n, world.fetch(n, r, attempt)))
  }

  /** Fetches that never fail are a special case. */
  lemma NeverFailingIsReliable(world: World, file: seq<Byte>)
    requires Faithful(world.fetch, file) && (forall n: nat :: !world.doneBefore(n))
    requires forall n: nat, r: Range, attempt: nat | 0 <= r.offset && 0 < r.limit :: world.fetch(n, r, attempt).Data?
    ensures Reliable(world, file)
  {
    forall start: nat, tries: seq<Range> | |tries| == MAX_ATTEMPTS ensures !IsStreak(world.fetch, start, tries) {
      assert !FailsAt(world.fetch, start, tries, 0);
    }
  }

  /** Such a world exists for every file. */
  lemma ReliableWorld(file: seq<Byte>) returns (world: World)
    ensures Reliable(world, file)
  {
    world := World(
      (n: nat, r: Range, attempt: nat) =>
        if 0 <= r.offset && 0 < r.limit then Data(Slice(file, r.offset, r.limit)) else Failed(Fatal),
      (n: nat) => false, (n: nat) => false);
    NeverFailingIsReliable(world, file);
  }

  /** The range lies inside the part, on the same grid if the part does. */
  ghost predicate Within(r: Range, part: Range) {
    && part.offset <= r.offset && 0 < r.limit && r.offset + r.limit <= part.offset + part.limit
    && (OnKilobyte(part.offset) && OnKilobyte(part.limit) ==> OnKilobyte(r.offset) && OnKilobyte(r.limit))
  }

  ghost predicate AllWithin(requests: seq<Range>, part: Range) {
    forall r | r in requests :: Within(r, part)
  }

  lemma OneMoreWithin(requests: seq<Range>, request: Range, part: Range)
    requires AllWithin(requests, part) && Within(request, part)
    ensures AllWithin(requests + [request], part)
  {
  }

  function Pieces(limit: int): int {
    (limit + LEAST - 1) / LEAST
  }

  /** A timeout halves the request, down to the least size. */
  function Backoff(request: Range, failure: Failure): Range {
    if failure != Retry(true) || request.limit <= LEAST then request
    else request.(limit := Half(request.limit))
  }

  /** A failure that nothing is tried after. */
  ghost predicate IsEnd(outcome: Outcome) {
    outcome == Failed(Fatal) || outcome == Failed(Canceled)
  }

  /** What was asked: the n-th fetch asked for requests[n], as try number tries[n] of its piece; `streak` are the
      requests that have failed since the last answer. */
  datatype Trace = Trace(requests: seq<Range>, tries: seq<nat>, streak: seq<Range>)

  function Traced(t: Trace, r: Range, attempt: nat, failed: bool): Trace {
    Trace(t.requests + [r], t.tries + [attempt], if failed then t.streak + [r] else [])
  }

  ghost predicate EndsWith(fetch: (nat, Range, nat) -> Outcome, t: Trace, failure: Failure) {
    var last := |t.requests| - 1;
    0 <= last && |t.tries| == |t.requests| && fetch(last, t.requests[last], t.tries[last]) == Failed(failure)
  }

  /** All requests were inside the part, only the last fetch may have ended the loop, and then it did. */
  ghost predicate IsVerdict(world: World, part: Range, result: Result, t: Trace) {
    && AllWithin(t.requests, part)
    && |t.tries| == |t.requests|
    && (forall n | 0 <= n < |t.requests| - 1 :: !IsEnd(world.fetch(n, t.requests[n], t.tries[n])))
    && (result == Error(Fatally) <==> EndsWith(world.fetch, t, Fatal))
    && (EndsWith(world.fetch, t, Canceled) ==> result == Error(ContextDone))
  }

  /** The loop goes on, after `attempt` failures in a row. */
  ghost predicate IsTrace(world: World, part: Range, t: Trace, attempt: nat) {
    && AllWithin(t.requests, part)
    && |t.tries| == |t.requests|
    && (forall n | 0 <= n < |t.requests| :: !IsEnd(world.fetch(n, t.requests[n], t.tries[n])))
    && |t.streak| == attempt <= |t.requests| && IsStreak(world.fetch, |t.requests| - attempt, t.streak)
  }

  /** The variables of the loop. */
  datatype Loop = Loop(request: Range, started: bool, assembled: seq<Byte>, attempt: nat)

  datatype Step = Stop(result: Result) | Continue(next: Loop)

  ghost predicate LoopInv(world: World, part: Range, file: seq<Byte>, s: Loop, t: Trace) {
    && s.attempt <= MAX_ATTEMPTS && (!s.started ==> s.assembled == [])
    && Shape(part, s.request, s.started, |s.assembled|)
    && Gathered(world.fetch, file, part.offset, s.assembled, |s.assembled|)
    && IsTrace(world, part, t, s.attempt)
  }

  /** What may be returned. */
  ghost predicate IsFinal(world: World, part: Range, file: seq<Byte>, result: Result, t: Trace) {
    && (result.Success? ==>
      |result.bytes| <= part.limit && Gathered(world.fetch, file, part.offset, result.bytes, part.limit))
    && (result.Error? ==> !Reliable(world, file))
    && IsVerdict(world, part, result, t)
  }

  /** Any mixture of failures, floods, timeouts and partial answers: success means the file's bytes, it comes if
      all failures can be got over, and the loop stops within 20 fetches for each 4096 bytes, none of them outside
      the part.  A fatal or cancelled fetch is the last one. */
  method FetchWithRetry(part: Range, world: World, ghost file: seq<Byte>) returns (result: Result, ghost trace: Trace)
    requires 0 <= part.offset && 0 < part.limit
    ensures IsFinal(world, part, file, result, trace)
    ensures |trace.requests| <= MAX_ATTEMPTS * Pieces(part.limit)
  {
    trace := Trace([], [], []);
    var s := Loop(part, false, [], 0);
    var n := 0;
    ghost var pieces := 0;
    while s.attempt < MAX_ATTEMPTS
      invariant n == |trace.requests| && LoopInv(world, part, file, s, trace)
      invariant LEAST * pieces <= |s.assembled| && n <= MAX_ATTEMPTS * pieces + s.attempt
      decreases part.limit - |s.assembled|, MAX_ATTEMPTS - s.attempt
    {
      EnoughPieces(part.limit, |s.assembled|, pieces, s.attempt, n);
      var step;
      step, trace := Round(part, s, n, world, trace, file);
      if step.Stop? { return step.result, trace; }
      s, n := step.next, n + 1;
      if s.attempt == 0 { pieces := pieces + 1; }
    }
    LongStreak(world, file, n - s.attempt, trace.streak);
    NothingEnded(world, part, trace, s.attempt);
    return Error(Exhausted), trace;
  }

  /** One round of the loop. */
  method Round(part: Range, s: Loop, n: nat, world: World, ghost t: Trace, ghost file: seq<Byte>)
    returns (step: Step, ghost trace: Trace)
    requires 0 <= part.offset && s.attempt < MAX_ATTEMPTS && n == |t.requests| && LoopInv(world, part, file, s, t)
    ensures |trace.requests| <= n + 1
    ensures step.Stop? ==> IsFinal(world, part, file, step.result, trace)
    ensures step.Continue? ==> |trace.requests| == n + 1 && LoopInv(world, part, file, step.next, trace)
    ensures step.Continue? ==>
      if step.next.attempt == 0 then |s.assembled| + LEAST <= |step.next.assembled|
      else step.next.attempt == s.attempt + 1 && step.next.assembled == s.assembled
  {
    if world.doneBefore(n) {
      NothingEnded(world, part, t, s.attempt);
      return Stop(Error(ContextDone)), t;
    }
    var request, outcome;
    request, outcome, trace := Ask(part, s.request, s.started, |s.assembled|, n, s.attempt, world, t, file);
    match outcome
    case Data(bytes) =>
      if |bytes| > request.limit { return Stop(Error(TooLong)), trace; }
      var complete, assembled, next :=
        TakePiece(part, request, s.started, s.assembled, bytes, world.fetch, n, s.attempt, file);
      if complete { return Stop(Success(assembled)), trace; }
      return Continue(Loop(next, true, assembled, 0)), trace;
    case Failed(failure) =>
      if failure == Fatal { return Stop(Error(Fatally)), trace; }
      if failure == Canceled { return Stop(Error(ContextDone)), trace; }
      var attempt := s.attempt + 1;
      if attempt == MAX_ATTEMPTS { return Continue(s.(request := request, attempt := attempt)), trace; }
      BackoffKeepsShape(part, request, s.started, |s.assembled|, failure);
      if failure != Flood && world.doneAfter(n + 1) { return Stop(Error(ContextDone)), trace; }
      return Continue(s.(request := Backoff(request, failure), attempt := attempt)), trace;
  }

  /** One try, cut to what is left of the part. */
  method Ask(part: Range, request: Range, started: bool, done: nat, n: nat, attempt: nat, world: World,
             ghost trace: Trace, ghost file: seq<Byte>)
    returns (asked: Range, outcome: Outcome, ghost next: Trace)
    requires 0 <= part.offset && Shape(part, request, started, done)
    requires n == |trace.requests| && IsTrace(world, part, trace, attempt)
    ensures Shape(part, asked, started, done) && asked.limit <= part.limit - done
    ensures outcome == world.fetch(n, asked, attempt) && next == Traced(trace, asked, attempt, outcome.Failed?)
    ensures Follows(world, file, part, n, asked, outcome, attempt, next)
  {
    TrimKeepsShape(part, request, started, done);
    asked := request;
    if started && part.limit - done < request.limit { asked := request.(limit := part.limit - done); }
    outcome := world.fetch(n, asked, attempt);
    next := Traced(trace, asked, attempt, outcome.Failed?);
    OneMoreFetch(world, file, part, trace, asked, attempt);
  }

  /** An answer is put behind what has arrived: is the part complete, and if not, what is asked for next? */
  method TakePiece(part: Range, request: Range, started: bool, before: seq<Byte>, bytes: seq<Byte>,
                   ghost fetch: (nat, Range, nat) -> Outcome, ghost n: nat, ghost attempt: nat, ghost file: seq<Byte>)
    returns (complete: bool, assembled: seq<Byte>, next: Range)
    requires 0 <= part.offset && Shape(part, request, started, |before|) && (!started ==> before == [])
    requires |bytes| <= request.limit <= part.limit - |before| && fetch(n, request, attempt) == Data(bytes)
    requires Gathered(fetch, file, part.offset, before, |before|)
    ensures complete ==> |assembled| <= part.limit && Gathered(fetch, file, part.offset, assembled, part.limit)
    ensures !complete ==> Shape(part, next, true, |assembled|) && |before| + LEAST <= |assembled|
    ensures !complete ==> Gathered(fetch, file, part.offset, assembled, |assembled|)
  {
    GatheredAfter(part, request, before, bytes, fetch, n, attempt, file);
    next, assembled := request, before + bytes;
    if request.limit == part.limit && !started {
      assert before + bytes == bytes;
      return true, bytes, next;
    }
    PieceKeepsShape(part, request, started, |before|);
    if |bytes| < request.limit || |assembled| == part.limit { return true, assembled, next; }
    next := request.(offset := request.offset + |bytes|);
    return false, assembled, next;
  }

  lemma NothingEnded(world: World, part: Range, t: Trace, attempt: nat)
    requires IsTrace(world, part, t, attempt)
    ensures forall result | result != Error(Fatally) :: IsVerdict(world, part, result, t)
  {
    var last := |t.requests| - 1;
    if 0 <= last { assert !IsEnd(world.fetch(last, t.requests[last], t.tries[last])); }
  }

  /** What the loop may return after one fetch more, and when it goes on. */
  ghost predicate Follows(world: World, file: seq<Byte>, part: Range, n: nat, r: Range, outcome: Outcome, attempt: nat,
                          next: Trace) {
    && (outcome == Failed(Fatal) ==> IsVerdict(world, part, Error(Fatally), next))
    && (outcome == Failed(Canceled) ==> IsVerdict(world, part, Error(ContextDone), next))
    && (!IsEnd(outcome) ==> IsTrace(world, part, next, if outcome.Failed? then attempt + 1 else 0))
    && (!IsEnd(outcome) ==> forall result | result != Error(Fatally) :: IsVerdict(world, part, result, next))
    && (!IsSurvived(world, n, outcome) ==> !Reliable(world, file))
    && (outcome.Data? && |outcome.bytes| > r.limit ==> !Reliable(world, file))
  }

  lemma OneMoreFetch(world: World, file: seq<Byte>, part: Range, t: Trace, r: Range, attempt: nat)
    requires IsTrace(world, part, t, attempt) && Within(r, part) && 0 <= part.offset
    ensures var outcome := world.fetch(|t.requests|, r, attempt);
      Follows(world, file, part, |t.requests|, r, outcome, attempt, Traced(t, r, attempt, outcome.Failed?))
  {
    var n, outcome := |t.requests|, world.fetch(|t.requests|, r, attempt);
    var next := Traced(t, r, attempt, outcome.Failed?);
    OneMoreWithin(t.requests, r, part);
    if !IsEnd(outcome) {
      if outcome.Failed? {
        assert next.streak[..attempt] == t.streak;
        StreakGrows(world.fetch, n - attempt, next.streak);
      }
      assert IsTrace(world, part, next, if outcome.Failed? then attempt + 1 else 0);
      NothingEnded(world, part, next, if outcome.Failed? then attempt + 1 else 0);
    }
  }

  lemma StreakGrows(fetch: (nat, Range, nat) -> Outcome, start: nat, streak: seq<Range>)
    requires |streak| > 0 && IsStreak(fetch, start, streak[..|streak| - 1])
    requires FailsAt(fetch, start, streak, |streak| - 1)
    ensures IsStreak(fetch, start, streak)
  {
    var before := streak[..|streak| - 1];
    forall i | 0 <= i < |streak| ensures FailsAt(fetch, start, streak, i) {
      if i < |before| { assert FailsAt(fetch, start, before, i); }
    }
  }

  lemma LongStreak(world: World, file: seq<Byte>, start: nat, streak: seq<Range>)
    requires |streak| == MAX_ATTEMPTS && IsStreak(world.fetch, start, streak)
    ensures !Reliable(world, file)
  {
  }

  /** The request asks for what follows the `done` bytes, and for little only when little is left. */
  ghost predicate Shape(part: Range, request: Range, started: bool, done: int) {
    InOrder(part, request, started, done) && OnGrid(part, request, done)
  }

  ghost predicate InOrder(part: Range, request: Range, started: bool, done: int) {
    && 0 <= done < part.limit && request.offset == part.offset + done && (!started ==> done == 0)
    && 0 < request.limit <= part.limit && (LEAST <= request.limit || part.limit - done <= request.limit)
  }

  ghost predicate OnGrid(part: Range, request: Range, done: int) {
    OnKilobyte(part.offset) && OnKilobyte(part.limit) ==> OnKilobyte(request.limit) && OnKilobyte(done)
  }

  predicate OnKilobyte(x: int) {
    x % 1024 == 0
  }

  lemma KilobytesAdd(a: int, b: int)
    requires OnKilobyte(a) && OnKilobyte(b)
    ensures OnKilobyte(a + b) && OnKilobyte(a - b)
  {
  }

  /** A request is cut to what is left. */
  function Trimmed(part: Range, request: Range, started: bool, done: int): Range {
    var left := part.limit - done;
    if started && left < request.limit then request.(limit := left) else request
  }

  lemma TrimKeepsOrder(part: Range, request: Range, started: bool, done: int)
    requires InOrder(part, request, started, done)
    ensures var next := Trimmed(part, request, started, done);
      && InOrder(part, next, started, done) && next.limit <= part.limit - done
      && part.offset <= next.offset && next.offset + next.limit <= part.offset + part.limit
  {
  }

  lemma TrimKeepsGrid(part: Range, request: Range, started: bool, done: int)
    requires OnGrid(part, request, done) && request.offset == part.offset + done
    ensures var next := Trimmed(part, request, started, done);
      && OnGrid(part, next, done)
      && (OnKilobyte(part.offset) && OnKilobyte(part.limit) ==> OnKilobyte(next.offset) && OnKilobyte(next.limit))
  {
    if OnKilobyte(part.offset) && OnKilobyte(part.limit) {
      KilobytesAdd(part.offset, done);
      KilobytesAdd(part.limit, done);
    }
  }

  lemma TrimKeepsShape(part: Range, request: Range, started: bool, done: int)
    requires 0 <= part.offset && Shape(part, request, started, done)
    ensures var next := Trimmed(part, request, started, done);
      Shape(part, next, started, done) && next.limit <= part.limit - done && Within(next, part)
  {
    TrimKeepsOrder(part, request, started, done);
    TrimKeepsGrid(part, request, started, done);
  }

  lemma PieceKeepsShape(part: Range, request: Range, started: bool, done: int)
    requires Shape(part, request, started, done) && request.limit <= part.limit - done
    ensures done + request.limit < part.limit ==>
      LEAST <= request.limit
      && Shape(part, request.(offset := request.offset + request.limit), true, done + request.limit)
  {
    if OnKilobyte(part.offset) && OnKilobyte(part.limit) { KilobytesAdd(done, request.limit); }
  }

  lemma BackoffKeepsShape(part: Range, request: Range, started: bool, done: int, failure: Failure)
    requires Shape(part, request, started, done)
    ensures Shape(part, Backoff(request, failure), started, done)
  {
    if request.limit > LEAST { HalfKeepsOrder(request.limit); }
    HalfOnKilobyte(request.limit);
  }

  /** Half of a request, in multiples of the least size. */
  function Half(limit: int): int {
    var half := limit / 2 / LEAST * LEAST;
    if half > LEAST then half else LEAST
  }

  lemma HalfKeepsOrder(limit: int)
    requires LEAST < limit
    ensures LEAST <= Half(limit) <= limit
  {
  }

  lemma HalfOnKilobyte(limit: int)
    ensures OnKilobyte(Half(limit))
  {
    var k := limit / 2 / LEAST;
    assert k * LEAST == 1024 * (4 * k);
  }

  lemma EnoughPieces(limit: int, done: int, pieces: int, attempt: int, n: int)
    requires 0 <= done < limit && LEAST * pieces <= done && 0 <= attempt < MAX_ATTEMPTS
    requires n <= MAX_ATTEMPTS * pieces + attempt
    ensures n + 1 <= MAX_ATTEMPTS * Pieces(limit)
  {
    assert pieces + 1 <= Pieces(limit);
  }

  /** With faithful fetches, `bytes` is what the file holds in a range. */
  ghost predicate Gathered(fetch: (nat, Range, nat) -> Outcome, file: seq<Byte>, offset: int, bytes: seq<Byte>,
                           limit: int) {
    Faithful(fetch, file) && 0 <= offset && 0 <= limit ==> bytes == Slice(file, offset, limit)
  }

  /** What one answer adds: a full one continues the part, a short one completes it. */
  lemma GatheredAfter(part: Range, request: Range, assembled: seq<Byte>, bytes: seq<Byte>,
                      fetch: (nat, Range, nat) -> Outcome, n: nat, attempt: nat, file: seq<Byte>)
    requires 0 <= part.offset && request.offset == part.offset + |assembled|
    requires 0 < request.limit <= part.limit - |assembled| && fetch(n, request, attempt) == Data(bytes)
    requires |bytes| <= request.limit && Gathered(fetch, file, part.offset, assembled, |assembled|)
    ensures |bytes| == request.limit ==> Gathered(fetch, file, part.offset, assembled + bytes, |assembled + bytes|)
    ensures |bytes| < request.limit || |assembled + bytes| == part.limit
      ==> Gathered(fetch, file, part.offset, assembled + bytes, part.limit)
  {
    if Faithful(fetch, file) {
      SliceSplits(file, part.offset, |assembled|, request.limit);
      if |bytes| < request.limit {
        ShortSliceIsAll(file, part.offset, |assembled| + request.limit, part.limit);
      }
    }
  }
}
