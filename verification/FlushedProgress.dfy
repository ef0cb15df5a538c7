/** What a flush of the saved progress is for (telegram/media.go): the parts that were written before it are
    on disk as done after it, survive every crash, and are not fetched again by the download that resumes.
    The steps are those of ParallelDownload; what is asked of a run is said in terms of its events. */
module FlushedProgress {
  import opened Files
  import opened Parts
  import Resume = ResumeState
  import opened ParallelDownload
  import opened StartingOver

  /** The state after the first `k` events. */
  ghost function At(job: Job, t0: State, events: seq<Event>, k: nat): State
    requires ValidJob(job) && k <= |events|
  {
    After(job, t0, events[..k])
  }

  lemma {:induction false} OneMoreEvent(job: Job, t: State, events: seq<Event>, e: Event)
    requires ValidJob(job)
    ensures After(job, t, events + [e]) == Apply(job, After(job, t, events), e)
    decreases |events|
  {
    if events == [] {
      assert events + [e] == [e] && [e][1..] == [];
    } else {
      assert (events + [e])[1..] == events[1..] + [e];
      OneMoreEvent(job, Apply(job, t, events[0]), events[1..], e);
    }
  }

  lemma AtNext(job: Job, t0: State, events: seq<Event>, k: nat)
    requires ValidJob(job) && k < |events|
    ensures At(job, t0, events, k + 1) == Apply(job, At(job, t0, events, k), events[k])
  {
    assert events[..k + 1] == events[..k] + [events[k]];
    OneMoreEvent(job, t0, events[..k], events[k]);
  }

  // ---------- what a run must look like ----------

  /** A step of a download under way: no crash, and no download begins or is tidied up. */
  predicate Within(e: Event) {
    e.WriteBack? || e.Flush? || e.Main? || e.Work?
  }

  predicate AllWithin(events: seq<Event>, i: nat, j: nat)
    requires i <= j <= |events|
  {
    forall k | i <= k < j :: Within(events[k])
  }

  /** The flusher takes the lock, syncs and writes; everybody else may do anything in between. */
  ghost predicate FlushRuns(job: Job, t0: State, events: seq<Event>, a: nat, b: nat, c: nat)
    requires ValidJob(job)
  {
    && a < b < c < |events|
    && events[a] == Flush(Acquire) && events[b] == Flush(Sync) && events[c] == Flush(Write)
    && At(job, t0, events, a).lock == Free
    && forall k | a < k < c && k != b :: Within(events[k]) && !events[k].Flush?
  }

  /** Worker `w` writes part `p` at step i, counts it at step j and marks it at step k, in a download with
      resume, before step `a`. */
  ghost predicate Stores(job: Job, t0: State, events: seq<Event>, w: nat, p: int, i: nat, j: nat, k: nat, a: nat)
    requires ValidJob(job)
  {
    && i < j < k < a <= |events|
    && events[i] == Work(w, Written) && events[j] == Work(w, Counted) && events[k] == Work(w, Marked)
    && At(job, t0, events, k).lock == Free
    && (forall m | i < m < k && m != j :: !IsStepOf(events[m], w))
    && AllWithin(events, i, a)
    && var t := At(job, t0, events, i);
      t.resuming && t.run.Running? && w < |t.run.s.workers| && t.run.s.workers[w].Writing?
      && t.run.s.workers[w].part == p
  }

  predicate IsStepOf(e: Event, w: nat) {
    e.Work? && e.w == w
  }

  ghost predicate StoredBefore(job: Job, t0: State, events: seq<Event>, p: int, a: nat)
    requires ValidJob(job)
  {
    exists w: nat, i: nat, j: nat, k: nat :: Stores(job, t0, events, w, p, i, j, k, a)
  }

  // ---------- a part that is written gets marked ----------

  ghost predicate HasHands(t: State, w: nat, me: Worker) {
    t.resuming && t.run.Running? && w < |t.run.s.workers| && t.run.s.workers[w] == me
  }

  lemma OthersLeaveHands(job: Job, t: State, e: Event, w: nat, me: Worker)
    requires ValidJob(job) && Within(e) && !IsStepOf(e, w) && HasHands(t, w, me) && me != Gone
    ensures HasHands(Apply(job, t, e), w, me)
  {
    match e
    case Flush(step) =>
    case Main(step) => MainLeavesHands(job, t, step, w, me);
    case WriteBack(x) =>
    case Work(v, step) => if v < |t.run.s.workers| { WorkLeavesHands(job, t, v, step, w, me); }
  }

  /** `t'` differs from `t` in what worker `v` holds; the others hold what they held. */
  ghost predicate OthersSame(t: State, t': State, v: nat) {
    && t'.resuming == t.resuming && t.run.Running? && t'.run.Running?
    && |t'.run.s.workers| == |t.run.s.workers|
    && (forall w | 0 <= w < |t.run.s.workers| && w != v :: t'.run.s.workers[w] == t.run.s.workers[w])
  }

  /** A worker changes its own entry only, and leaves the download running. */
  lemma WorkerChangesItself(job: Job, t: State, v: nat, step: WorkerStep)
    requires ValidJob(job) && t.run.Running? && v < |t.run.s.workers|
    ensures OthersSame(t, ApplyWorker(job, t, v, step), v)
  {
    match step
    case Fetched(bytes) =>
    case FetchFailed =>
    case WriteFailed(upto) =>
    case Take =>
    case Exit =>
    case _ => StoringChangesItself(job, t, v, step);
  }

  lemma StoringChangesItself(job: Job, t: State, v: nat, step: WorkerStep)
    requires ValidJob(job) && t.run.Running? && v < |t.run.s.workers|
    requires step.Written? || step.Counted? || step.Marked?
    ensures OthersSame(t, ApplyWorker(job, t, v, step), v)
  {
  }

  lemma WorkLeavesHands(job: Job, t: State, v: nat, step: WorkerStep, w: nat, me: Worker)
    requires ValidJob(job) && HasHands(t, w, me) && v < |t.run.s.workers| && v != w
    ensures HasHands(ApplyWorker(job, t, v, step), w, me)
  {
    WorkerChangesItself(job, t, v, step);
  }

  lemma MainLeavesHands(job: Job, t: State, step: MainStep, w: nat, me: Worker)
    requires ValidJob(job) && HasHands(t, w, me) && me != Gone
    ensures HasHands(t.(run := ApplyMain(job, t.run.s, t.bitmap, step)), w, me)
  {
  }

  lemma {:induction false} HandsStay(job: Job, t0: State, events: seq<Event>, i: nat, j: nat, w: nat, me: Worker)
    requires ValidJob(job) && i <= j <= |events| && AllWithin(events, i, j)
    requires forall m | i <= m < j :: !IsStepOf(events[m], w)
    requires HasHands(At(job, t0, events, i), w, me) && me != Gone
    ensures HasHands(At(job, t0, events, j), w, me)
    decreases j
  {
    if i < j {
      HandsStay(job, t0, events, i, j - 1, w, me);
      AtNext(job, t0, events, j - 1);
      OthersLeaveHands(job, At(job, t0, events, j - 1), events[j - 1], w, me);
    }
  }

  /** The part is marked in a download that is under way or has returned. */
  ghost predicate HasMark(t: State, p: int) {
    t.resuming && t.run != NotRunning && p in t.bitmap
  }

  lemma StoresMarks(job: Job, t0: State, events: seq<Event>, w: nat, p: int, i: nat, j: nat, k: nat, a: nat)
    requires ValidJob(job) && Stores(job, t0, events, w, p, i, j, k, a)
    ensures HasMark(At(job, t0, events, k + 1), p)
  {
    AtNext(job, t0, events, i);
    HandsStay(job, t0, events, i + 1, j, w, Counting(p));
    AtNext(job, t0, events, j);
    HandsStay(job, t0, events, j + 1, k, w, Marking(p));
    AtNext(job, t0, events, k);
  }

  lemma StepKeepsMark(job: Job, t: State, e: Event, p: int)
    requires ValidJob(job) && Within(e) && HasMark(t, p)
    ensures HasMark(Apply(job, t, e), p)
  {
    match e
    case Flush(step) =>
    case Main(step) =>
    case WriteBack(x) =>
    case Work(v, step) =>
  }

  lemma {:induction false} MarkStays(job: Job, t0: State, events: seq<Event>, i: nat, j: nat, p: int)
    requires ValidJob(job) && i <= j <= |events| && AllWithin(events, i, j) && HasMark(At(job, t0, events, i), p)
    ensures HasMark(At(job, t0, events, j), p)
    decreases j
  {
    if i < j {
      MarkStays(job, t0, events, i, j - 1, p);
      AtNext(job, t0, events, j - 1);
      StepKeepsMark(job, At(job, t0, events, j - 1), events[j - 1], p);
    }
  }

  // ---------- a flush writes every mark ----------

  /** Not dirty means that the marks are on disk already. */
  ghost predicate CleanInv(t: State) {
    && (t.run == NotRunning ==> t.lock == Free && !t.dirty)
    && (t.resuming && t.run != NotRunning && !t.dirty ==> t.bitmap <= t.saved)
  }

  lemma StepKeepsClean(job: Job, t: State, e: Event)
    requires ValidJob(job) && CleanInv(t)
    ensures CleanInv(Apply(job, t, e))
  {
    match e
    case Crash =>
    case Restart(workers) =>
    case StartOver(workers, resuming, content) =>
    case Finish =>
    case WriteBack(x) =>
    case Flush(step) =>
    case Main(step) =>
    case Work(w, step) =>
  }

  lemma {:induction false} AlwaysClean(job: Job, t0: State, events: seq<Event>, k: nat)
    requires ValidJob(job) && CleanInv(t0) && k <= |events|
    ensures CleanInv(At(job, t0, events, k))
  {
    if k == 0 {
      assert events[..0] == [];
    } else {
      AlwaysClean(job, t0, events, k - 1);
      AtNext(job, t0, events, k - 1);
      StepKeepsClean(job, At(job, t0, events, k - 1), events[k - 1]);
    }
  }

  lemma OthersLeaveLock(job: Job, t: State, e: Event)
    requires ValidJob(job) && Within(e) && !e.Flush?
    ensures Apply(job, t, e).lock == t.lock
  {
    match e
    case Main(step) =>
    case WriteBack(x) =>
    case Work(w, step) =>
  }

  lemma {:induction false} LockStays(job: Job, t0: State, events: seq<Event>, i: nat, j: nat)
    requires ValidJob(job) && i <= j <= |events|
    requires forall k | i <= k < j :: Within(events[k]) && !events[k].Flush?
    ensures At(job, t0, events, j).lock == At(job, t0, events, i).lock
    decreases j
  {
    if i < j {
      LockStays(job, t0, events, i, j - 1);
      AtNext(job, t0, events, j - 1);
      OthersLeaveLock(job, At(job, t0, events, j - 1), events[j - 1]);
    }
  }

  /** A part that is saved, and that no download under way has forgotten. */
  ghost predicate IsKept(t: State, p: int) {
    && p in t.saved
    && (if t.run == NotRunning then t.lock == Free && !t.dirty else t.resuming && p in t.bitmap)
  }

  /** Everything but starting over and the removal of the progress file after a success. */
  predicate Lasting(e: Event) {
    !e.StartOver? && !e.Finish?
  }

  lemma StepKeepsKept(job: Job, t: State, e: Event, p: int)
    requires ValidJob(job) && Lasting(e) && IsKept(t, p)
    ensures IsKept(Apply(job, t, e), p)
  {
    match e
    case Crash =>
    case Restart(workers) =>
    case WriteBack(x) =>
    case Flush(step) =>
    case Main(step) =>
    case Work(w, step) =>
  }

  lemma {:induction false} KeptStays(job: Job, t0: State, events: seq<Event>, i: nat, j: nat, p: int)
    requires ValidJob(job) && i <= j <= |events| && IsKept(At(job, t0, events, i), p)
    requires forall k | i <= k < j :: Lasting(events[k])
    ensures IsKept(At(job, t0, events, j), p)
    decreases j
  {
    if i < j {
      KeptStays(job, t0, events, i, j - 1, p);
      AtNext(job, t0, events, j - 1);
      StepKeepsKept(job, At(job, t0, events, j - 1), events[j - 1], p);
    }
  }

  lemma FlushKeeps(job: Job, t0: State, events: seq<Event>, a: nat, b: nat, c: nat, p: int)
    requires ValidJob(job) && CleanInv(t0) && FlushRuns(job, t0, events, a, b, c)
    requires HasMark(At(job, t0, events, a), p)
    ensures IsKept(At(job, t0, events, c + 1), p)
  {
    AlwaysClean(job, t0, events, a);
    MarkStays(job, t0, events, a, b, p);
    MarkStays(job, t0, events, b, c, p);
    if At(job, t0, events, a).dirty {
      AtNext(job, t0, events, a);
      LockStays(job, t0, events, a + 1, b);
      AtNext(job, t0, events, b);
      LockStays(job, t0, events, b + 1, c);
      AtNext(job, t0, events, c);
    } else {
      KeptStays(job, t0, events, a, c + 1, p);
    }
  }

  lemma StoredIsMarked(job: Job, t0: State, events: seq<Event>, a: nat, p: int)
    requires ValidJob(job) && a <= |events| && StoredBefore(job, t0, events, p, a)
    ensures HasMark(At(job, t0, events, a), p)
  {
    var w: nat, i: nat, j: nat, k: nat :| Stores(job, t0, events, w, p, i, j, k, a);
    StoresMarks(job, t0, events, w, p, i, j, k, a);
    MarkStays(job, t0, events, k + 1, a, p);
  }

  /** Main result: after a flush, every part that was written, counted and marked before it is saved, and stays
      saved whatever happens, crashes included, until a download starts over or has succeeded. */
  lemma FlushSaves(job: Job, disk: seq<Byte>, saved: set<int>, events: seq<Event>,
                   a: nat, b: nat, c: nat, n: nat, p: int)
    requires ValidJob(job) && FlushRuns(job, Stopped(disk, saved), events, a, b, c)
    requires StoredBefore(job, Stopped(disk, saved), events, p, a)
    requires c < n <= |events| && forall k | c < k < n :: Lasting(events[k])
    ensures p in At(job, Stopped(disk, saved), events, n).saved
    ensures IsKept(At(job, Stopped(disk, saved), events, n), p)
  {
    var t0 := Stopped(disk, saved);
    StoredIsMarked(job, t0, events, a, p);
    FlushKeeps(job, t0, events, a, b, c, p);
    KeptStays(job, t0, events, c + 1, n, p);
  }

  // ---------- the download that resumes ----------

  /** Nobody holds the part or is about to. */
  ghost predicate IsLeftAlone(t: State, p: int) {
    t.run.Running? ==>
      && p in t.bitmap && p in t.run.s.counted && p !in t.run.s.queue
      && forall w | 0 <= w < |t.run.s.workers| && Holding(t.run.s.workers[w]) :: t.run.s.workers[w].part != p
  }

  lemma StepLeavesAlone(job: Job, t: State, e: Event, p: int)
    requires ValidJob(job) && Lasting(e) && IsKept(t, p) && IsLeftAlone(t, p)
    ensures IsLeftAlone(Apply(job, t, e), p)
  {
    match e
    case Crash =>
    case Restart(workers) =>
    case WriteBack(x) =>
    case Flush(step) =>
    case Main(step) =>
    case Work(w, step) => if t.run.Running? && w < |t.run.s.workers| { WorkLeavesAlone(job, t, w, step, p); }
  }

  lemma WorkLeavesAlone(job: Job, t: State, w: nat, step: WorkerStep, p: int)
    requires ValidJob(job) && t.run.Running? && w < |t.run.s.workers| && IsLeftAlone(t, p)
    ensures IsLeftAlone(ApplyWorker(job, t, w, step), p)
  {
    var t' := ApplyWorker(job, t, w, step);
    WorkerChangesItself(job, t, w, step);
    WorkerTakesQueued(job, t, w, step);
    forall v | 0 <= v < |t'.run.s.workers| && Holding(t'.run.s.workers[v]) ensures t'.run.s.workers[v].part != p {
      if v != w { assert t'.run.s.workers[v] == t.run.s.workers[v]; }
    }
  }

  /** What the worker holds after its step it held before, or it has just taken it from the queue. */
  ghost predicate HoldsNoMore(t: State, t': State, w: nat) {
    && t.run.Running? && t'.run.Running? && w < |t.run.s.workers| && w < |t'.run.s.workers|
    && t.bitmap <= t'.bitmap && t.run.s.counted <= t'.run.s.counted
    && (forall p | p in t'.run.s.queue :: p in t.run.s.queue)
    && var me, me' := t.run.s.workers[w], t'.run.s.workers[w];
      Holding(me') ==> (Holding(me) && me'.part == me.part) || me'.part in t.run.s.queue
  }

  lemma WorkerTakesQueued(job: Job, t: State, w: nat, step: WorkerStep)
    requires ValidJob(job) && t.run.Running? && w < |t.run.s.workers|
    ensures HoldsNoMore(t, ApplyWorker(job, t, w, step), w)
  {
    match step
    case Take =>
      if t.run.s.queue != [] { assert t.run.s.queue[0] in t.run.s.queue; }
    case Fetched(bytes) => FetchingHoldsNoMore(job, t, w, step);
    case FetchFailed => FetchingHoldsNoMore(job, t, w, step);
    case Written => WritingHoldsNoMore(job, t, w, step);
    case WriteFailed(upto) => WritingHoldsNoMore(job, t, w, step);
    case _ => StoringHoldsNoMore(job, t, w, step);
  }

  lemma FetchingHoldsNoMore(job: Job, t: State, w: nat, step: WorkerStep)
    requires ValidJob(job) && t.run.Running? && w < |t.run.s.workers| && (step.Fetched? || step.FetchFailed?)
    ensures HoldsNoMore(t, ApplyWorker(job, t, w, step), w)
  {
  }

  lemma StoringHoldsNoMore(job: Job, t: State, w: nat, step: WorkerStep)
    requires ValidJob(job) && t.run.Running? && w < |t.run.s.workers|
    requires step.Counted? || step.Marked? || step.Exit?
    ensures HoldsNoMore(t, ApplyWorker(job, t, w, step), w)
  {
  }

  lemma WritingHoldsNoMore(job: Job, t: State, w: nat, step: WorkerStep)
    requires ValidJob(job) && t.run.Running? && w < |t.run.s.workers| && (step.Written? || step.WriteFailed?)
    ensures HoldsNoMore(t, ApplyWorker(job, t, w, step), w)
  {
  }

  lemma {:induction false} StaysLeftAlone(job: Job, t0: State, events: seq<Event>, i: nat, j: nat, p: int)
    requires ValidJob(job) && i <= j <= |events| && forall k | i <= k < j :: Lasting(events[k])
    requires IsKept(At(job, t0, events, i), p) && IsLeftAlone(At(job, t0, events, i), p)
    ensures IsLeftAlone(At(job, t0, events, j), p)
    decreases j
  {
    if i < j {
      StaysLeftAlone(job, t0, events, i, j - 1, p);
      KeptStays(job, t0, events, i, j - 1, p);
      AtNext(job, t0, events, j - 1);
      StepLeavesAlone(job, At(job, t0, events, j - 1), events[j - 1], p);
    }
  }

  lemma RestartLeavesAlone(job: Job, t: State, workers: nat, p: int)
    requires ValidJob(job) && IsKept(t, p) && t.run == NotRunning
    ensures IsLeftAlone(Apply(job, t, Restart(workers)), p)
  {
  }

  /** Main result: after a flush, a crash and a restart the download begins with at least the bytes of those
      parts done, and from then on nobody is given one of them again, in any number of crashes and restarts. */
  lemma FlushedPartsAreResumed(job: Job, disk: seq<Byte>, saved: set<int>, events: seq<Event>,
                               a: nat, b: nat, c: nat, n: nat, workers: nat, parts: set<int>)
    requires ValidJob(job) && FlushRuns(job, Stopped(disk, saved), events, a, b, c)
    requires forall p | p in parts :: StoredBefore(job, Stopped(disk, saved), events, p, a)
    requires c < n < |events| - 1 && events[n] == Crash && events[n + 1] == Restart(workers)
    requires forall k | c < k < |events| :: Lasting(events[k])
    ensures var t := At(job, Stopped(disk, saved), events, n + 2);
      if t.run.Running? then t.run.s.doneBytes >= TotalOf(job, parts) else t.run == Returned(true)
    ensures forall m, p | n + 1 < m <= |events| && p in parts ::
      IsLeftAlone(At(job, Stopped(disk, saved), events, m), p)
  {
    var t0 := Stopped(disk, saved);
    forall p | p in parts ensures IsKept(At(job, t0, events, n + 1), p) {
      FlushSaves(job, disk, saved, events, a, b, c, n + 1, p);
    }
    AtNext(job, t0, events, n);
    forall m, p | n + 1 < m <= |events| && p in parts ensures IsLeftAlone(At(job, t0, events, m), p) {
      RestartedLeavesAlone(job, t0, events, n + 1, m, workers, p);
    }
    AtNext(job, t0, events, n + 1);
    RestartCounts(job, At(job, t0, events, n + 1), workers, parts);
  }

  lemma RestartedLeavesAlone(job: Job, t0: State, events: seq<Event>, n: nat, m: nat, workers: nat, p: int)
    requires ValidJob(job) && n < m <= |events| && events[n] == Restart(workers)
    requires forall k | n < k < |events| :: Lasting(events[k])
    requires IsKept(At(job, t0, events, n), p) && At(job, t0, events, n).run == NotRunning
    ensures IsLeftAlone(At(job, t0, events, m), p)
  {
    AtNext(job, t0, events, n);
    RestartLeavesAlone(job, At(job, t0, events, n), workers, p);
    StepKeepsKept(job, At(job, t0, events, n), Restart(workers), p);
    StaysLeftAlone(job, t0, events, n + 1, m, p);
  }

  lemma RestartCounts(job: Job, t: State, workers: nat, parts: set<int>)
    requires ValidJob(job) && t.run == NotRunning && forall p | p in parts :: IsKept(t, p)
    requires t.lock == Free
    ensures var t' := Apply(job, t, Restart(workers));
      if t'.run.Running? then t'.run.s.doneBytes >= TotalOf(job, parts) else t'.run == Returned(true)
  {
    assert parts <= t.saved by {
      forall p | p in parts ensures p in t.saved { assert IsKept(t, p); }
    }
    assert job.Parts() >= 0;
    TotalOfSubset(parts, t.saved, job.Parts(), |job.file|, job.partSize);
  }

  lemma {:induction false} TotalOfSubset(a: set<int>, b: set<int>, n: nat, size: int, partSize: int)
    requires 0 < size && 0 < partSize && a <= b && n <= Count(size, partSize)
    ensures Total(a, n, size, partSize) <= Total(b, n, size, partSize)
  {
    if n > 0 {
      TotalOfSubset(a, b, n - 1, size, partSize);
      PartFits(n - 1, size, partSize);
    }
  }

  // ---------- the bytes ----------

  /** The bitmap with exactly these parts marked. */
  function BitsOf(parts: set<int>, n: nat, total: nat): (r: seq<bv8>)
    requires n <= total
    ensures |r| == (total + 7) / 8
  {
    if n == 0 then seq((total + 7) / 8, i => 0)
    else
      var rest := BitsOf(parts, n - 1, total);
      if n - 1 in parts then Resume.WithBit(rest, n - 1) else rest
  }

  lemma {:induction false} BitsOfAt(parts: set<int>, n: nat, total: nat, q: nat)
    requires n <= total && q < total
    ensures Resume.Bit(BitsOf(parts, n, total), q) <==> q < n && q in parts
  {
    if n > 0 {
      BitsOfAt(parts, n - 1, total, q);
      if n - 1 in parts { Resume.BitAfterSet(BitsOf(parts, n - 1, total), n - 1, q); }
    }
  }

  /** `saved` is what a progress file stands for: the bytes that a flush writes for these marks load, for the same
      download, as exactly these marks, and for any other as none. */
  lemma WrittenMarksLoad(size: int, partSize: int, locKey: seq<Byte>, parts: set<int>, partSize': int,
                         locKey': seq<Byte>)
    requires Resume.ValidDimensions(size, partSize) && partSize < 0x1_0000_0000 && |locKey| <= Resume.MAX_KEY
    requires forall p | p in parts :: 0 <= p < Count(size, partSize)
    ensures var total := Count(size, partSize);
      MarksFor(Resume.Saved(size, partSize, total, locKey, BitsOf(parts, total, total)), size, partSize', locKey')
        == if partSize' == partSize && locKey' == locKey then parts else {}
  {
    var total := Count(size, partSize);
    var bits := BitsOf(parts, total, total);
    Resume.LoadsExactlyItsOwn(size, partSize, locKey, bits, size, partSize', locKey');
    forall q | 0 <= q < total ensures Resume.Bit(bits, q) <==> q in parts {
      BitsOfAt(parts, total, total, q);
    }
    assert Resume.Marked(bits, total) == parts;
  }
}
