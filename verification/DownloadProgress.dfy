/** That a download left alone gets somewhere (runKnownSize, telegram/media.go): while no fetch or write
    fails and nobody cancels, every schedule of its workers, the dispatcher and the flusher moves towards
    success, and none gets stuck. */
module DownloadProgress {
  import opened Files
  import opened Parts
  import opened ParallelDownload

  /** What may happen in an undisturbed download. */
  predicate Smooth(e: Event) {
    match e
    case WriteBack(_) => true
    case Flush(_) => true
    case Main(step) => step != Cancel
    case Work(_, step) => step != FetchFailed && !step.WriteFailed?
    case _ => false
  }

  predicate AllSmooth(events: seq<Event>) {
    forall i | 0 <= i < |events| :: Smooth(events[i])
  }

  predicate IsHeld(s: Session, p: int) {
    exists w :: 0 <= w < |s.workers| && Holding(s.workers[w]) && s.workers[w].part == p
  }

  /** Every part dispatched so far is counted, queued or held: none gets lost. */
  predicate NothingLost(s: Session) {
    forall p | 0 <= p < s.next :: p in s.counted || p in s.queue || IsHeld(s, p)
  }

  ghost predicate SmoothInv(job: Job, t: State)
    requires ValidJob(job)
  {
    && (t.lock != Free ==> t.resuming) && t.run.Running?
    && var s := t.run.s;
    && |s.workers| > 0 && !s.failed && !s.canceled
    && (s.closed ==> s.next == job.Parts())
    && (forall w | 0 <= w < |s.workers| && s.workers[w] == Gone :: s.closed && s.queue == [])
    && NothingLost(s)
  }

  // ---------- how much is left to do ----------

  function WorkerRank(me: Worker): nat {
    match me
    case Fetching(_) => 6
    case Writing(_, _) => 5
    case Counting(_) => 4
    case Marking(_) => 3
    case Idle => 1
    case Gone => 0
  }

  function WorkersRank(workers: seq<Worker>): nat {
    if workers == [] then 0 else WorkerRank(workers[0]) + WorkersRank(workers[1..])
  }

  lemma {:induction false} WorkersRankAfter(workers: seq<Worker>, w: nat, to: Worker)
    requires w < |workers|
    ensures WorkersRank(workers[w := to]) == WorkersRank(workers) - WorkerRank(workers[w]) + WorkerRank(to)
  {
    if w == 0 {
      assert workers[w := to][1..] == workers[1..];
    } else {
      WorkersRankAfter(workers[1..], w - 1, to);
      assert workers[w := to][1..] == workers[1..][w - 1 := to];
    }
  }

  function SessionRank(job: Job, s: Session): int
    requires ValidJob(job)
  {
    7 * (job.Parts() - s.next) + 6 * |s.queue| + (if s.closed then 0 else 1) + WorkersRank(s.workers)
  }

  /** Steps that are still to be made, at most; none when the download has returned. */
  function Rank(job: Job, t: State): int
    requires ValidJob(job)
  {
    if t.run.Running? then 1 + SessionRank(job, t.run.s) else 0
  }

  /** The download has succeeded, or goes on as it should. */
  ghost predicate OnTrack(job: Job, t: State)
    requires ValidJob(job)
  {
    Inv(job, t) && (t.run == Returned(true) || SmoothInv(job, t))
  }

  /** One step on: still on track, and with less to do if anything about the download has changed. */
  ghost predicate Advances(job: Job, t: State, t': State)
    requires ValidJob(job)
  {
    && (t'.run == Returned(true) || SmoothInv(job, t'))
    && (t'.run == t.run || Rank(job, t') < Rank(job, t))
  }

  // ---------- every smooth step advances ----------

  lemma HeldElsewhere(s: Session, s': Session, w: nat, p: int)
    requires w < |s.workers| == |s'.workers| && IsHeld(s, p)
    requires forall v | 0 <= v < |s.workers| && v != w :: s'.workers[v] == s.workers[v]
    ensures IsHeld(s', p) || (Holding(s.workers[w]) && s.workers[w].part == p)
  {
    var v :| 0 <= v < |s.workers| && Holding(s.workers[v]) && s.workers[v].part == p;
    if v != w { assert Holding(s'.workers[v]) && s'.workers[v].part == p; }
  }

  /** A worker that goes on with its part, counts it or lets it go after it was counted, loses nothing. */
  lemma WorkLosesNothing(s: Session, w: nat, to: Worker, counted: set<int>, done: int)
    requires w < |s.workers| && NothingLost(s) && s.counted <= counted
    requires Holding(s.workers[w]) ==>
      s.workers[w].part in counted || (Holding(to) && to.part == s.workers[w].part)
    ensures NothingLost(SetWorker(s.(counted := counted, doneBytes := done), w, to))
  {
    var s' := SetWorker(s.(counted := counted, doneBytes := done), w, to);
    assert s'.workers[w] == to;
    forall p | 0 <= p < s'.next ensures p in s'.counted || p in s'.queue || IsHeld(s', p) {
      if p !in s.counted && p !in s.queue { HeldElsewhere(s, s', w, p); }
    }
  }

  lemma TakeLosesNothing(s: Session, w: nat)
    requires w < |s.workers| && NothingLost(s) && s.workers[w] == Idle && s.queue != []
    ensures NothingLost(SetWorker(s.(queue := s.queue[1..]), w, Fetching(s.queue[0])))
  {
    var s' := SetWorker(s.(queue := s.queue[1..]), w, Fetching(s.queue[0]));
    assert Holding(s'.workers[w]) && s'.workers[w].part == s.queue[0];
    forall p | 0 <= p < s'.next ensures p in s'.counted || p in s'.queue || IsHeld(s', p) {
      if p !in s.counted && p !in s.queue { HeldElsewhere(s, s', w, p); }
    }
  }

  /** A step of a worker that keeps its place in the session. */
  lemma WorkAdvances(job: Job, t: State, t': State, w: nat, to: Worker, counted: set<int>, done: int)
    requires ValidJob(job) && SmoothInv(job, t) && w < |t.run.s.workers| && t.run.s.counted <= counted
    requires t'.run == Running(SetWorker(t.run.s.(counted := counted, doneBytes := done), w, to))
    requires t'.lock != Free ==> t'.resuming
    requires WorkerRank(to) < WorkerRank(t.run.s.workers[w])
    requires to == Gone ==> t.run.s.closed && t.run.s.queue == []
    requires Holding(t.run.s.workers[w]) ==>
      t.run.s.workers[w].part in counted || (Holding(to) && to.part == t.run.s.workers[w].part)
    ensures Advances(job, t, t')
  {
    WorkLosesNothing(t.run.s, w, to, counted, done);
    WorkersRankAfter(t.run.s.workers, w, to);
  }

  lemma TakeAdvances(job: Job, t: State, w: nat)
    requires ValidJob(job) && SmoothInv(job, t) && w < |t.run.s.workers|
    ensures Advances(job, t, ApplyWorker(job, t, w, Take))
  {
    var s := t.run.s;
    if s.workers[w] == Idle && s.queue != [] {
      TakeLosesNothing(s, w);
      WorkersRankAfter(s.workers, w, Fetching(s.queue[0]));
    }
  }

  lemma FetchedAdvances(job: Job, t: State, w: nat, bytes: seq<Byte>)
    requires ValidJob(job) && Inv(job, t) && SmoothInv(job, t) && w < |t.run.s.workers|
    ensures Advances(job, t, ApplyWorker(job, t, w, Fetched(bytes)))
  {
    var s := t.run.s;
    var me := s.workers[w];
    if me.Fetching? && IsAnswer(job, me.part, bytes) {
      assert WorkerInv(job, t.dest, Floor(s), s.counted, me);
      FaithfulAnswerFills(job, me.part, bytes);
      WorkAdvances(job, t, ApplyWorker(job, t, w, Fetched(bytes)), w, Writing(me.part, bytes), s.counted, s.doneBytes);
    }
  }

  lemma WorkerAdvances(job: Job, t: State, w: nat, step: WorkerStep)
    requires ValidJob(job) && Inv(job, t) && SmoothInv(job, t) && w < |t.run.s.workers| && Smooth(Work(w, step))
    ensures Advances(job, t, ApplyWorker(job, t, w, step))
  {
    var s, t' := t.run.s, ApplyWorker(job, t, w, step);
    var me := s.workers[w];
    if t'.run != t.run {
      match step
      case Take => TakeAdvances(job, t, w);
      case Fetched(bytes) => FetchedAdvances(job, t, w, bytes);
      case Written => StoreAdvances(job, t, w, step);
      case Counted => StoreAdvances(job, t, w, step);
      case Marked => WorkAdvances(job, t, t', w, Idle, s.counted, s.doneBytes);
      case Exit => WorkAdvances(job, t, t', w, Gone, s.counted, s.doneBytes);
    }
  }

  lemma StoreAdvances(job: Job, t: State, w: nat, step: WorkerStep)
    requires ValidJob(job) && Inv(job, t) && SmoothInv(job, t) && w < |t.run.s.workers|
    requires step == Written || step == Counted
    ensures ApplyWorker(job, t, w, step).run != t.run ==> Advances(job, t, ApplyWorker(job, t, w, step))
  {
    var s, t' := t.run.s, ApplyWorker(job, t, w, step);
    var me := s.workers[w];
    if me.Writing? && step == Written {
      WorkAdvances(job, t, t', w, Counting(me.part), s.counted, s.doneBytes);
    } else if me.Counting? && step == Counted {
      WorkAdvances(job, t, t', w, Marking(me.part), s.counted + {me.part}, s.doneBytes + LengthOf(job, me.part));
    }
  }

  lemma DispatchLosesNothing(s: Session, bitmap: set<int>)
    requires NothingLost(s) && bitmap <= s.counted
    ensures NothingLost(s.(next := s.next + 1, queue := s.queue + [s.next]))
    ensures s.next in bitmap ==> NothingLost(s.(next := s.next + 1))
  {
    var s' := s.(next := s.next + 1, queue := s.queue + [s.next]);
    assert s'.queue[|s.queue|] == s.next;
    forall p | 0 <= p < s'.next ensures p in s'.counted || p in s'.queue || IsHeld(s', p) {
      if p < s.next && IsHeld(s, p) { SameHands(s, s', p); }
    }
    forall p | 0 <= p < s.next && IsHeld(s, p) ensures IsHeld(s.(next := s.next + 1), p) {
      SameHands(s, s.(next := s.next + 1), p);
    }
  }

  lemma SameHands(s: Session, s': Session, p: int)
    requires s'.workers == s.workers && IsHeld(s, p)
    ensures IsHeld(s', p)
  {
  }

  /** If all workers have gone, everything has been counted. */
  lemma ReturnSucceeds(job: Job, t: State)
    requires ValidJob(job) && Inv(job, t) && SmoothInv(job, t)
    requires forall w | 0 <= w < |t.run.s.workers| :: t.run.s.workers[w] == Gone
    ensures t.run.s.doneBytes == job.Size()
  {
    var s := t.run.s;
    assert s.workers[0] == Gone;
    forall p | 0 <= p < job.Parts() ensures p in s.counted {
      assert p in s.counted || p in s.queue || IsHeld(s, p);
    }
    TotalIsSizeIffAllDone(s.counted, |job.file|, job.partSize);
  }

  lemma MainAdvances(job: Job, t: State, step: MainStep)
    requires ValidJob(job) && Inv(job, t) && SmoothInv(job, t) && step != Cancel
    ensures Advances(job, t, t.(run := ApplyMain(job, t.run.s, t.bitmap, step)))
  {
    var s := t.run.s;
    match step
    case Dispatch => DispatchLosesNothing(s, t.bitmap);
    case Close => CloseLosesNothing(s);
    case StopDispatch =>
    case Return =>
      if s.closed && forall w | 0 <= w < |s.workers| :: s.workers[w] == Gone { ReturnSucceeds(job, t); }
  }

  lemma CloseLosesNothing(s: Session)
    requires NothingLost(s)
    ensures NothingLost(s.(closed := true))
  {
    forall p | 0 <= p < s.next && IsHeld(s, p) ensures IsHeld(s.(closed := true), p) {
      SameHands(s, s.(closed := true), p);
    }
  }

  lemma SmoothStepAdvances(job: Job, t: State, e: Event)
    requires ValidJob(job) && OnTrack(job, t) && Smooth(e)
    ensures OnTrack(job, Apply(job, t, e)) && Advances(job, t, Apply(job, t, e))
  {
    ApplyKeepsInv(job, t, e);
    if t.run.Running? {
      match e
      case Main(step) => MainAdvances(job, t, step);
      case Work(w, step) => if w < |t.run.s.workers| { WorkerAdvances(job, t, w, step); }
      case _ =>
    }
  }

  // ---------- and one is always possible ----------

  /** A step that changes the download, or, while the flusher holds its lock, one that gives it back. */
  ghost predicate CanGoOn(job: Job, t: State)
    requires ValidJob(job)
  {
    exists e | Smooth(e) :: GoesOn(job, t, e)
  }

  predicate GoesOn(job: Job, t: State, e: Event)
    requires ValidJob(job)
  {
    var t' := Apply(job, t, e);
    if t.lock == Free then t'.run != t.run else t'.lock == Free && t'.run == t.run
  }

  lemma BusyWorkerGoesOn(job: Job, t: State, w: nat) returns (e: Event)
    requires ValidJob(job) && Inv(job, t) && SmoothInv(job, t) && t.lock == Free && w < |t.run.s.workers|
    requires Holding(t.run.s.workers[w]) || t.run.s.workers[w].Marking?
    ensures Smooth(e) && GoesOn(job, t, e)
  {
    var s := t.run.s;
    var me := s.workers[w];
    assert WorkerInv(job, t.dest, Floor(s), s.counted, me);
    if me.Fetching? {
      PartFits(me.part, |job.file|, job.partSize);
      var bytes := Slice(job.file, StartOf(job, me.part), job.partSize);
      FaithfulAnswerFills(job, me.part, bytes);
      e := Work(w, Fetched(bytes));
      assert Apply(job, t, e).run.s.workers[w] == Writing(me.part, bytes);
    } else {
      var step, to := if me.Writing? then Written else if me.Counting? then Counted else Marked,
        if me.Writing? then Counting(me.part) else if me.Counting? then Marking(me.part) else Idle;
      e := Work(w, step);
      assert Apply(job, t, e).run.s.workers[w] == to;
    }
  }

  /** All workers idle or gone: there is something to take, to dispatch, to close, to leave or to return. */
  lemma RestingGoesOn(job: Job, t: State) returns (e: Event)
    requires ValidJob(job) && Inv(job, t) && SmoothInv(job, t) && t.lock == Free
    requires forall w | 0 <= w < |t.run.s.workers| :: t.run.s.workers[w] == Idle || t.run.s.workers[w] == Gone
    ensures Smooth(e) && GoesOn(job, t, e)
  {
    var s := t.run.s;
    if s.queue != [] {
      e := Work(0, Take);
      assert Apply(job, t, e).run.s.workers[0] == Fetching(s.queue[0]);
    } else if s.next < job.Parts() {
      e := Main(Dispatch);
      assert Apply(job, t, e).run.s.next == s.next + 1;
    } else if !s.closed {
      e := Main(Close);
      assert Apply(job, t, e).run.s.closed;
    } else if w :| 0 <= w < |s.workers| && s.workers[w] == Idle {
      e := Work(w, Exit);
      assert Apply(job, t, e).run.s.workers[w] == Gone;
    } else {
      e := Main(Return);
    }
  }

  lemma NeverStuck(job: Job, t: State)
    requires ValidJob(job) && OnTrack(job, t) && t.run.Running?
    ensures CanGoOn(job, t)
  {
    if t.lock != Free {
      assert Smooth(Flush(GiveUp)) && GoesOn(job, t, Flush(GiveUp));
    } else if w :| 0 <= w < |t.run.s.workers| && (Holding(t.run.s.workers[w]) || t.run.s.workers[w].Marking?) {
      var e := BusyWorkerGoesOn(job, t, w);
    } else {
      var e := RestingGoesOn(job, t);
    }
  }

  // ---------- whole schedules ----------

  /** How many of the events change the download. */
  ghost function Changes(job: Job, t: State, events: seq<Event>): nat
    requires ValidJob(job)
    decreases |events|
  {
    if events == [] then 0
    else
      var t' := Apply(job, t, events[0]);
      (if t'.run != t.run then 1 else 0) + Changes(job, t', events[1..])
  }

  lemma {:induction false} ScheduleAdvances(job: Job, t: State, events: seq<Event>)
    requires ValidJob(job) && OnTrack(job, t) && AllSmooth(events)
    ensures OnTrack(job, After(job, t, events))
    ensures Changes(job, t, events) + Rank(job, After(job, t, events)) <= Rank(job, t)
    decreases |events|
  {
    if events != [] {
      SmoothStepAdvances(job, t, events[0]);
      ScheduleAdvances(job, Apply(job, t, events[0]), events[1..]);
    }
  }

  lemma RankIsNatural(job: Job, t: State)
    requires ValidJob(job) && OnTrack(job, t)
    ensures Rank(job, t) >= 0
  {
  }

  /** After the events the download is done, with the file, or able to go on; and the steps that changed it
      are no more than there were to make. */
  ghost predicate EndsWell(job: Job, t0: State, events: seq<Event>)
    requires ValidJob(job)
  {
    var t := After(job, t0, events);
    && (if t.run == Returned(true) then t.dest == job.file else t.run.Running? && CanGoOn(job, t))
    && Changes(job, t0, events) <= Rank(job, t0)
  }

  lemma OnTrackEndsWell(job: Job, t0: State, events: seq<Event>)
    requires ValidJob(job) && OnTrack(job, t0) && AllSmooth(events)
    ensures EndsWell(job, t0, events)
  {
    ScheduleAdvances(job, t0, events);
    var t := After(job, t0, events);
    RankIsNatural(job, t);
    if t.run != Returned(true) { NeverStuck(job, t); }
  }

  /** Main result: a download resumed from true marks with any number of workers and left undisturbed ends
      well after any schedule whatever.  So every schedule that keeps going on ends in success. */
  lemma UndisturbedDownloadSucceeds(job: Job, disk: seq<Byte>, saved: set<int>, workers: nat, events: seq<Event>)
    requires ValidJob(job) && Fits(job, disk, saved) && AllRight(job, disk, saved) && workers > 0 && AllSmooth(events)
    ensures EndsWell(job, Apply(job, Stopped(disk, saved), Restart(workers)), events)
  {
    ApplyKeepsInv(job, Stopped(disk, saved), Restart(workers));
    OnTrackEndsWell(job, Apply(job, Stopped(disk, saved), Restart(workers)), events);
  }

  // ---------- downloads that start over ----------

  /** What the progress file holds does not matter to a download that has begun. */
  function Forget(t: State): State {
    t.(saved := {})
  }

  lemma SavedIsIrrelevant(job: Job, t: State, e: Event)
    requires ValidJob(job) && !e.Restart?
    ensures Forget(Apply(job, Forget(t), e)) == Forget(Apply(job, t, e))
  {
    match e
    case Work(w, step) => if t.run.Running? && w < |t.run.s.workers| { WorkIgnoresSaved(job, t, w, step); }
    case Flush(step) => FlushIgnoresSaved(t, step);
    case _ =>
  }

  lemma FlushIgnoresSaved(t: State, step: FlushStep)
    ensures Forget(ApplyFlush(Forget(t), step)) == Forget(ApplyFlush(t, step))
  {
  }

  lemma WorkIgnoresSaved(job: Job, t: State, w: nat, step: WorkerStep)
    requires ValidJob(job) && t.run.Running? && w < |t.run.s.workers|
    ensures ApplyWorker(job, Forget(t), w, step) == Forget(ApplyWorker(job, t, w, step))
  {
    match step
    case Take =>
    case Fetched(bytes) =>
    case _ =>
  }

  lemma {:induction false} SavedStaysIrrelevant(job: Job, t: State, events: seq<Event>)
    requires ValidJob(job) && forall i | 0 <= i < |events| :: !events[i].Restart?
    ensures Forget(After(job, Forget(t), events)) == Forget(After(job, t, events))
    ensures Changes(job, Forget(t), events) == Changes(job, t, events)
    decreases |events|
  {
    if events != [] {
      var x, y := Apply(job, Forget(t), events[0]), Apply(job, t, events[0]);
      SavedIsIrrelevant(job, t, events[0]);
      SavedStaysIrrelevant(job, x, events[1..]);
      SavedStaysIrrelevant(job, y, events[1..]);
      SameRun(x, y);
    }
  }

  lemma SameRun(x: State, y: State)
    requires Forget(x) == Forget(y)
    ensures x.run == y.run && x.dest == y.dest && x.lock == y.lock
  {
  }

  lemma ForgettingGoesOn(job: Job, t: State, t': State)
    requires ValidJob(job) && Forget(t) == Forget(t') && CanGoOn(job, t)
    ensures CanGoOn(job, t')
  {
    var e :| Smooth(e) && GoesOn(job, t, e);
    SavedIsIrrelevant(job, t, e);
    SavedIsIrrelevant(job, t', e);
    SameRun(Apply(job, t, e), Apply(job, t', e));
    assert GoesOn(job, t', e);
  }

  /** The same of a download that starts over, with or without resume, on any content and whatever an old
      progress file says. */
  lemma UndisturbedFreshDownloadSucceeds(
      job: Job, disk: seq<Byte>, saved: set<int>, workers: nat, resuming: bool, content: seq<Byte>, events: seq<Event>)
    requires ValidJob(job) && |content| == |job.file| && workers > 0 && AllSmooth(events)
    ensures EndsWell(job, Apply(job, Stopped(disk, saved), StartOver(workers, resuming, content)), events)
  {
    var e := StartOver(workers, resuming, content);
    var t0 := Apply(job, Stopped(disk, saved), e);
    assert Forget(t0) == Apply(job, Stopped(content, {}), e);
    ApplyKeepsInv(job, Stopped(content, {}), e);
    OnTrackEndsWell(job, Forget(t0), events);
    SavedStaysIrrelevant(job, t0, events);
    var t, t' := After(job, Forget(t0), events), After(job, t0, events);
    SameRun(t, t');
    if t.run != Returned(true) { ForgettingGoesOn(job, t, t'); }
  }

  /** And whatever happens to it, crashes, failures and cancellation included: if it reports success it has
      written the file.  Only a later resume can be misled by what was saved before. */
  lemma FreshSuccessIsTheFile(
      job: Job, disk: seq<Byte>, saved: set<int>, workers: nat, resuming: bool, content: seq<Byte>, events: seq<Event>)
    requires ValidJob(job) && |content| == |job.file|
    requires forall i | 0 <= i < |events| :: !events[i].Restart? && !events[i].StartOver?
    ensures var t0 := Apply(job, Stopped(disk, saved), StartOver(workers, resuming, content));
      SucceedsOnlyRight(job, After(job, t0, events))
  {
    var e := StartOver(workers, resuming, content);
    var t0 := Apply(job, Stopped(disk, saved), e);
    assert Forget(t0) == Apply(job, Stopped(content, {}), e);
    ApplyKeepsInv(job, Stopped(content, {}), e);
    NoStartIsCareful(job, Forget(t0), events);
    RunKeepsInv(job, Forget(t0), events);
    SavedStaysIrrelevant(job, t0, events);
    SameRun(After(job, Forget(t0), events), After(job, t0, events));
  }

  lemma {:induction false} NoStartIsCareful(job: Job, t: State, events: seq<Event>)
    requires ValidJob(job) && forall i | 0 <= i < |events| :: !events[i].StartOver?
    ensures CarefulRun(job, t, events)
    decreases |events|
  {
    if events != [] { NoStartIsCareful(job, Apply(job, t, events[0]), events[1..]); }
  }
}
