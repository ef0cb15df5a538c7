/** runKnownSize with its workers, the flusher of the saved progress, crashes and restarts
    (telegram/media.go), as one state machine: an event is one atomic step of one party.

    The file system is modelled by two contents: `dest`, what reads and writes see, and `disk`, what would
    survive a crash.  Any byte may reach the disk at any time; a sync brings all of them there. */
module ParallelDownload {
  import opened Files
  import opened Parts

  datatype Worker =
    | Idle
    | Fetching(part: nat)
    | Writing(part: nat, data: seq<Byte>)
    | Counting(part: nat)
    | Marking(part: nat)
    | Gone

  /** One call of runKnownSize.  `counted` is bookkeeping: the parts whose lengths make up doneBytes. */
  datatype Session = Session(
    next: nat, queue: seq<nat>, closed: bool, workers: seq<Worker>,
    failed: bool, canceled: bool, doneBytes: int, counted: set<int>)

  datatype Run = NotRunning | Running(s: Session) | Returned(ok: bool)

  /** The flush lock: free, held before the sync, held after it. */
  datatype Lock = Free | Held | Synced

  /** `saved` holds the parts that loading the progress file would report: none if it does not load. */
  datatype State = State(
    dest: seq<Byte>, disk: seq<Byte>, saved: set<int>,
    resuming: bool, bitmap: set<int>, dirty: bool, lock: Lock, run: Run)

  /** What never changes: the file as the server has it, and the part size. */
  datatype Job = Job(file: seq<Byte>, partSize: int) {
    function Size(): int { |file| }

    function Parts(): int
      requires ValidJob(this)
    {
      Count(|file|, partSize)
    }
  }

  predicate ValidJob(job: Job) {
    0 < |job.file| && 0 < job.partSize
  }

  datatype Event =
    | Crash
    | Restart(workers: nat)
    | StartOver(workers: nat, resuming: bool, content: seq<Byte>)
    | Finish
    | WriteBack(x: nat)
    | Flush(flush: FlushStep)
    | Main(main: MainStep)
    | Work(w: nat, step: WorkerStep)

  datatype FlushStep = Acquire | Sync | Write | GiveUp

  datatype MainStep = Dispatch | StopDispatch | Close | Cancel | Return

  datatype WorkerStep =
    | Take
    | Fetched(bytes: seq<Byte>)
    | FetchFailed
    | Written
    | WriteFailed(upto: nat)
    | Counted
    | Marked
    | Exit

  function Overwrite(content: seq<Byte>, start: int, data: seq<Byte>): (r: seq<Byte>)
    ensures |r| == |content|
  {
    seq(|content|, x requires 0 <= x < |content| => if start <= x < start + |data| then data[x - start] else content[x])
  }

  function StartOf(job: Job, p: int): int { Start(p, job.partSize) }

  function LengthOf(job: Job, p: int): int { Length(p, |job.file|, job.partSize) }

  function TotalOf(job: Job, parts: set<int>): int
    requires ValidJob(job)
  {
    Total(parts, job.Parts(), |job.file|, job.partSize)
  }

  function SetWorker(s: Session, w: nat, to: Worker): Session
    requires w < |s.workers|
  {
    s.(workers := s.workers[w := to])
  }

  function Fail(s: Session): Session {
    s.(failed := true, canceled := true)
  }

  /** The only way in which a part changes hands but by dispatch: `w` becomes `to`. */
  function Become(t: State, w: nat, to: Worker): State
    requires t.run.Running? && w < |t.run.s.workers|
  {
    t.(run := Running(SetWorker(t.run.s, w, to)))
  }

  function Apply(job: Job, t: State, e: Event): State
    requires ValidJob(job)
  {
    match e
    case Crash => State(t.disk, t.disk, t.saved, false, {}, false, Free, NotRunning)
    case Restart(workers) =>
      if t.run.Running? || t.lock != Free then t else Started(job, t.(resuming := true), workers, t.saved)
    case StartOver(workers, resuming, content) =>
      if t.run.Running? || t.lock != Free || |content| != |job.file| then t
      else Started(job, t.(dest := content, disk := content, resuming := resuming), workers, {})
    case Finish =>
      if t.run != Returned(true) || t.lock != Free then t
      else State(t.dest, t.dest, if t.resuming then {} else t.saved, false, {}, false, Free, NotRunning)
    case WriteBack(x) => if x < |t.disk| == |t.dest| then t.(disk := t.disk[x := t.dest[x]]) else t
    case Flush(step) => if t.resuming then ApplyFlush(t, step) else t
    case Main(step) => if t.run.Running? then t.(run := ApplyMain(job, t.run.s, t.bitmap, step)) else t
    case Work(w, step) => if t.run.Running? && w < |t.run.s.workers| then ApplyWorker(job, t, w, step) else t
  }

  /** A new download, resumed from the parts in `bits`.  There is nothing to do if they are all of them. */
  function Started(job: Job, t: State, workers: nat, bits: set<int>): State
    requires ValidJob(job)
  {
    var done := TotalOf(job, bits);
    t.(bitmap := bits, dirty := false,
       run := if done == job.Size() then Returned(true)
              else Running(Session(0, [], false, seq(workers, i => Idle), false, false, done, bits)))
  }

  /** flush: nothing unless dirty; the destination is synced before the bitmap is written, all under the lock. */
  function ApplyFlush(t: State, step: FlushStep): State {
    match step
    case Acquire => if t.lock == Free && t.dirty then t.(lock := Held) else t
    case Sync => if t.lock == Held then t.(disk := t.dest, lock := Synced) else t
    case Write => if t.lock == Synced then t.(saved := t.bitmap, dirty := false, lock := Free) else t
    case GiveUp => t.(lock := Free)
  }

  function ApplyMain(job: Job, s: Session, bitmap: set<int>, step: MainStep): Run
    requires ValidJob(job)
  {
    match step
    case Dispatch =>
      if s.next >= job.Parts() || s.closed then Running(s)
      else if s.next in bitmap then Running(s.(next := s.next + 1))
      else Running(s.(next := s.next + 1, queue := s.queue + [s.next]))
    case StopDispatch => if s.canceled then Running(s.(closed := true)) else Running(s)
    case Close => if s.next >= job.Parts() then Running(s.(closed := true)) else Running(s)
    case Cancel => Running(s.(canceled := true))
    case Return =>
      if s.closed && forall w | 0 <= w < |s.workers| :: s.workers[w] == Gone
      then Returned(!s.failed && !s.canceled && s.doneBytes == job.Size()) else Running(s)
  }

  function ApplyWorker(job: Job, t: State, w: nat, step: WorkerStep): State
    requires ValidJob(job) && t.run.Running? && w < |t.run.s.workers|
  {
    var s := t.run.s;
    var me := s.workers[w];
    match step
    case Take =>
      if me != Idle || s.queue == [] then t
      else
        var popped := t.(run := Running(s.(queue := s.queue[1..])));
        Become(popped, w, if s.canceled then Gone else Fetching(s.queue[0]))
    case Fetched(bytes) =>  // a faithful fetch; an answer of the wrong length is refused
      if !me.Fetching? || !IsAnswer(job, me.part, bytes) then t
      else
        var remaining := job.Size() - StartOf(job, me.part);
        var data := if 0 < remaining < |bytes| then bytes[..remaining] else bytes;
        if |data| == LengthOf(job, me.part) then Become(t, w, Writing(me.part, data)) else Failed(t, w)
    case FetchFailed => if me.Fetching? then Failed(t, w) else t
    case Written =>
      if !me.Writing? then t
      else Become(t.(dest := Overwrite(t.dest, StartOf(job, me.part), me.data)), w, Counting(me.part))
    case WriteFailed(upto) =>  // some of the data may have been written
      if !me.Writing? || upto > |me.data| then t
      else Failed(t.(dest := Overwrite(t.dest, StartOf(job, me.part), me.data[..upto])), w)
    case Counted =>
      if !me.Counting? then t
      else
        var added := s.(doneBytes := s.doneBytes + LengthOf(job, me.part), counted := s.counted + {me.part});
        Become(t.(run := Running(added)), w, Marking(me.part))
    case Marked =>  // waits for the flush lock
      if !me.Marking? || t.lock != Free then t
      else if !t.resuming then Become(t, w, Idle)
      else Become(t.(bitmap := t.bitmap + {me.part}, dirty := t.dirty || me.part !in t.bitmap), w, Idle)
    case Exit =>
      if me == Idle && s.closed && s.queue == [] then Become(t, w, Gone) else t
  }

  /** The worker records its error, cancels the others and leaves. */
  function Failed(t: State, w: nat): State
    requires t.run.Running? && w < |t.run.s.workers|
  {
    Become(t.(run := Running(Fail(t.run.s))), w, Gone)
  }

  /** What a successful fetch of part `p` returns, as proved of the retry loop and of the CDN reader. */
  predicate IsAnswer(job: Job, p: nat, bytes: seq<Byte>)
    requires ValidJob(job)
  {
    0 <= StartOf(job, p) && bytes == Slice(job.file, StartOf(job, p), job.partSize)
  }

  // ---------- the invariant ----------

  /** Byte `x` of the content is the file's. */
  ghost predicate Right(job: Job, content: seq<Byte>, x: int) {
    0 <= x < |job.file| == |content| && content[x] == job.file[x]
  }

  ghost predicate PartRight(job: Job, content: seq<Byte>, p: int) {
    forall x | Inside(x, p, |job.file|, job.partSize) :: Right(job, content, x)
  }

  ghost predicate AllRight(job: Job, content: seq<Byte>, parts: set<int>) {
    forall p | p in parts :: PartRight(job, content, p)
  }

  ghost predicate AreParts(job: Job, parts: set<int>)
    requires ValidJob(job)
  {
    forall p | p in parts :: 0 <= p < job.Parts()
  }

  /** Nothing right in `a` is wrong in `b`. */
  ghost predicate NoWorse(job: Job, a: seq<Byte>, b: seq<Byte>) {
    |a| == |b| && forall x | Right(job, a, x) :: Right(job, b, x)
  }

  lemma NoWorseKeepsParts(job: Job, a: seq<Byte>, b: seq<Byte>, parts: set<int>)
    requires NoWorse(job, a, b) && AllRight(job, a, parts)
    ensures AllRight(job, b, parts)
  {
    forall p | p in parts ensures PartRight(job, b, p) {
      assert PartRight(job, a, p);
    }
  }

  /** The crash-safety invariant: the saved bits are true of the disk, and of what is read. */
  ghost predicate StorageInv(job: Job, t: State)
    requires ValidJob(job)
  {
    && |t.dest| == |t.disk| == |job.file|
    && NoWorse(job, t.disk, t.dest)
    && AreParts(job, t.saved) && AllRight(job, t.disk, t.saved)
    && AreParts(job, t.bitmap) && AllRight(job, t.dest, t.bitmap)
    && (t.lock == Synced ==> AllRight(job, t.disk, t.bitmap))
  }

  predicate Holding(me: Worker) {
    me.Fetching? || me.Writing? || me.Counting?
  }

  /** Two workers never hold the same uncounted part. */
  predicate Apart(a: Worker, b: Worker) {
    Holding(a) && Holding(b) ==> a.part != b.part
  }

  predicate AllApart(workers: seq<Worker>) {
    forall v, w {:trigger Apart(workers[v], workers[w])} | 0 <= v < w < |workers| :: Apart(workers[v], workers[w])
  }

  /** Parts are taken in order: every part taken so far is below this one. */
  function Floor(s: Session): nat {
    if s.queue == [] then s.next else s.queue[0]
  }

  predicate QueueInv(s: Session) {
    && (forall i, j | 0 <= i < j < |s.queue| :: s.queue[i] < s.queue[j])
    && (forall i | 0 <= i < |s.queue| :: s.queue[i] < s.next && s.queue[i] !in s.counted)
  }

  ghost predicate WorkerInv(job: Job, dest: seq<Byte>, floor: nat, counted: set<int>, me: Worker)
    requires ValidJob(job)
  {
    && (Holding(me) ==> me.part < floor && me.part !in counted)
    && (me.Writing? ==> IsAnswer(job, me.part, me.data) && |me.data| == LengthOf(job, me.part))
    && (me.Counting? ==> PartRight(job, dest, me.part))
    && (me.Marking? ==> me.part in counted)
  }

  ghost predicate WorkersInv(job: Job, dest: seq<Byte>, floor: nat, counted: set<int>, workers: seq<Worker>)
    requires ValidJob(job)
  {
    && AllApart(workers)
    && forall w | 0 <= w < |workers| :: WorkerInv(job, dest, floor, counted, workers[w])
  }

  ghost predicate CountInv(job: Job, dest: seq<Byte>, bitmap: set<int>, s: Session)
    requires ValidJob(job)
  {
    && AreParts(job, s.counted) && AllRight(job, dest, s.counted)
    && bitmap <= s.counted
    && (forall p | p in s.counted && s.next <= p :: p in bitmap)
    && s.doneBytes == TotalOf(job, s.counted)
  }

  /** A part is queued once, or held by one worker, or counted, or still to be dispatched. */
  ghost predicate SessionInv(job: Job, dest: seq<Byte>, bitmap: set<int>, s: Session)
    requires ValidJob(job)
  {
    && s.next <= job.Parts()
    && CountInv(job, dest, bitmap, s)
    && QueueInv(s)
    && WorkersInv(job, dest, Floor(s), s.counted, s.workers)
  }

  ghost predicate Inv(job: Job, t: State)
    requires ValidJob(job)
  {
    && StorageInv(job, t)
    && (t.run.Running? ==> SessionInv(job, t.dest, t.bitmap, t.run.s))
    && (t.run == Returned(true) ==> t.dest == job.file)
  }

  // ---------- every step keeps it ----------

  lemma WriteIsNoWorse(job: Job, content: seq<Byte>, start: int, data: seq<Byte>)
    requires |content| == |job.file| && 0 <= start && start + |data| <= |job.file|
    requires forall i | 0 <= i < |data| :: data[i] == job.file[start + i]
    ensures NoWorse(job, content, Overwrite(content, start, data))
    ensures forall x | start <= x < start + |data| :: Right(job, Overwrite(content, start, data), x)
  {
  }

  lemma AllPartsRight(job: Job, content: seq<Byte>, parts: set<int>)
    requires ValidJob(job) && |content| == |job.file| && AllRight(job, content, parts)
    requires forall p | 0 <= p < job.Parts() :: p in parts
    ensures content == job.file
  {
    forall x | 0 <= x < |job.file| ensures content[x] == job.file[x] {
      PartsTile(x, |job.file|, job.partSize);
      assert PartRight(job, content, x / job.partSize);
      assert Right(job, content, x);
    }
  }

  lemma StartKeepsInv(job: Job, t: State, workers: nat, bits: set<int>)
    requires ValidJob(job) && StorageInv(job, t) && t.lock == Free
    requires AreParts(job, bits) && AllRight(job, t.dest, bits)
    ensures Inv(job, Started(job, t, workers, bits))
  {
    TotalIsSizeIffAllDone(bits, |job.file|, job.partSize);
    if Started(job, t, workers, bits).run == Returned(true) {
      AllPartsRight(job, t.dest, bits);
    }
  }

  lemma WriteBackKeepsInv(job: Job, t: State, x: nat)
    requires ValidJob(job) && Inv(job, t) && x < |t.disk|
    ensures Inv(job, t.(disk := t.disk[x := t.dest[x]]))
  {
    var disk := t.disk[x := t.dest[x]];
    assert NoWorse(job, t.disk, disk) by {
      assert Right(job, t.disk, x) ==> Right(job, t.dest, x);
    }
    NoWorseKeepsParts(job, t.disk, disk, t.saved);
    if t.lock == Synced { NoWorseKeepsParts(job, t.disk, disk, t.bitmap); }
  }

  lemma FlushKeepsInv(job: Job, t: State, step: FlushStep)
    requires ValidJob(job) && Inv(job, t)
    ensures Inv(job, ApplyFlush(t, step))
  {
    if step == Sync && t.lock == Held { NoWorseKeepsParts(job, t.disk, t.dest, t.saved); }
  }

  lemma MainKeepsInv(job: Job, t: State, step: MainStep)
    requires ValidJob(job) && Inv(job, t) && t.run.Running?
    ensures Inv(job, t.(run := ApplyMain(job, t.run.s, t.bitmap, step)))
  {
    var s := t.run.s;
    var after := ApplyMain(job, s, t.bitmap, step);
    if after == Returned(true) {
      TotalIsSizeIffAllDone(s.counted, |job.file|, job.partSize);
      AllPartsRight(job, t.dest, s.counted);
    } else if after.Running? {
      MainKeepsQueue(job, s, t.bitmap, step);
      WorkersStay(job, t.dest, Floor(s), Floor(after.s), s.counted, s.workers);
    }
  }

  lemma MainKeepsQueue(job: Job, s: Session, bitmap: set<int>, step: MainStep)
    requires ValidJob(job) && QueueInv(s) && (forall p | p in s.counted && s.next <= p :: p in bitmap)
    ensures var after := ApplyMain(job, s, bitmap, step);
      after.Running? ==> QueueInv(after.s) && Floor(s) <= Floor(after.s)
  {
    var after := ApplyMain(job, s, bitmap, step);
    if step == Dispatch && s.next < job.Parts() && !s.closed && s.next !in bitmap {
      QueuedLast(s, after.s);
    } else if after.Running? {
      QueueStays(s, after.s);
    }
  }

  lemma QueueStays(s: Session, s': Session)
    requires QueueInv(s) && s'.queue == s.queue && s'.counted == s.counted && s.next <= s'.next
    ensures QueueInv(s') && Floor(s) <= Floor(s')
  {
  }

  lemma QueuedLast(s: Session, s': Session)
    requires QueueInv(s) && s.next !in s.counted
    requires s' == s.(next := s.next + 1, queue := s.queue + [s.next])
    ensures QueueInv(s') && Floor(s) <= Floor(s')
  {
    forall i | 0 <= i < |s'.queue| ensures s'.queue[i] < s'.next && s'.queue[i] !in s.counted {
      assert i < |s.queue| ==> s'.queue[i] == s.queue[i];
    }
  }

  lemma WorkersStay(job: Job, dest: seq<Byte>, floor: nat, floor': nat, counted: set<int>, workers: seq<Worker>)
    requires ValidJob(job) && WorkersInv(job, dest, floor, counted, workers) && floor <= floor'
    ensures WorkersInv(job, dest, floor', counted, workers)
  {
    forall w | 0 <= w < |workers| ensures WorkerInv(job, dest, floor', counted, workers[w]) {
      assert WorkerInv(job, dest, floor, counted, workers[w]);
    }
  }

  /** One worker changes hands; the others keep what they hold, unless it has been counted. */
  lemma OthersKeep(
      job: Job, dest: seq<Byte>, dest': seq<Byte>, floor: nat, floor': nat,
      counted: set<int>, counted': set<int>, workers: seq<Worker>, w: nat, to: Worker)
    requires ValidJob(job) && WorkersInv(job, dest, floor, counted, workers) && w < |workers|
    requires NoWorse(job, dest, dest') && floor <= floor' && counted <= counted'
    requires WorkerInv(job, dest', floor', counted', to)
    requires forall v | 0 <= v < |workers| && v != w :: Spared(counted', to, workers[v])
    ensures WorkersInv(job, dest', floor', counted', workers[w := to])
  {
    var workers' := workers[w := to];
    forall v | 0 <= v < |workers| && v != w ensures WorkerInv(job, dest', floor', counted', workers[v]) {
      assert WorkerInv(job, dest, floor, counted, workers[v]) && Spared(counted', to, workers[v]);
      if workers[v].Counting? { NoWorseKeepsParts(job, dest, dest', {workers[v].part as int}); }
    }
    forall u, v | 0 <= u < v < |workers| ensures Apart(workers'[u], workers'[v]) {
      assert u != w ==> Spared(counted', to, workers[u]);
      assert v != w ==> Spared(counted', to, workers[v]);
      assert Apart(workers[u], workers[v]);
    }
  }

  predicate Spared(counted: set<int>, to: Worker, other: Worker) {
    Apart(to, other) && (Holding(other) ==> other.part !in counted)
  }

  /** A change of `w` on top of a change `t0` that leaves the workers alone. */
  lemma BecomeKeepsInv(job: Job, t: State, t0: State, w: nat, to: Worker)
    requires ValidJob(job) && Inv(job, t) && t.run.Running? && w < |t.run.s.workers|
    requires StorageInv(job, t0) && t0.run.Running? && t0.run.s.workers == t.run.s.workers
    requires NoWorse(job, t.dest, t0.dest)
    requires t0.run.s.next <= job.Parts() && CountInv(job, t0.dest, t0.bitmap, t0.run.s) && QueueInv(t0.run.s)
    requires Floor(t.run.s) <= Floor(t0.run.s) && t.run.s.counted <= t0.run.s.counted
    requires WorkerInv(job, t0.dest, Floor(t0.run.s), t0.run.s.counted, to)
    requires forall v | 0 <= v < |t.run.s.workers| && v != w :: Spared(t0.run.s.counted, to, t.run.s.workers[v])
    ensures Inv(job, Become(t0, w, to))
  {
    OthersKeep(job, t.dest, t0.dest, Floor(t.run.s), Floor(t0.run.s),
      t.run.s.counted, t0.run.s.counted, t.run.s.workers, w, to);
  }

  /** The others hold neither the part that `w` holds nor a counted one. */
  lemma OthersSpared(job: Job, t: State, w: nat, to: Worker)
    requires ValidJob(job) && Inv(job, t) && t.run.Running? && w < |t.run.s.workers|
    requires Holding(to) ==> Holding(t.run.s.workers[w]) && to.part == t.run.s.workers[w].part
    ensures forall v | 0 <= v < |t.run.s.workers| && v != w :: Spared(t.run.s.counted, to, t.run.s.workers[v])
  {
    var s := t.run.s;
    forall v | 0 <= v < |s.workers| && v != w ensures Spared(s.counted, to, s.workers[v]) {
      assert WorkerInv(job, t.dest, Floor(s), s.counted, s.workers[v]);
      assert if v < w then Apart(s.workers[v], s.workers[w]) else Apart(s.workers[w], s.workers[v]);
    }
  }

  /** Writing what is right breaks nothing that is stored. */
  lemma RightDataKeepsStorage(job: Job, t: State, dest': seq<Byte>)
    requires ValidJob(job) && Inv(job, t) && t.run.Running? && NoWorse(job, t.dest, dest')
    ensures StorageInv(job, t.(dest := dest')) && CountInv(job, dest', t.bitmap, t.run.s)
  {
    NoWorseKeepsParts(job, t.dest, dest', t.bitmap);
    NoWorseKeepsParts(job, t.dest, dest', t.run.s.counted);
  }

  lemma TakeKeepsInv(job: Job, t: State, w: nat)
    requires ValidJob(job) && Inv(job, t) && t.run.Running? && w < |t.run.s.workers|
    ensures Inv(job, ApplyWorker(job, t, w, Take))
  {
    var s := t.run.s;
    if s.workers[w] == Idle && s.queue != [] {
      var s0 := s.(queue := s.queue[1..]);
      var to := if s.canceled then Gone else Fetching(s.queue[0]);
      assert Floor(s) < Floor(s0) by {
        assert s.queue[1..] != [] ==> s.queue[1..][0] == s.queue[1];
      }
      forall v | 0 <= v < |s.workers| && v != w ensures Spared(s.counted, to, s.workers[v]) {
        assert WorkerInv(job, t.dest, Floor(s), s.counted, s.workers[v]);
      }
      BecomeKeepsInv(job, t, t.(run := Running(s0)), w, to);
    }
  }

  /** Giving up drops the part. */
  lemma FailedKeepsInv(job: Job, t: State, dest': seq<Byte>, w: nat)
    requires ValidJob(job) && Inv(job, t) && t.run.Running? && w < |t.run.s.workers| && NoWorse(job, t.dest, dest')
    ensures Inv(job, Failed(t.(dest := dest'), w))
  {
    RightDataKeepsStorage(job, t, dest');
    OthersSpared(job, t, w, Gone);
    BecomeKeepsInv(job, t, t.(dest := dest', run := Running(Fail(t.run.s))), w, Gone);
  }

  lemma FetchedKeepsInv(job: Job, t: State, w: nat, bytes: seq<Byte>)
    requires ValidJob(job) && Inv(job, t) && t.run.Running? && w < |t.run.s.workers|
    ensures Inv(job, ApplyWorker(job, t, w, Fetched(bytes)))
  {
    var me := t.run.s.workers[w];
    if me.Fetching? && IsAnswer(job, me.part, bytes) {
      assert WorkerInv(job, t.dest, Floor(t.run.s), t.run.s.counted, me);
      PartFits(me.part, |job.file|, job.partSize);
      FaithfulAnswerFills(job, me.part, bytes);
      OthersSpared(job, t, w, Writing(me.part, bytes));
      BecomeKeepsInv(job, t, t, w, Writing(me.part, bytes));
    }
  }

  /** A faithful answer has exactly the length of the part, so it is never refused. */
  lemma FaithfulAnswerFills(job: Job, p: nat, bytes: seq<Byte>)
    requires ValidJob(job) && p < job.Parts() && IsAnswer(job, p, bytes)
    ensures |bytes| == LengthOf(job, p)
    ensures forall i | 0 <= i < |bytes| :: bytes[i] == job.file[StartOf(job, p) + i]
    ensures !(0 < job.Size() - StartOf(job, p) < |bytes|)
  {
    PartFits(p, |job.file|, job.partSize);
  }

  lemma WrittenKeepsInv(job: Job, t: State, w: nat)
    requires ValidJob(job) && Inv(job, t) && t.run.Running? && w < |t.run.s.workers|
    ensures Inv(job, ApplyWorker(job, t, w, Written))
  {
    var me := t.run.s.workers[w];
    if me.Writing? {
      assert WorkerInv(job, t.dest, Floor(t.run.s), t.run.s.counted, me);
      PartFits(me.part, |job.file|, job.partSize);
      FaithfulAnswerFills(job, me.part, me.data);
      var dest' := Overwrite(t.dest, StartOf(job, me.part), me.data);
      WriteIsNoWorse(job, t.dest, StartOf(job, me.part), me.data);
      RightDataKeepsStorage(job, t, dest');
      OthersSpared(job, t, w, Counting(me.part));
      assert PartRight(job, dest', me.part);
      BecomeKeepsInv(job, t, t.(dest := dest'), w, Counting(me.part));
    }
  }

  lemma WriteFailedKeepsInv(job: Job, t: State, w: nat, upto: nat)
    requires ValidJob(job) && Inv(job, t) && t.run.Running? && w < |t.run.s.workers|
    ensures Inv(job, ApplyWorker(job, t, w, WriteFailed(upto)))
  {
    var me := t.run.s.workers[w];
    if me.Writing? && upto <= |me.data| {
      assert WorkerInv(job, t.dest, Floor(t.run.s), t.run.s.counted, me);
      PartFits(me.part, |job.file|, job.partSize);
      FaithfulAnswerFills(job, me.part, me.data);
      WriteIsNoWorse(job, t.dest, StartOf(job, me.part), me.data[..upto]);
      FailedKeepsInv(job, t, Overwrite(t.dest, StartOf(job, me.part), me.data[..upto]), w);
    }
  }

  lemma CountedKeepsInv(job: Job, t: State, w: nat)
    requires ValidJob(job) && Inv(job, t) && t.run.Running? && w < |t.run.s.workers|
    ensures Inv(job, ApplyWorker(job, t, w, Counted))
  {
    var s := t.run.s;
    var me := s.workers[w];
    if me.Counting? {
      assert WorkerInv(job, t.dest, Floor(s), s.counted, me);
      var s0 := s.(doneBytes := s.doneBytes + LengthOf(job, me.part), counted := s.counted + {me.part});
      TotalOfOneMore(s.counted, me.part, job.Parts(), |job.file|, job.partSize);
      OthersSpared(job, t, w, me);
      forall v | 0 <= v < |s.workers| && v != w ensures Spared(s0.counted, Marking(me.part), s.workers[v]) {
        assert Spared(s.counted, me, s.workers[v]);
      }
      BecomeKeepsInv(job, t, t.(run := Running(s0)), w, Marking(me.part));
    }
  }

  lemma MarkedKeepsInv(job: Job, t: State, w: nat)
    requires ValidJob(job) && Inv(job, t) && t.run.Running? && w < |t.run.s.workers|
    ensures Inv(job, ApplyWorker(job, t, w, Marked))
  {
    var s := t.run.s;
    var me := s.workers[w];
    if me.Marking? && t.lock == Free {
      assert WorkerInv(job, t.dest, Floor(s), s.counted, me);
      OthersSpared(job, t, w, Idle);
      var bitmap' := if t.resuming then t.bitmap + {me.part} else t.bitmap;
      var dirty' := if t.resuming then t.dirty || me.part !in t.bitmap else t.dirty;
      BecomeKeepsInv(job, t, t.(bitmap := bitmap', dirty := dirty'), w, Idle);
    }
  }

  lemma WorkerKeepsInv(job: Job, t: State, w: nat, step: WorkerStep)
    requires ValidJob(job) && Inv(job, t) && t.run.Running? && w < |t.run.s.workers|
    ensures Inv(job, ApplyWorker(job, t, w, step))
  {
    match step
    case Take => TakeKeepsInv(job, t, w);
    case Fetched(bytes) => FetchedKeepsInv(job, t, w, bytes);
    case FetchFailed => FailedKeepsInv(job, t, t.dest, w);
    case Written => WrittenKeepsInv(job, t, w);
    case WriteFailed(upto) => WriteFailedKeepsInv(job, t, w, upto);
    case Counted => CountedKeepsInv(job, t, w);
    case Marked => MarkedKeepsInv(job, t, w);
    case Exit => ExitKeepsInv(job, t, w);
  }

  lemma ExitKeepsInv(job: Job, t: State, w: nat)
    requires ValidJob(job) && Inv(job, t) && t.run.Running? && w < |t.run.s.workers|
    ensures Inv(job, ApplyWorker(job, t, w, Exit))
  {
    OthersSpared(job, t, w, Gone);
    BecomeKeepsInv(job, t, t, w, Gone);
  }

  // ---------- whole runs ----------

  /** Starting over must not leave behind saved bits that are false of the new content: none, in practice. */
  ghost predicate Careful(job: Job, t: State, e: Event) {
    e.StartOver? ==> AllRight(job, e.content, t.saved)
  }

  lemma ApplyKeepsInv(job: Job, t: State, e: Event)
    requires ValidJob(job) && Inv(job, t) && Careful(job, t, e)
    ensures Inv(job, Apply(job, t, e))
  {
    match e
    case Crash =>
    case Restart(workers) =>
      NoWorseKeepsParts(job, t.disk, t.dest, t.saved);
      if !t.run.Running? && t.lock == Free { StartKeepsInv(job, t.(resuming := true), workers, t.saved); }
    case StartOver(workers, resuming, content) =>
      if !t.run.Running? && t.lock == Free && |content| == |job.file| {
        StartKeepsInv(job, t.(dest := content, disk := content, bitmap := {}, resuming := resuming), workers, {});
      }
    case Finish =>
      if t.run == Returned(true) { NoWorseKeepsParts(job, t.disk, t.dest, t.saved); }
    case WriteBack(x) => if x < |t.disk| { WriteBackKeepsInv(job, t, x); }
    case Flush(step) => FlushKeepsInv(job, t, step);
    case Main(step) => if t.run.Running? { MainKeepsInv(job, t, step); }
    case Work(w, step) => if t.run.Running? && w < |t.run.s.workers| { WorkerKeepsInv(job, t, w, step); }
  }

  ghost function After(job: Job, t: State, events: seq<Event>): State
    requires ValidJob(job)
    decreases |events|
  {
    if events == [] then t else After(job, Apply(job, t, events[0]), events[1..])
  }

  ghost predicate CarefulRun(job: Job, t: State, events: seq<Event>)
    requires ValidJob(job)
    decreases |events|
  {
    events == [] || (Careful(job, t, events[0]) && CarefulRun(job, Apply(job, t, events[0]), events[1..]))
  }

  lemma {:induction false} RunKeepsInv(job: Job, t: State, events: seq<Event>)
    requires ValidJob(job) && Inv(job, t) && CarefulRun(job, t, events)
    ensures Inv(job, After(job, t, events))
    decreases |events|
  {
    if events != [] {
      ApplyKeepsInv(job, t, events[0]);
      RunKeepsInv(job, Apply(job, t, events[0]), events[1..]);
    }
  }

  /** What a crash leaves, or a machine just started. */
  function Stopped(disk: seq<Byte>, saved: set<int>): State {
    State(disk, disk, saved, false, {}, false, Free, NotRunning)
  }

  ghost predicate Fits(job: Job, disk: seq<Byte>, saved: set<int>)
    requires ValidJob(job)
  {
    |disk| == |job.file| && AreParts(job, saved)
  }

  /** Crash safety: from a truthful start, whatever happens, the bits that are on disk are true of the data that
      is on disk, so that a crash leads to a truthful start again. */
  lemma SavedBitsAreTrue(job: Job, disk: seq<Byte>, saved: set<int>, events: seq<Event>)
    requires ValidJob(job) && Fits(job, disk, saved) && AllRight(job, disk, saved)
    requires CarefulRun(job, Stopped(disk, saved), events)
    ensures var t := After(job, Stopped(disk, saved), events);
      Fits(job, t.disk, t.saved) && AllRight(job, t.disk, t.saved)
  {
    RunKeepsInv(job, Stopped(disk, saved), events);
  }

  /** And a download that reports success has written every byte of the file, its count of done bytes being the
      total length of the parts that are complete. */
  lemma SuccessIsTheFile(job: Job, disk: seq<Byte>, saved: set<int>, events: seq<Event>)
    requires ValidJob(job) && Fits(job, disk, saved) && AllRight(job, disk, saved)
    requires CarefulRun(job, Stopped(disk, saved), events)
    ensures var t := After(job, Stopped(disk, saved), events);
      && (t.run == Returned(true) ==> t.dest == job.file)
      && (t.run.Running? ==>
        AllRight(job, t.dest, t.run.s.counted) && t.run.s.doneBytes == TotalOf(job, t.run.s.counted))
  {
    RunKeepsInv(job, Stopped(disk, saved), events);
  }

  // ---------- exactly when a download can be trusted ----------

  ghost predicate AlwaysTheFile(job: Job, t: State)
    requires ValidJob(job)
  {
    forall events | CarefulRun(job, t, events) :: SucceedsOnlyRight(job, After(job, t, events))
  }

  predicate SucceedsOnlyRight(job: Job, t: State) {
    t.run == Returned(true) ==> t.dest == job.file
  }

  /** The only worker is idle, nothing is queued, and all parts before the next one are counted. */
  ghost predicate Alone(job: Job, t: State)
    requires ValidJob(job)
  {
    && |t.dest| == |job.file| && t.lock == Free && t.resuming && t.run.Running?
    && var s := t.run.s;
    && s.workers == [Idle] && s.queue == [] && !s.closed && !s.failed && !s.canceled && s.next <= job.Parts()
    && (forall p | 0 <= p < s.next :: p in s.counted)
    && (forall p | p in s.counted && s.next <= p :: p in t.bitmap)
    && t.bitmap <= s.counted
    && s.doneBytes == TotalOf(job, s.counted)
  }

  /** The bytes of marked parts have not been touched. */
  ghost predicate KeepsMarked(job: Job, t: State, dest: seq<Byte>)
    requires ValidJob(job)
  {
    |dest| == |t.dest| && forall x | 0 <= x < |dest| && x / job.partSize in t.bitmap :: dest[x] == t.dest[x]
  }

  function PartSteps(job: Job, p: nat): seq<Event>
    requires ValidJob(job)
  {
    FetchSteps(job, p) + StoreSteps()
  }

  function FetchSteps(job: Job, p: nat): seq<Event>
    requires ValidJob(job)
  {
    Monotone(0, p, job.partSize);
    [Main(Dispatch), Work(0, Take), Work(0, Fetched(Slice(job.file, StartOf(job, p), job.partSize)))]
  }

  function StoreSteps(): seq<Event> {
    [Work(0, Written), Work(0, Counted), Work(0, Marked)]
  }

  lemma FirstStep(job: Job, t: State, es: seq<Event>)
    requires ValidJob(job) && es != []
    ensures After(job, t, es) == After(job, Apply(job, t, es[0]), es[1..])
    ensures Careful(job, t, es[0]) && CarefulRun(job, Apply(job, t, es[0]), es[1..]) ==> CarefulRun(job, t, es)
  {
  }

  lemma NoStep(job: Job, t: State)
    requires ValidJob(job)
    ensures After(job, t, []) == t && CarefulRun(job, t, [])
  {
  }

  lemma Three(job: Job, t: State, es: seq<Event>)
    requires ValidJob(job) && |es| == 3
    ensures After(job, t, es) == Apply(job, Apply(job, Apply(job, t, es[0]), es[1]), es[2])
    ensures (forall i | 0 <= i < 3 :: !es[i].StartOver?) ==> CarefulRun(job, t, es)
  {
    var t1 := Apply(job, t, es[0]);
    var t2 := Apply(job, t1, es[1]);
    assert es[1..][1..] == es[2..] && es[2..][1..] == [];
    FirstStep(job, t, es);
    FirstStep(job, t1, es[1..]);
    FirstStep(job, t2, es[2..]);
    NoStep(job, Apply(job, t2, es[2]));
  }

  lemma {:induction false} RunsCompose(job: Job, t: State, a: seq<Event>, b: seq<Event>)
    requires ValidJob(job) && CarefulRun(job, t, a) && CarefulRun(job, After(job, t, a), b)
    ensures CarefulRun(job, t, a + b) && After(job, t, a + b) == After(job, After(job, t, a), b)
    decreases |a|
  {
    if a == [] {
      assert a + b == b;
    } else {
      RunsCompose(job, Apply(job, t, a[0]), a[1..], b);
      assert (a + b)[1..] == a[1..] + b;
    }
  }

  lemma Replaced(a: Worker, b: Worker)
    ensures [a][0 := b] == [b]
  {
  }

  lemma AnswerAlone(job: Job, t: State, p: nat, data: seq<Byte>)
    requires ValidJob(job) && p < job.Parts() && IsAnswer(job, p, data)
    requires t.run.Running? && t.run.s.workers == [Fetching(p)]
    ensures Apply(job, t, Work(0, Fetched(data))) == t.(run := Running(t.run.s.(workers := [Writing(p, data)])))
  {
    FaithfulAnswerFills(job, p, data);
    Replaced(Fetching(p), Writing(p, data));
  }

  lemma TakenAlone(job: Job, t: State)
    requires ValidJob(job) && Alone(job, t) && t.run.s.next < job.Parts() && t.run.s.next !in t.bitmap
    ensures var s := t.run.s;
      Apply(job, Apply(job, t, Main(Dispatch)), Work(0, Take))
        == t.(run := Running(s.(next := s.next + 1, workers := [Fetching(s.next)])))
  {
    var s := t.run.s;
    var t1 := t.(run := Running(s.(next := s.next + 1, queue := [s.next])));
    Replaced(Idle, Fetching(s.next));
    assert Apply(job, t, Main(Dispatch)) == t1 by { assert [] + [s.next] == [s.next]; }
    assert [s.next][1..] == [];
  }

  lemma FetchedAlone(job: Job, t: State, data: seq<Byte>)
    requires ValidJob(job) && Alone(job, t) && t.run.s.next < job.Parts() && t.run.s.next !in t.bitmap
    requires 0 <= StartOf(job, t.run.s.next) && data == Slice(job.file, StartOf(job, t.run.s.next), job.partSize)
    ensures var s := t.run.s;
      After(job, t, FetchSteps(job, s.next))
        == t.(run := Running(s.(next := s.next + 1, workers := [Writing(s.next, data)])))
    ensures CarefulRun(job, t, FetchSteps(job, t.run.s.next))
  {
    var s := t.run.s;
    var p := s.next;
    var es := FetchSteps(job, p);
    Three(job, t, es);
    TakenAlone(job, t);
    var t2 := Apply(job, Apply(job, t, es[0]), es[1]);
    AnswerAlone(job, t2, p, data);
  }

  lemma StoredAlone(job: Job, t: State, p: nat, data: seq<Byte>)
    requires ValidJob(job) && t.run.Running? && t.run.s.workers == [Writing(p, data)] && t.lock == Free && t.resuming
    ensures var s := t.run.s;
      After(job, t, StoreSteps()) == t.(
        dest := Overwrite(t.dest, StartOf(job, p), data), bitmap := t.bitmap + {p}, dirty := t.dirty || p !in t.bitmap,
        run := Running(s.(workers := [Idle], doneBytes := s.doneBytes + LengthOf(job, p), counted := s.counted + {p})))
    ensures CarefulRun(job, t, StoreSteps())
  {
    var es := StoreSteps();
    Three(job, t, es);
    CountedAlone(job, t, p, data);
    Replaced(Marking(p), Idle);
  }

  lemma CountedAlone(job: Job, t: State, p: nat, data: seq<Byte>)
    requires ValidJob(job) && t.run.Running? && t.run.s.workers == [Writing(p, data)]
    ensures var s := t.run.s;
      Apply(job, Apply(job, t, Work(0, Written)), Work(0, Counted)) == t.(
        dest := Overwrite(t.dest, StartOf(job, p), data),
        run := Running(s.(workers := [Marking(p)], doneBytes := s.doneBytes + LengthOf(job, p),
                          counted := s.counted + {p})))
  {
    var s := t.run.s;
    Replaced(Writing(p, data), Counting(p));
    Replaced(Counting(p), Marking(p));
    assert Apply(job, t, Work(0, Written))
      == t.(dest := Overwrite(t.dest, StartOf(job, p), data), run := Running(s.(workers := [Counting(p)])));
  }

  /** The worker fetches, writes, counts and marks the next part. */
  lemma PartAlone(job: Job, t: State) returns (t': State)
    requires ValidJob(job) && Alone(job, t) && t.run.s.next < job.Parts() && t.run.s.next !in t.bitmap
    ensures CarefulRun(job, t, PartSteps(job, t.run.s.next)) && After(job, t, PartSteps(job, t.run.s.next)) == t'
    ensures Alone(job, t') && t'.run.s.next == t.run.s.next + 1
    ensures KeepsMarked(job, t, t'.dest) && t.bitmap <= t'.bitmap
  {
    var s := t.run.s;
    var p := s.next;
    PartFits(p, |job.file|, job.partSize);
    var data := Slice(job.file, StartOf(job, p), job.partSize);
    FetchedAlone(job, t, data);
    var t3 := After(job, t, FetchSteps(job, p));
    StoredAlone(job, t3, p, data);
    t' := After(job, t3, StoreSteps());
    RunsCompose(job, t, FetchSteps(job, p), StoreSteps());
    TotalOfOneMore(s.counted, p, job.Parts(), |job.file|, job.partSize);
    OtherPartsUntouched(job, t.dest, p, data, t.bitmap);
  }

  lemma OtherPartsUntouched(job: Job, dest: seq<Byte>, p: nat, data: seq<Byte>, marked: set<int>)
    requires ValidJob(job) && |dest| == |job.file| && p < job.Parts() && p !in marked && |data| <= LengthOf(job, p)
    ensures forall x | 0 <= x < |dest| && x / job.partSize in marked ::
      Overwrite(dest, StartOf(job, p), data)[x] == dest[x]
  {
    forall x | 0 <= x < |dest| && x / job.partSize in marked
      ensures Overwrite(dest, StartOf(job, p), data)[x] == dest[x]
    {
      PartsTile(x, |job.file|, job.partSize);
      assert !Inside(x, p, |job.file|, job.partSize);
    }
  }

  /** One worker, undisturbed, brings the download to a success, and does not touch what was marked. */
  lemma {:induction false} AloneSucceeds(job: Job, t: State) returns (events: seq<Event>)
    requires ValidJob(job) && Alone(job, t)
    ensures CarefulRun(job, t, events)
    ensures After(job, t, events).run == Returned(true) && KeepsMarked(job, t, After(job, t, events).dest)
    decreases job.Parts() - t.run.s.next
  {
    var s := t.run.s;
    if s.next == job.Parts() {
      TotalIsSizeIffAllDone(s.counted, |job.file|, job.partSize);
      events := LeaveAlone(job, t);
    } else if s.next in t.bitmap {
      var t' := Apply(job, t, Main(Dispatch));
      assert Alone(job, t') && t'.dest == t.dest && t'.bitmap == t.bitmap;
      var rest := AloneSucceeds(job, t');
      events := [Main(Dispatch)] + rest;
      assert events[1..] == rest;
    } else {
      var t' := PartAlone(job, t);
      var rest := AloneSucceeds(job, t');
      events := PartSteps(job, s.next) + rest;
      RunsCompose(job, t, PartSteps(job, s.next), rest);
    }
  }

  lemma LeaveAlone(job: Job, t: State) returns (events: seq<Event>)
    requires ValidJob(job) && Alone(job, t) && t.run.s.next == job.Parts() && t.run.s.doneBytes == job.Size()
    ensures CarefulRun(job, t, events) && After(job, t, events) == t.(run := Returned(true))
  {
    events := [Main(Close), Work(0, Exit), Main(Return)];
    Replaced(Idle, Gone);
    Three(job, t, events);
    var t1 := t.(run := Running(t.run.s.(closed := true)));
    var t2 := t.(run := Running(t.run.s.(closed := true, workers := [Gone])));
    assert Apply(job, t, events[0]) == t1;
    assert Apply(job, t1, events[1]) == t2;
  }

  /** A saved bit that is not true of the disk ends in a success with the wrong content. */
  lemma FalseBitIsBelieved(job: Job, disk: seq<Byte>, saved: set<int>) returns (events: seq<Event>)
    requires ValidJob(job) && Fits(job, disk, saved) && !AllRight(job, disk, saved)
    ensures var t := Stopped(disk, saved);
      CarefulRun(job, t, events) && !SucceedsOnlyRight(job, After(job, t, events))
  {
    var t := Stopped(disk, saved);
    var x := FalseByte(job, disk, saved);
    var t1 := Apply(job, t, Restart(1));
    assert |disk| == |t1.dest| && t1.bitmap == saved;
    var rest := [];
    if t1.run.Running? {
      assert seq(1, i => Idle) == [Idle];
      rest := AloneSucceeds(job, t1);
    }
    events := [Restart(1)] + rest;
    assert events[1..] == rest;
  }

  lemma FalseByte(job: Job, disk: seq<Byte>, saved: set<int>) returns (x: int)
    requires ValidJob(job) && Fits(job, disk, saved) && !AllRight(job, disk, saved)
    ensures 0 <= x < |disk| && x / job.partSize in saved && disk[x] != job.file[x]
  {
    var p :| p in saved && !PartRight(job, disk, p);
    x :| Inside(x, p, |job.file|, job.partSize) && !Right(job, disk, x);
    PartFits(p, |job.file|, job.partSize);
    PartsTile(x, |job.file|, job.partSize);
  }

  /** So downloads from here on deliver the file, whatever happens, exactly when the saved bits are true. */
  lemma TrustedExactlyWhenTrue(job: Job, disk: seq<Byte>, saved: set<int>)
    requires ValidJob(job) && Fits(job, disk, saved)
    ensures AlwaysTheFile(job, Stopped(disk, saved)) <==> AllRight(job, disk, saved)
  {
    if AllRight(job, disk, saved) {
      forall events | CarefulRun(job, Stopped(disk, saved), events)
        ensures SucceedsOnlyRight(job, After(job, Stopped(disk, saved), events))
      {
        SuccessIsTheFile(job, disk, saved, events);
      }
    } else {
      var events := FalseBitIsBelieved(job, disk, saved);
    }
  }

  /** Starting over replaces the content but not the progress file.  If the machine then stops, later downloads
      deliver the file exactly when every bit left behind happens to be true of the new content. */
  lemma StartingOverIsSafeExactlyWhen(
      job: Job, disk: seq<Byte>, saved: set<int>, content: seq<Byte>, workers: nat, resuming: bool)
    requires ValidJob(job) && Fits(job, disk, saved) && |content| == |job.file|
    ensures AlwaysTheFile(job, StoppedAfterStartingOver(job, disk, saved, content, workers, resuming))
      <==> AllRight(job, content, saved)
  {
    TrustedExactlyWhenTrue(job, content, saved);
  }

  /** The caller does not know the file yet.  What it can check is what later downloads of this part size will
      find marked: starting over is safe, whatever the file of that size turns out to be, exactly when that is
      nothing.  StartingOver says the same of downloads with any parameters. */
  lemma StartingOverIsSafeForEveryFileExactlyWhen(
      disk: seq<Byte>, partSize: int, saved: set<int>, content: seq<Byte>, workers: nat, resuming: bool)
    requires 0 < |content| == |disk| && 0 < partSize
    requires forall p | p in saved :: 0 <= p < Count(|content|, partSize)
    ensures (forall job | IsJobFor(job, |content|, partSize) ::
      AlwaysTheFile(job, StoppedAfterStartingOver(job, disk, saved, content, workers, resuming)))
      <==> saved == {}
  {
    forall job | IsJobFor(job, |content|, partSize)
      ensures AlwaysTheFile(job, StoppedAfterStartingOver(job, disk, saved, content, workers, resuming))
        <==> AllRight(job, content, saved)
    {
      StartingOverIsSafeExactlyWhen(job, disk, saved, content, workers, resuming);
    }
    if p :| p in saved {
      var job := OtherFile(content, partSize, p);
      assert !PartRight(job, content, p);
      assert !AlwaysTheFile(job, StoppedAfterStartingOver(job, disk, saved, content, workers, resuming));
    } else {
      NothingIn(saved);
    }
  }

  lemma NothingIn(s: set<int>)
    requires forall x :: x !in s
    ensures s == {}
  {
    assert s - s == {};
    assert forall x | x in s :: x in s - s;
    assert s == s - s;
  }

  ghost predicate IsJobFor(job: Job, size: int, partSize: int) {
    ValidJob(job) && |job.file| == size && job.partSize == partSize
  }

  function StoppedAfterStartingOver(
      job: Job, disk: seq<Byte>, saved: set<int>, content: seq<Byte>, workers: nat, resuming: bool): State
    requires ValidJob(job)
  {
    Apply(job, Apply(job, Stopped(disk, saved), StartOver(workers, resuming, content)), Crash)
  }

  /** A file that differs from the content in part `p`. */
  lemma OtherFile(content: seq<Byte>, partSize: int, p: int) returns (job: Job)
    requires 0 < |content| && 0 < partSize && 0 <= p < Count(|content|, partSize)
    ensures IsJobFor(job, |content|, partSize) && !PartRight(job, content, p)
  {
    PartFits(p, |content|, partSize);
    var x := Start(p, partSize);
    job := Job(content[x := if content[x] == 0 then 1 else 0], partSize);
    assert Inside(x, p, |job.file|, partSize) && !Right(job, content, x);
  }

  /** For instance: all parts downloaded and marked; a download without resume truncates the destination and
      dies; the next one, with resume, believes the old progress file. */
  lemma StaleProgressLosesTheFile(job: Job, content: seq<Byte>, saved: set<int>, workers: nat)
    requires ValidJob(job) && |content| == |job.file| && content != job.file
    requires AreParts(job, saved) && forall p | 0 <= p < job.Parts() :: p in saved
    ensures AllRight(job, job.file, saved)
    ensures var es := [StartOver(workers, false, content), Crash, Restart(workers)];
      var end := After(job, Stopped(job.file, saved), es);
      end.run == Returned(true) && end.dest == content
  {
    var t := Stopped(job.file, saved);
    var es := [StartOver(workers, false, content), Crash, Restart(workers)];
    FileIsRight(job, saved);
    Three(job, t, es);
    assert Apply(job, Apply(job, t, es[0]), es[1]) == Stopped(content, saved);
    AllMarkedIsDone(job, Stopped(content, saved), workers);
  }

  lemma AllMarkedIsDone(job: Job, t: State, workers: nat)
    requires ValidJob(job) && t.run == NotRunning && t.lock == Free
    requires AreParts(job, t.saved) && forall p | 0 <= p < job.Parts() :: p in t.saved
    ensures Apply(job, t, Restart(workers)).run == Returned(true) && Apply(job, t, Restart(workers)).dest == t.dest
  {
    TotalIsSizeIffAllDone(t.saved, |job.file|, job.partSize);
  }

  lemma FileIsRight(job: Job, parts: set<int>)
    requires ValidJob(job) && AreParts(job, parts)
    ensures AllRight(job, job.file, parts)
  {
    forall p | p in parts ensures PartRight(job, job.file, p) {
      PartFits(p, |job.file|, job.partSize);
    }
  }
}
