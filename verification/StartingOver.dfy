/** What an old progress file does to downloads with any parameters (telegram/media.go): the bits that a
    download finds depend on its part size and location, the file that it writes does not. */
module StartingOver {
  import opened Files
  import opened Parts
  import Resume = ResumeState
  import opened ParallelDownload

  /** The parts that a download of these parameters finds marked in a progress file. */
  function MarksFor(progress: seq<Byte>, size: int, partSize: int, locKey: seq<Byte>): set<int> {
    match Resume.LoadFrom(progress, size, partSize, locKey)
    case Loaded(bits) => Resume.Marked(bits, Count(size, partSize))
    case Rejected => {}
  }

  /** No download of this size finds a mark: the progress file is missing, belongs to another size, is damaged,
      or has no bit set. */
  ghost predicate HasNoMarks(progress: seq<Byte>, size: int) {
    forall partSize, locKey: seq<Byte> :: MarksFor(progress, size, partSize, locKey) == {}
  }

  /** A download `first` starts over and dies.  Every download that resumes after it delivers its own file,
      whatever that file, its part size and its location are. */
  ghost predicate SafeForAll(
      first: Job, disk: seq<Byte>, progress: seq<Byte>, content: seq<Byte>, workers: nat, resuming: bool)
    requires ValidJob(first)
  {
    forall later: Job, locKey: seq<Byte> | ValidJob(later) && |later.file| == |content| ::
      AlwaysTheFile(later, LeftFor(first, later.partSize, locKey, disk, progress, content, workers, resuming))
  }

  /** What it leaves, as a download of this part size and location finds it. */
  function LeftFor(first: Job, partSize: int, locKey: seq<Byte>, disk: seq<Byte>, progress: seq<Byte>,
                   content: seq<Byte>, workers: nat, resuming: bool): State
    requires ValidJob(first)
  {
    var saved := MarksFor(progress, |content|, partSize, locKey);
    StoppedAfterStartingOver(first, disk, saved, content, workers, resuming)
  }

  /** The new content and the old progress file, whatever the part size of the first download was. */
  lemma StartingOverLeaves(first: Job, partSize: int, locKey: seq<Byte>, disk: seq<Byte>, progress: seq<Byte>,
                           content: seq<Byte>, workers: nat, resuming: bool)
    requires ValidJob(first) && |content| == |first.file|
    ensures LeftFor(first, partSize, locKey, disk, progress, content, workers, resuming)
      == Stopped(content, MarksFor(progress, |content|, partSize, locKey))
  {
  }

  /** Main result: starting over is safe for all later downloads exactly when no download of this size finds a
      mark in the progress file. */
  lemma SafeForAllExactlyWhen(
      first: Job, disk: seq<Byte>, progress: seq<Byte>, content: seq<Byte>, workers: nat, resuming: bool)
    requires ValidJob(first) && |content| == |first.file|
    ensures SafeForAll(first, disk, progress, content, workers, resuming) <==> HasNoMarks(progress, |content|)
  {
    if HasNoMarks(progress, |content|) {
      forall later: Job, locKey: seq<Byte> | ValidJob(later) && |later.file| == |content|
        ensures AlwaysTheFile(later, LeftFor(first, later.partSize, locKey, disk, progress, content, workers, resuming))
      {
        StartingOverLeaves(first, later.partSize, locKey, disk, progress, content, workers, resuming);
        assert MarksFor(progress, |content|, later.partSize, locKey) == {};
        TrustedExactlyWhenTrue(later, content, {});
      }
    } else {
      var partSize, locKey: seq<Byte> :| MarksFor(progress, |content|, partSize, locKey) != {};
      StartingOverLeaves(first, partSize, locKey, disk, progress, content, workers, resuming);
      var later := MarkMisleads(progress, content, partSize, locKey);
      assert !AlwaysTheFile(later, LeftFor(first, later.partSize, locKey, disk, progress, content, workers, resuming));
    }
  }

  /** For every mark that a download of some parameters finds, one of them fails to deliver its file. */
  lemma MarkMisleads(progress: seq<Byte>, content: seq<Byte>, partSize: int, locKey: seq<Byte>) returns (later: Job)
    requires 0 < |content| && MarksFor(progress, |content|, partSize, locKey) != {}
    ensures IsJobFor(later, |content|, partSize)
    ensures !AlwaysTheFile(later, Stopped(content, MarksFor(progress, |content|, partSize, locKey)))
  {
    var marks := MarksFor(progress, |content|, partSize, locKey);
    if p :| p in marks {
      later := OtherFile(content, partSize, p);
      TrustedExactlyWhenTrue(later, content, marks);
    } else {
      later := Job(content, 1);
      NothingIn(marks);
    }
  }

  /** And this can be checked: at most one part size and location load, those written in its header. */
  lemma OneDownloadLoads(progress: seq<Byte>, size: int, p: int, q: int, a: seq<Byte>, b: seq<Byte>)
    requires Resume.LoadFrom(progress, size, p, a).Loaded? && Resume.LoadFrom(progress, size, q, b).Loaded?
    ensures p == q && a == b
  {
  }
}
