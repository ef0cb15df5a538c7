/** The history pager iterHistory (telegram/messages.go), against an arbitrary server.

    The server is a function of the fetch number and the request, the callback a function of the number of
    the delivery; both may answer anything.  `rounds` bounds how many fetches are watched, so that a
    server that fails forever is covered too: every claim holds of every finite part of every run. */
module HistoryPager {

  datatype Item = Message(id: int, date: int) | Service(id: int, date: int) | EmptyMessage(id: int) | Nil

  datatype Request = Request(offsetId: int, offsetDate: int, limit: int)

  datatype Response =
    | Complete(batch: seq<Item>)  // messages.messages: the whole history
    | Slice(batch: seq<Item>)     // a slice, or a channel's messages
    | NotModified
    | Unexpected
    | Failure(retry: bool)        // a flood wait, or what the error callback decides

  datatype Answer = Continue | Stop | Refuse

  /** How a page ended: every message passed on, the limit reached, or the callback's doing. */
  datatype PageEnd = PageDone | Full | StoppedByCallback | RefusedByCallback

  datatype Outcome = Done | Stopped | Failed | StillRunning

  function IdOf(item: Item): int {
    match item
    case Message(id, _) => id
    case Service(id, _) => id
    case EmptyMessage(id) => id
    case Nil => 0
  }

  function DateOf(item: Item): int {
    if item.Message? || item.Service? then item.date else 0
  }

  /** What the code passes on from a page: positive ids below the offset, the first time each appears. */
  ghost function Accepted(batch: seq<Item>, offset: int): seq<int> {
    if batch == [] then []
    else
      var before := Accepted(batch[..|batch| - 1], offset);
      var id := IdOf(batch[|batch| - 1]);
      if id <= 0 || (offset > 0 && id >= offset) || id in before then before else before + [id]
  }

  ghost predicate Distinct(ids: seq<int>) {
    forall i, j | 0 <= i < j < |ids| :: ids[i] != ids[j]
  }

  ghost predicate Within(ids: seq<int>, offset: int) {
    forall i | 0 <= i < |ids| :: 0 < ids[i] && (offset > 0 ==> ids[i] < offset)
  }

  ghost predicate AtLeast(ids: seq<int>, bound: int) {
    forall i | 0 <= i < |ids| :: bound <= ids[i]
  }

  lemma AcceptedIsSound(batch: seq<Item>, offset: int)
    ensures Distinct(Accepted(batch, offset)) && Within(Accepted(batch, offset), offset)
    ensures |Accepted(batch, offset)| <= |batch|
  {
  }

  /** Page by page the offsets go strictly down, and stay above zero after the first. */
  ghost predicate Descending(offsets: seq<int>) {
    forall i, j | 0 <= i < j < |offsets| :: 0 < offsets[j] && (0 < offsets[i] ==> offsets[j] < offsets[i])
  }

  method DeliverPage(batch: seq<Item>, offset: int, limit: int, start: nat, callback: nat -> Answer)
    returns (ids: seq<int>, nextId: int, nextDate: int, end: PageEnd)
    requires limit > 0 ==> start < limit
    ensures ids <= Accepted(batch, offset)
    ensures limit > 0 ==> start + |ids| <= limit
    ensures end == PageDone ==> WholePage(batch, ids, nextId, offset) && (limit > 0 ==> start + |ids| < limit)
    ensures end == Full ==> limit > 0 && start + |ids| == limit
    ensures IsHeard(callback, start, ids, end)
    ensures nextId != 0 ==> IsDated(batch, nextId, nextDate)
  {
    ids, nextId, nextDate := [], 0, 0;
    var seen: set<int> := {};
    var fetched := start;
    var k := 0;
    while k < |batch|
      invariant 0 <= k <= |batch| && Filtered(batch, k, offset, ids, nextId, nextDate)
      invariant fetched == start + |ids| && (limit > 0 ==> fetched < limit)
      invariant forall id :: id in seen <==> id in ids
      invariant Continues(callback, start, fetched)
    {
      FilterOne(batch, k, offset, ids, nextId, nextDate);
      var id, date := IdOf(batch[k]), DateOf(batch[k]);
      k := k + 1;
      if id <= 0 || (offset > 0 && id >= offset) { continue; }
      if id in seen { continue; }
      seen := seen + {id};
      if nextId == 0 || id < nextId { nextId, nextDate := id, date; }
      ids := ids + [id];
      end := PassOn(callback, fetched, limit);
      fetched := fetched + 1;
      if end != PageDone {
        AcceptedGrows(batch, k, offset);
        return;
      }
    }
    assert batch[..k] == batch;
    end := PageDone;
  }

  /** What has passed the filter after `k` messages, and the least id among it with its date. */
  ghost predicate Filtered(batch: seq<Item>, k: nat, offset: int, ids: seq<int>, nextId: int, nextDate: int)
    requires k <= |batch|
  {
    && ids == Accepted(batch[..k], offset)
    && (if ids == [] then nextId == 0 else nextId in ids && AtLeast(ids, nextId) && 0 < nextId)
    && (nextId != 0 ==> IsDated(batch, nextId, nextDate))
  }

  lemma FilterOne(batch: seq<Item>, k: nat, offset: int, ids: seq<int>, nextId: int, nextDate: int)
    requires k < |batch| && Filtered(batch, k, offset, ids, nextId, nextDate)
    ensures var id, date := IdOf(batch[k]), DateOf(batch[k]);
      if id <= 0 || (offset > 0 && id >= offset) || id in ids
      then Filtered(batch, k + 1, offset, ids, nextId, nextDate)
      else if nextId == 0 || id < nextId then Filtered(batch, k + 1, offset, ids + [id], id, date)
      else Filtered(batch, k + 1, offset, ids + [id], nextId, nextDate)
  {
    var id := IdOf(batch[k]);
    assert batch[..k + 1][..k] == batch[..k];
    if !(id <= 0 || (offset > 0 && id >= offset) || id in ids) { FirstWithId(batch, k, offset); }
  }

  /** One message is passed to the callback; PageDone if the page goes on. */
  method PassOn(callback: nat -> Answer, fetched: nat, limit: int) returns (end: PageEnd)
    ensures end == StoppedByCallback <==> callback(fetched) == Stop
    ensures end == RefusedByCallback <==> callback(fetched) == Refuse
    ensures end == Full <==> callback(fetched) == Continue && limit > 0 && fetched + 1 >= limit
  {
    match callback(fetched)
    case Stop => end := StoppedByCallback;
    case Refuse => end := RefusedByCallback;
    case Continue => end := if limit > 0 && fetched + 1 >= limit then Full else PageDone;
  }

  /** Every message but the last was taken, and the last one ended the page if the callback said so. */
  ghost predicate IsHeard(callback: nat -> Answer, start: nat, ids: seq<int>, end: PageEnd) {
    var last := start + |ids| - 1;
    && Continues(callback, start, last)
    && (end == StoppedByCallback <==> ids != [] && callback(last) == Stop)
    && (end == RefusedByCallback <==> ids != [] && callback(last) == Refuse)
  }

  ghost predicate Continues(callback: nat -> Answer, first: nat, next: int) {
    forall j | first <= j < next :: callback(j) == Continue
  }

  /** The first message of the page that has the id has this date. */
  ghost predicate IsDated(batch: seq<Item>, id: int, date: int) {
    exists k | 0 <= k < |batch| :: IsFirstOf(batch, k, id) && DateOf(batch[k]) == date
  }

  ghost predicate IsFirstOf(batch: seq<Item>, k: int, id: int)
    requires 0 <= k < |batch|
  {
    IdOf(batch[k]) == id && forall j | 0 <= j < k :: IdOf(batch[j]) != id
  }

  /** A message that the filter lets pass for the first time is the first of its id. */
  lemma FirstWithId(batch: seq<Item>, k: nat, offset: int)
    requires k < |batch| && IdOf(batch[k]) > 0 && (offset > 0 ==> IdOf(batch[k]) < offset)
    requires IdOf(batch[k]) !in Accepted(batch[..k], offset)
    ensures IsFirstOf(batch, k, IdOf(batch[k])) && IsDated(batch, IdOf(batch[k]), DateOf(batch[k]))
  {
    forall j | 0 <= j < k ensures IdOf(batch[j]) != IdOf(batch[k]) {
      PassesFilter(batch[..k], j, offset);
    }
  }

  lemma {:induction false} PassesFilter(batch: seq<Item>, j: nat, offset: int)
    requires j < |batch|
    ensures IdOf(batch[j]) > 0 && (offset > 0 ==> IdOf(batch[j]) < offset) ==> IdOf(batch[j]) in Accepted(batch, offset)
  {
    if j < |batch| - 1 { PassesFilter(batch[..|batch| - 1], j, offset); }
  }

  lemma AcceptedGrows(batch: seq<Item>, k: nat, offset: int)
    requires k <= |batch|
    ensures Accepted(batch[..k], offset) <= Accepted(batch, offset)
    decreases |batch| - k
  {
    if k < |batch| {
      AcceptedGrows(batch, k + 1, offset);
      assert batch[..k + 1][..k] == batch[..k];
    } else {
      assert batch[..k] == batch;
    }
  }

  /** Where a run stands: what it delivered, the offsets of its pages, and the next offset. */
  ghost predicate Progress(delivered: seq<int>, offsets: seq<int>, at: int, offset: int) {
    && Distinct(delivered) && Within(delivered, offset)
    && Descending(offsets)
    && (offsets == [] ==> delivered == [] && at == offset)
    && (offsets != [] ==> offsets[0] == offset && 0 < at && AtLeast(delivered, at))
    && (forall i | 0 <= i < |offsets| :: offsets[i] > 0 ==> at < offsets[i])
  }

  /** Against a faithful server, what is delivered and what lies below the next offset make up the whole. */
  ghost predicate Tracks(delivered: seq<int>, at: int, offset: int, fetch: (nat, Request) -> Response) {
    forall h: seq<int> | Honest(h, fetch) :: delivered + Below(h, at) == Below(h, offset)
  }

  /** Against a faithful server, everything asked for has been delivered, in order. */
  ghost predicate Delivers(delivered: seq<int>, offset: int, limit: int, fetch: (nat, Request) -> Response) {
    forall h: seq<int> | Honest(h, fetch) :: delivered == Taken(Below(h, offset), limit)
  }

  /** Against a faithful server, every page so far was a full hundred. */
  ghost predicate Thorough(delivered: seq<int>, offsets: seq<int>, fetch: (nat, Request) -> Response) {
    forall h: seq<int> | Honest(h, fetch) :: 100 * |offsets| <= |delivered|
  }

  /** What holds as long as the run goes on. */
  ghost predicate Going(delivered: seq<int>, offsets: seq<int>, at: int, offset: int, limit: int,
                        fetch: (nat, Request) -> Response) {
    && Progress(delivered, offsets, at, offset) && Tracks(delivered, at, offset, fetch)
    && Thorough(delivered, offsets, fetch) && (limit > 0 ==> |delivered| <= limit)
  }

  /** What holds at any moment: no id twice, no more than the limit, descending pages. */
  ghost predicate Sound(delivered: seq<int>, offsets: seq<int>, offset: int, limit: int) {
    && Distinct(delivered) && Within(delivered, offset) && (limit > 0 ==> |delivered| <= limit)
    && Descending(offsets) && (offsets != [] ==> offsets[0] == offset)
  }

  ghost predicate NeverFails(fetch: (nat, Request) -> Response) {
    forall n, req :: !fetch(n, req).Failure?
  }

  /** Failures are of the kind that is retried. */
  ghost predicate OnlyRetries(fetch: (nat, Request) -> Response) {
    forall n, req | fetch(n, req).Failure? :: fetch(n, req).retry
  }

  ghost predicate AlwaysContinues(callback: nat -> Answer) {
    forall k :: callback(k) == Continue
  }

  ghost predicate IsFaithful(fetch: (nat, Request) -> Response) {
    exists h: seq<int> :: Honest(h, fetch)
  }

  /** A faithful server whose failures are retried, and a callback that never stops it. */
  ghost predicate Undisturbed(fetch: (nat, Request) -> Response, callback: nat -> Answer) {
    AlwaysContinues(callback) && OnlyRetries(fetch) && IsFaithful(fetch)
  }

  /** The history below the offset has at least as many hundreds as there were pages. */
  ghost predicate MoreIsLeft(offsets: seq<int>, offset: int, fetch: (nat, Request) -> Response) {
    forall h: seq<int> | Honest(h, fetch) :: 100 * |offsets| <= |Below(h, offset)|
  }

  /** There is a history that the server keeps, of which less than `rounds` hundreds are asked for. */
  ghost predicate KeepsLessThan(fetch: (nat, Request) -> Response, offset: int, rounds: nat) {
    exists h: seq<int> :: Honest(h, fetch) && |Below(h, offset)| < 100 * rounds
  }

  /** After a fetch the run is over, goes on from the least id of the page, or tries the same again. */
  datatype Step = Ended(outcome: Outcome) | NextPage(offsetId: int, offsetDate: int) | Again

  /** Main result, for any server and any callback: no id twice, no more than the limit, descending pages, so
      that a run still going after `rounds` fetches without failures has rounds <= offsets[1] + 1.  Against a
      faithful server, with a callback that never stops it and failures that are retried: everything asked for
      is delivered, and as soon as there were more successful fetches than hundreds to deliver. */
  method IterHistory(limit: int, offset: int, offsetDate: int,
                     fetch: (nat, Request) -> Response, callback: nat -> Answer, rounds: nat)
    returns (outcome: Outcome, delivered: seq<int>, offsets: seq<int>, ghost asked: seq<Request>)
    ensures Sound(delivered, offsets, offset, limit) && |offsets| <= rounds
    ensures if outcome == StillRunning then Continues(callback, 0, |delivered|)
            else IsOver(fetch, callback, delivered, outcome)
    ensures AreChained(fetch, asked, offset, offsetDate)
    ensures outcome == Done ==> Delivers(delivered, offset, limit, fetch)
    ensures outcome == StillRunning && NeverFails(fetch) ==>
      |offsets| == rounds && (rounds >= 2 ==> rounds <= offsets[1] + 1)
    ensures Undisturbed(fetch, callback) ==> outcome == Done || outcome == StillRunning
    ensures outcome == StillRunning ==> MoreIsLeft(offsets, offset, fetch)
    ensures AlwaysContinues(callback) && NeverFails(fetch) && KeepsLessThan(fetch, offset, rounds) ==> outcome == Done
  {
    delivered, offsets, asked := [], [], [];
    var req := Request(offset, offsetDate, 0);
    var n := 0;
    while n < rounds
      invariant |offsets| <= n <= rounds && (NeverFails(fetch) ==> |offsets| == n)
      invariant Going(delivered, offsets, req.offsetId, offset, limit, fetch)
      invariant Continues(callback, 0, |delivered|)
      invariant |asked| == n && AreChained(fetch, asked, offset, offsetDate)
      invariant IsNext(fetch, asked, offset, offsetDate, req)
    {
      req := req.(limit := 100);
      if limit > 0 {
        req := req.(limit := if limit - |delivered| < 100 then limit - |delivered| else 100);
        if req.limit <= 0 {
          EndAtLimit(delivered, req.offsetId, offset, limit, fetch);
          return Done, delivered, offsets, asked;
        }
      }
      var step;
      OneMoreAsked(fetch, asked, offset, offsetDate, req);
      asked := asked + [req];
      step, delivered, offsets := OneRound(req, limit, fetch, n, callback, delivered, offsets, offset);
      n := n + 1;
      match step
      case Ended(end) =>
        SteadyIsUndisturbed(fetch, callback, offset, rounds);
        return end, delivered, offsets, asked;
      case NextPage(id, date) =>
        req := req.(offsetId := id, offsetDate := date);
      case Again =>
    }
    if |offsets| >= 2 { PagesAreBounded(offsets); }
    StillGoing(delivered, offsets, req.offsetId, offset, limit, fetch, rounds);
    return StillRunning, delivered, offsets, asked;
  }

  /** One fetch and what is made of it. */
  method OneRound(req: Request, limit: int, fetch: (nat, Request) -> Response, n: nat, callback: nat -> Answer,
                  before: seq<int>, pages: seq<int>, ghost offset: int)
    returns (step: Step, delivered: seq<int>, offsets: seq<int>)
    requires Going(before, pages, req.offsetId, offset, limit, fetch)
    requires 0 < req.limit == (if 0 < limit && limit - |before| < 100 then limit - |before| else 100)
    requires Continues(callback, 0, |before|)
    ensures step == Again ==> delivered == before && offsets == pages && fetch(n, req).Failure?
    ensures step.NextPage? ==> |offsets| == |pages| + 1
    ensures step.NextPage? ==> Going(delivered, offsets, step.offsetId, offset, limit, fetch)
    ensures step.Ended? ==> Sound(delivered, offsets, offset, limit) && |offsets| <= |pages| + 1
    ensures step.Ended? ==> step.outcome != StillRunning
    ensures step == Ended(Done) ==> Delivers(delivered, offset, limit, fetch)
    ensures step.Ended? && step.outcome != Done ==> !Undisturbed(fetch, callback)
    ensures step.NextPage? ==> IsPage(fetch(n, req)) && IsDated(fetch(n, req).batch, step.offsetId, step.offsetDate)
    ensures step.Ended? ==> IsOver(fetch, callback, delivered, step.outcome)
    ensures !step.Ended? ==> Continues(callback, 0, |delivered|)
  {
    var resp := fetch(n, req);
    if IsPage(resp) {
      var ids;
      ids, step := TakePage(resp, req, limit, |before|, callback);
      delivered, offsets := before + ids, pages + [req.offsetId];
      PageIsSound(before, pages, ids, resp.batch, req.offsetId, offset, limit);
      if step.Ended? { SettledSoFar(callback, |before|, |delivered|, step.outcome); }
      if step == Ended(Done) { PageEnds(before, ids, fetch, n, req, offset, limit); }
      if step.NextPage? { PageGoesOn(before, pages, ids, step.offsetId, fetch, n, req, offset, limit); }
    } else {
      OddAnswer(before, fetch, n, req, offset, limit);
      delivered, offsets := before, pages;
      if resp.Failure? && resp.retry { return Again, delivered, offsets; }
      if resp.NotModified? { return Ended(Done), delivered, offsets; }
      Disturbed(fetch, callback, n, req);
      assert IsBad(fetch(n, req));
      return Ended(Failed), delivered, offsets;
    }
  }

  predicate IsBad(resp: Response) {
    resp.Unexpected? || (resp.Failure? && !resp.retry)
  }

  /** How a run ends: the callback was heard, and without its refusal only a bad response makes the run fail. */
  ghost predicate IsOver(fetch: (nat, Request) -> Response, callback: nat -> Answer, delivered: seq<int>,
                         outcome: Outcome) {
    && IsSettled(callback, 0, |delivered|, outcome)
    && (outcome == Failed && (delivered == [] || callback(|delivered| - 1) == Continue) ==>
      exists n, req :: IsBad(fetch(n, req)))
  }

  lemma SettledSoFar(callback: nat -> Answer, first: nat, next: nat, outcome: Outcome)
    requires Continues(callback, 0, first) && first <= next && IsSettled(callback, first, next, outcome)
    ensures IsSettled(callback, 0, next, outcome)
  {
  }

  /** The later request repeats the one before it, or carries id and date of a message of the page that came. */
  ghost predicate Succeeds(resp: Response, r: Request, next: Request) {
    if IsPage(resp) then IsDated(resp.batch, next.offsetId, next.offsetDate)
    else next.offsetId == r.offsetId && next.offsetDate == r.offsetDate
  }

  ghost predicate AreChained(fetch: (nat, Request) -> Response, asked: seq<Request>, offset: int, offsetDate: int) {
    && (asked != [] ==> asked[0].offsetId == offset && asked[0].offsetDate == offsetDate)
    && forall k | 0 < k < |asked| :: Succeeds(fetch(k - 1, asked[k - 1]), asked[k - 1], asked[k])
  }

  ghost predicate IsNext(fetch: (nat, Request) -> Response, asked: seq<Request>, offset: int, offsetDate: int,
                         req: Request) {
    if asked == [] then req.offsetId == offset && req.offsetDate == offsetDate
    else Succeeds(fetch(|asked| - 1, asked[|asked| - 1]), asked[|asked| - 1], req)
  }

  lemma OneMoreAsked(fetch: (nat, Request) -> Response, asked: seq<Request>, offset: int, offsetDate: int, req: Request)
    requires AreChained(fetch, asked, offset, offsetDate) && IsNext(fetch, asked, offset, offsetDate, req)
    ensures AreChained(fetch, asked + [req], offset, offsetDate)
  {
  }

  predicate IsPage(resp: Response) {
    resp.Slice? || resp.Complete?
  }

  /** The page was passed on whole, and it was not the last one. */
  ghost predicate PageContinues(resp: Response, req: Request, limit: int, start: nat, ids: seq<int>, nextId: int)
    requires IsPage(resp)
  {
    && WholePage(resp.batch, ids, nextId, req.offsetId) && nextId != 0
    && !resp.Complete? && req.limit <= |resp.batch| && (limit > 0 ==> start + |ids| < limit)
  }

  /** The limit was reached, or the page was passed on whole and was the last one. */
  ghost predicate PageCompletes(resp: Response, req: Request, limit: int, start: nat, ids: seq<int>)
    requires IsPage(resp)
  {
    || (limit > 0 && start + |ids| == limit)
    || exists nextId :: WholePage(resp.batch, ids, nextId, req.offsetId)
                        && (resp.Complete? || |resp.batch| < req.limit || nextId == 0)
  }

  /** One page: what is delivered of it, and whether there is another. */
  method TakePage(resp: Response, req: Request, limit: int, start: nat, callback: nat -> Answer)
    returns (ids: seq<int>, step: Step)
    requires IsPage(resp) && (limit > 0 ==> start < limit)
    ensures ids <= Accepted(resp.batch, req.offsetId) && (limit > 0 ==> start + |ids| <= limit)
    ensures step != Again && (step.NextPage? ==> PageContinues(resp, req, limit, start, ids, step.offsetId))
    ensures step == Ended(Done) ==> PageCompletes(resp, req, limit, start, ids)
    ensures step.NextPage? ==>
      IsDated(resp.batch, step.offsetId, step.offsetDate) && Continues(callback, start, start + |ids|)
    ensures step.Ended? ==> IsSettled(callback, start, start + |ids|, step.outcome)
    ensures step.Ended? ==> step.outcome in {Done, Stopped, Failed}
    ensures step.Ended? && step.outcome == Failed ==> ids != [] && callback(start + |ids| - 1) == Refuse
  {
    var nextId, nextDate, end;
    ids, nextId, nextDate, end := DeliverPage(resp.batch, req.offsetId, limit, start, callback);
    match end
    case StoppedByCallback => return ids, Ended(Stopped);
    case RefusedByCallback => return ids, Ended(Failed);
    case Full => return ids, Ended(Done);
    case PageDone =>
      if resp.Complete? || |resp.batch| < req.limit || nextId == 0 { return ids, Ended(Done); }
      return ids, NextPage(nextId, nextDate);
  }

  /** Every delivery but the last was taken; a callback that stops ends in Stopped, one that refuses in Failed. */
  ghost predicate IsSettled(callback: nat -> Answer, first: nat, next: nat, outcome: Outcome) {
    && Continues(callback, first, next - 1)
    && (outcome == Stopped <==> first < next && callback(next - 1) == Stop)
    && (first < next && callback(next - 1) == Refuse ==> outcome == Failed)
  }

  /** The page passed all its acceptable messages on, and `nextId` is the least of them, if any. */
  ghost predicate WholePage(batch: seq<Item>, ids: seq<int>, nextId: int, at: int) {
    && ids == Accepted(batch, at)
    && if ids == [] then nextId == 0 else nextId in ids && AtLeast(ids, nextId)
  }

  lemma PageExtends(delivered: seq<int>, offsets: seq<int>, batch: seq<Item>, ids: seq<int>, nextId: int,
                    at: int, offset: int)
    requires Progress(delivered, offsets, at, offset) && ids <= Accepted(batch, at)
    ensures Distinct(delivered + ids) && Within(delivered + ids, offset)
    ensures Descending(offsets + [at]) && (offsets + [at])[0] == offset
    ensures WholePage(batch, ids, nextId, at) && nextId != 0 ==>
      Progress(delivered + ids, offsets + [at], nextId, offset)
  {
    AcceptedIsSound(batch, at);
    var all := Accepted(batch, at);
    assert forall i | 0 <= i < |ids| :: ids[i] == all[i];
  }

  lemma PageIsSound(delivered: seq<int>, offsets: seq<int>, ids: seq<int>, batch: seq<Item>, at: int, offset: int,
                    limit: int)
    requires Progress(delivered, offsets, at, offset) && ids <= Accepted(batch, at)
    requires limit > 0 ==> |delivered| + |ids| <= limit
    ensures Sound(delivered + ids, offsets + [at], offset, limit)
  {
    PageExtends(delivered, offsets, batch, ids, 0, at, offset);
  }

  lemma PageGoesOn(delivered: seq<int>, offsets: seq<int>, ids: seq<int>, nextId: int,
                   fetch: (nat, Request) -> Response, n: nat, req: Request, offset: int, limit: int)
    requires Going(delivered, offsets, req.offsetId, offset, limit, fetch) && IsPage(fetch(n, req))
    requires req.limit == (if 0 < limit && limit - |delivered| < 100 then limit - |delivered| else 100) && 0 < req.limit
    requires PageContinues(fetch(n, req), req, limit, |delivered|, ids, nextId)
    ensures Going(delivered + ids, offsets + [req.offsetId], nextId, offset, limit, fetch)
  {
    PageExtends(delivered, offsets, fetch(n, req).batch, ids, nextId, req.offsetId, offset);
    NextPageTracks(delivered, ids, nextId, fetch, n, req, offset);
    forall h: seq<int> | Honest(h, fetch) ensures 100 * |offsets + [req.offsetId]| <= |delivered + ids| {
      HonestPage(h, fetch, n, req);
    }
  }

  lemma PageEnds(delivered: seq<int>, ids: seq<int>, fetch: (nat, Request) -> Response, n: nat, req: Request,
                 offset: int, limit: int)
    requires Tracks(delivered, req.offsetId, offset, fetch) && IsPage(fetch(n, req)) && 0 < req.limit
    requires ids <= Accepted(fetch(n, req).batch, req.offsetId) && (limit > 0 ==> |delivered| + |ids| <= limit)
    requires PageCompletes(fetch(n, req), req, limit, |delivered|, ids)
    ensures Delivers(delivered + ids, offset, limit, fetch)
  {
    if limit > 0 && |delivered| + |ids| == limit {
      FullPageDelivers(delivered, ids, fetch, n, req, offset, limit);
    } else {
      var batch := fetch(n, req).batch;
      var nextId :| WholePage(batch, ids, nextId, req.offsetId)
                    && (fetch(n, req).Complete? || |batch| < req.limit || nextId == 0);
      LastPageDelivers(delivered, ids, nextId, fetch, n, req, offset, limit);
    }
  }

  /** A faithful server answers with a page or a failure and nothing else. */
  lemma OddAnswer(delivered: seq<int>, fetch: (nat, Request) -> Response, n: nat, req: Request, offset: int, limit: int)
    requires !IsPage(fetch(n, req))
    ensures IsFaithful(fetch) ==> fetch(n, req).Failure?
    ensures fetch(n, req).NotModified? ==> Delivers(delivered, offset, limit, fetch)
  {
    forall h: seq<int> | Honest(h, fetch) ensures fetch(n, req).Failure? {
      assert Answers(h, req, fetch(n, req));
    }
  }

  lemma Disturbed(fetch: (nat, Request) -> Response, callback: nat -> Answer, n: nat, req: Request)
    requires !IsPage(fetch(n, req)) && !(fetch(n, req).Failure? && fetch(n, req).retry)
    ensures !Undisturbed(fetch, callback)
  {
    if h: seq<int> :| Honest(h, fetch) {
      assert Answers(h, req, fetch(n, req));
    }
  }

  lemma SteadyIsUndisturbed(fetch: (nat, Request) -> Response, callback: nat -> Answer, offset: int, rounds: nat)
    ensures AlwaysContinues(callback) && NeverFails(fetch) && KeepsLessThan(fetch, offset, rounds) ==>
      Undisturbed(fetch, callback)
  {
  }

  lemma StillGoing(delivered: seq<int>, offsets: seq<int>, at: int, offset: int, limit: int,
                   fetch: (nat, Request) -> Response, rounds: nat)
    requires Going(delivered, offsets, at, offset, limit, fetch) && (NeverFails(fetch) ==> |offsets| == rounds)
    ensures MoreIsLeft(offsets, offset, fetch) && !(NeverFails(fetch) && KeepsLessThan(fetch, offset, rounds))
  {
    forall h: seq<int> | Honest(h, fetch) ensures 100 * |offsets| <= |Below(h, offset)| {
      assert delivered + Below(h, at) == Below(h, offset);
    }
  }

  lemma EndAtLimit(delivered: seq<int>, at: int, offset: int, limit: int, fetch: (nat, Request) -> Response)
    requires Tracks(delivered, at, offset, fetch) && 0 < limit == |delivered|
    ensures Delivers(delivered, offset, limit, fetch)
  {
    forall h: seq<int> | Honest(h, fetch) ensures delivered == Taken(Below(h, offset), limit) {
      assert delivered + Below(h, at) == Below(h, offset);
    }
  }

  lemma FullPageDelivers(delivered: seq<int>, ids: seq<int>, fetch: (nat, Request) -> Response, n: nat, req: Request,
                         offset: int, limit: int)
    requires Tracks(delivered, req.offsetId, offset, fetch) && IsPage(fetch(n, req)) && 0 < req.limit
    requires ids <= Accepted(fetch(n, req).batch, req.offsetId) && 0 < limit == |delivered| + |ids|
    ensures Delivers(delivered + ids, offset, limit, fetch)
  {
    forall h: seq<int> | Honest(h, fetch) ensures delivered + ids == Taken(Below(h, offset), limit) {
      HonestPage(h, fetch, n, req);
      assert delivered + Below(h, req.offsetId) == Below(h, offset);
      assert delivered + ids <= Below(h, offset);
    }
  }

  lemma LastPageDelivers(delivered: seq<int>, ids: seq<int>, nextId: int, fetch: (nat, Request) -> Response, n: nat,
                         req: Request, offset: int, limit: int)
    requires Tracks(delivered, req.offsetId, offset, fetch) && IsPage(fetch(n, req)) && 0 < req.limit
    requires WholePage(fetch(n, req).batch, ids, nextId, req.offsetId)
    requires fetch(n, req).Complete? || |fetch(n, req).batch| < req.limit || nextId == 0
    requires limit > 0 ==> |delivered| + |ids| <= limit
    ensures Delivers(delivered + ids, offset, limit, fetch)
  {
    forall h: seq<int> | Honest(h, fetch) ensures delivered + ids == Taken(Below(h, offset), limit) {
      HonestLast(h, fetch, n, req, nextId);
      HonestPage(h, fetch, n, req);
      assert delivered + Below(h, req.offsetId) == Below(h, offset);
    }
  }

  lemma NextPageTracks(delivered: seq<int>, ids: seq<int>, nextId: int, fetch: (nat, Request) -> Response, n: nat,
                       req: Request, offset: int)
    requires Tracks(delivered, req.offsetId, offset, fetch) && IsPage(fetch(n, req)) && 0 < req.limit
    requires WholePage(fetch(n, req).batch, ids, nextId, req.offsetId) && nextId != 0
    ensures Tracks(delivered + ids, nextId, offset, fetch)
  {
    forall h: seq<int> | Honest(h, fetch) ensures delivered + ids + Below(h, nextId) == Below(h, offset) {
      HonestNext(h, fetch, n, req, ids, nextId);
      assert delivered + Below(h, req.offsetId) == Below(h, offset);
      assert delivered + (ids + Below(h, nextId)) == delivered + ids + Below(h, nextId);
    }
  }

  /** Strictly descending offsets bound the number of pages: no run fetches successfully forever. */
  lemma {:induction false} PagesAreBounded(offsets: seq<int>)
    requires Descending(offsets) && |offsets| >= 2
    ensures |offsets| <= offsets[1] + 1
  {
    var first, last := offsets[0], |offsets| - 1;
    assert 0 < offsets[last];
    DescentIsSteady(offsets, last);
  }

  lemma {:induction false} DescentIsSteady(offsets: seq<int>, k: nat)
    requires Descending(offsets) && 1 <= k < |offsets|
    ensures offsets[k] <= offsets[1] - (k - 1)
  {
    if k > 1 {
      DescentIsSteady(offsets, k - 1);
      var first := offsets[0];
      assert 0 < offsets[k - 1];
    }
  }

  // ---------- a faithful server ----------

  ghost predicate IsHistory(h: seq<int>) {
    (forall i | 0 <= i < |h| :: 0 < h[i]) && forall i, j | 0 <= i < j < |h| :: h[j] < h[i]
  }

  /** The part of a newest-first history below an offset; offsets up to zero mean no bound. */
  ghost function Below(h: seq<int>, offset: int): seq<int> {
    if h == [] || offset <= 0 || h[0] < offset then h else Below(h[1..], offset)
  }

  ghost function Taken(ids: seq<int>, limit: int): seq<int> {
    if 0 < limit < |ids| then ids[..limit] else ids
  }

  ghost function Ids(batch: seq<Item>): seq<int> {
    seq(|batch|, i requires 0 <= i < |batch| => IdOf(batch[i]))
  }

  /** The server keeps history `h`: a fetch may fail and be retried, but a page is the newest messages
      below the offset, as many as asked for, and only a page that is everything may say so. */
  ghost predicate Honest(h: seq<int>, fetch: (nat, Request) -> Response) {
    && IsHistory(h)
    && forall n, req :: Answers(h, req, fetch(n, req))
  }

  ghost predicate Answers(h: seq<int>, req: Request, resp: Response) {
    match resp
    case Failure(retry) => true
    case Slice(batch) => Ids(batch) == Taken(Below(h, req.offsetId), req.limit)
    case Complete(batch) => Ids(batch) == Below(h, req.offsetId)
    case _ => false
  }

  function PageOf(ids: seq<int>): seq<Item> {
    seq(|ids|, i requires 0 <= i < |ids| => Message(ids[i], 0))
  }

  /** Every history has such a server, and one that never fails. */
  lemma HonestServer(h: seq<int>) returns (fetch: (nat, Request) -> Response)
    requires IsHistory(h)
    ensures Honest(h, fetch) && NeverFails(fetch)
  {
    fetch := (n: nat, req: Request) => Slice(PageOf(Taken(Below(h, req.offsetId), req.limit)));
    forall n: nat, req: Request ensures Answers(h, req, fetch(n, req)) {
      var ids := Taken(Below(h, req.offsetId), req.limit);
      assert Ids(PageOf(ids)) == ids;
    }
  }

  lemma {:induction false} BelowIsSuffix(h: seq<int>, offset: int)
    requires IsHistory(h)
    ensures IsHistory(Below(h, offset)) && Within(Below(h, offset), offset)
  {
    if !(h == [] || offset <= 0 || h[0] < offset) { BelowIsSuffix(h[1..], offset); }
  }

  /** Continuing from the k-th message below an offset yields what follows it. */
  lemma {:induction false} BelowContinues(h: seq<int>, offset: int, k: nat)
    requires IsHistory(h) && k < |Below(h, offset)|
    ensures Below(h, Below(h, offset)[k]) == Below(h, offset)[k + 1..]
  {
    if h == [] || offset <= 0 || h[0] < offset {
      Cut(h, k);
    } else {
      BelowContinues(h[1..], offset, k);
      BelowIsSuffix(h[1..], offset);
      assert Below(h, offset)[k] in Below(h[1..], offset);
    }
  }

  lemma {:induction false} Cut(h: seq<int>, k: nat)
    requires IsHistory(h) && k < |h|
    ensures Below(h, h[k]) == h[k + 1..]
  {
    if k > 0 {
      Cut(h[1..], k - 1);
    } else if |h| > 1 {
      assert h[1..][0] < h[0];
    }
  }

  /** A faithful page passes the filter whole. */
  lemma {:induction false} AllAccepted(batch: seq<Item>, offset: int)
    requires IsHistory(Ids(batch)) && Within(Ids(batch), offset)
    ensures Accepted(batch, offset) == Ids(batch)
  {
    if batch != [] {
      var k := |batch| - 1;
      assert Ids(batch) == Ids(batch[..k]) + [IdOf(batch[k])];
      forall i | 0 <= i < k ensures Ids(batch[..k])[i] == Ids(batch)[i] {}
      assert Ids(batch)[k] in Ids(batch);
      forall id | id in Ids(batch[..k]) ensures id in Ids(batch) {}
      AllAccepted(batch[..k], offset);
    }
  }

  lemma HonestPage(h: seq<int>, fetch: (nat, Request) -> Response, n: nat, req: Request)
    requires Honest(h, fetch) && req.limit > 0 && IsPage(fetch(n, req))
    ensures var batch := fetch(n, req).batch;
      Accepted(batch, req.offsetId) == Ids(batch) <= Below(h, req.offsetId)
  {
    var resp := fetch(n, req);
    assert Answers(h, req, resp);
    BelowIsSuffix(h, req.offsetId);
    PrefixOfHistory(Ids(resp.batch), Below(h, req.offsetId), req.offsetId);
    AllAccepted(resp.batch, req.offsetId);
  }

  /** The history goes on below the least id of a page. */
  lemma HonestNext(h: seq<int>, fetch: (nat, Request) -> Response, n: nat, req: Request, ids: seq<int>, nextId: int)
    requires Honest(h, fetch) && req.limit > 0 && IsPage(fetch(n, req))
    requires WholePage(fetch(n, req).batch, ids, nextId, req.offsetId) && nextId != 0
    ensures ids + Below(h, nextId) == Below(h, req.offsetId)
  {
    HonestPage(h, fetch, n, req);
    BelowIsSuffix(h, req.offsetId);
    GoesOnBelow(h, req.offsetId, ids, nextId);
  }

  lemma GoesOnBelow(h: seq<int>, offset: int, page: seq<int>, least: int)
    requires IsHistory(h) && IsHistory(Below(h, offset)) && page <= Below(h, offset)
    requires least in page && AtLeast(page, least)
    ensures page + Below(h, least) == Below(h, offset)
  {
    LastIsLeast(page, Below(h, offset), least);
    BelowContinues(h, offset, |page| - 1);
  }

  /** A page that says it is everything, a short one and an empty one are the end of the history. */
  lemma HonestLast(h: seq<int>, fetch: (nat, Request) -> Response, n: nat, req: Request, nextId: int)
    requires Honest(h, fetch) && req.limit > 0 && IsPage(fetch(n, req))
    requires WholePage(fetch(n, req).batch, Accepted(fetch(n, req).batch, req.offsetId), nextId, req.offsetId)
    requires fetch(n, req).Complete? || |fetch(n, req).batch| < req.limit || nextId == 0
    ensures Ids(fetch(n, req).batch) == Below(h, req.offsetId)
  {
    assert Answers(h, req, fetch(n, req));
    HonestPage(h, fetch, n, req);
    BelowIsSuffix(h, req.offsetId);
  }

  lemma PrefixOfHistory(page: seq<int>, rest: seq<int>, offset: int)
    requires IsHistory(rest) && Within(rest, offset) && page <= rest
    ensures IsHistory(page) && Within(page, offset)
  {
    assert forall i | 0 <= i < |page| :: page[i] == rest[i];
  }

  lemma LastIsLeast(page: seq<int>, rest: seq<int>, least: int)
    requires IsHistory(rest) && page <= rest && least in page && AtLeast(page, least)
    ensures least == rest[|page| - 1]
  {
  }
}
