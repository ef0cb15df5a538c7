/** Under which key and with which salt a request goes out (network.go), told from what happened before it: which
    permanent key was set last, which temporary key was created or bound last, and which salt came last for it.
    The events are those of KeyRing. */
module RequestKeys {
  import opened KeyRing

  /** A run: its events, and its states, one more than it has events. */
  datatype History = History(hashOf: Key -> Hash, worlds: seq<World>, events: seq<Event>)

  ghost predicate IsRun(h: History) {
    && DistinctHashes(h.hashOf)
    && |h.worlds| == |h.events| + 1 && h.worlds[0] == START
    && (forall n {:trigger IsStep(h, n)} | 0 <= n < |h.events| :: IsStep(h, n))
  }

  ghost predicate IsStep(h: History, n: int)
    requires 0 <= n < |h.events| == |h.worlds| - 1
  {
    Inv(h.worlds[n], h.hashOf) && h.worlds[n + 1] == Apply(h.worlds[n], h.events[n], h.hashOf)
  }

  function Last(h: History): World
    requires h.worlds != []
  {
    h.worlds[|h.worlds| - 1]
  }

  /** Every list of events has one, which ends in the state Run(events). */
  lemma {:induction false} HistoryOf(events: seq<Event>, hashOf: Key -> Hash) returns (h: History)
    requires DistinctHashes(hashOf)
    ensures IsRun(h) && h.events == events && h.hashOf == hashOf && Last(h) == Run(events, hashOf)
  {
    if events == [] {
      h := History(hashOf, [START], []);
    } else {
      var n := |events| - 1;
      var before := HistoryOf(events[..n], hashOf);
      RunKeepsInv(events[..n], hashOf);
      h := History(hashOf, before.worlds + [Apply(Last(before), events[n], hashOf)], events);
      forall k | 0 <= k < |events| ensures IsStep(h, k) {
        if k < n { assert IsStep(before, k); }
      }
    }
  }

  lemma InvAt(h: History, n: nat)
    requires IsRun(h) && n <= |h.events|
    ensures Inv(h.worlds[n], h.hashOf)
  {
    if n > 0 {
      assert IsStep(h, n - 1);
      ApplyKeepsInv(h.worlds[n - 1], h.events[n - 1], h.hashOf);
    }
  }

  // ---------- what an event does to the keys ----------

  /** A permanent key is set; one that was negotiated as a temporary key never is. */
  predicate Sets(w: World, e: Event) {
    e.SetKey? && e.key !in w.drawn
  }

  /** Every temporary key is dropped: by migration, or because another permanent key is set. */
  predicate DropsAll(w: World, e: Event) {
    e == Migrate || (Sets(w, e) && e.key != w.ring.auth)
  }

  /** A fresh temporary key is negotiated. */
  predicate Creates(w: World, e: Event) {
    e.Create? && e.key != NoKey && e.key !in w.drawn && e.key !in w.permanent
  }

  /** A binding ends in time, and neither of its keys has changed meanwhile. */
  predicate Binds(w: World, e: Event) {
    && e.Finish? && e.id in w.attempts && w.attempts[e.id].Acknowledged?
    && w.attempts[e.id].permKey == w.ring.auth && w.attempts[e.id].newKey == w.ring.pending.key
    && e.now < w.ring.pending.expires
  }

  /** A salt comes for the key with this hash. */
  predicate GivesSalt(w: World, e: Event, hash: Hash, hashOf: Key -> Hash) {
    || (e.NewSalt? && e.h == hash && hash != NoHash)
    || (Creates(w, e) && hashOf(e.key) == hash)
    || (e.StoreSalt? && w.ring.authHash == hash)
  }

  /** The salt of requests under the permanent key is overwritten: it is stored, or a notice comes under a key that
      is no live temporary one, or everything is dropped. */
  predicate WritesSalt(w: World, e: Event) {
    || e.StoreSalt? || e == Migrate
    || (e.NewSalt? && (e.h == NoHash || e.h !in {w.ring.pending.hash, w.ring.current.hash, w.ring.previous.hash}))
  }

  function SaltIn(e: Event): int {
    match e
    case Create(_, salt, _) => salt
    case StoreSalt(salt) => salt
    case NewSalt(_, salt) => salt
    case _ => 0
  }

  // ---------- the event that counts ----------

  /** Step `i` set the permanent key, and nothing has undone it. */
  ghost predicate SetLast(h: History, i: nat) {
    && i < |h.events| < |h.worlds| && Sets(h.worlds[i], h.events[i])
    && forall m | i < m < |h.events| :: h.events[m] != Migrate && !Sets(h.worlds[m], h.events[m])
  }

  /** Step `i` created the key that waits to be bound. */
  ghost predicate CreatedLast(h: History, i: nat) {
    && i < |h.events| < |h.worlds| && Creates(h.worlds[i], h.events[i])
    && forall m | i < m < |h.events| :: !ReplacesPending(h.worlds[m], h.events[m])
  }

  predicate ReplacesPending(w: World, e: Event) {
    DropsAll(w, e) || Creates(w, e) || Binds(w, e)
  }

  /** Step `i` finished the binding of the temporary key in force. */
  ghost predicate BoundLast(h: History, i: nat) {
    && i < |h.events| < |h.worlds| && Binds(h.worlds[i], h.events[i])
    && forall m | i < m < |h.events| :: !DropsAll(h.worlds[m], h.events[m]) && !Binds(h.worlds[m], h.events[m])
  }

  ghost predicate SaltedLast(h: History, i: nat, hash: Hash) {
    && i < |h.events| < |h.worlds| && GivesSalt(h.worlds[i], h.events[i], hash, h.hashOf)
    && forall m | i < m < |h.events| :: !GivesSalt(h.worlds[m], h.events[m], hash, h.hashOf)
  }

  ghost predicate WroteLast(h: History, i: nat) {
    && i < |h.events| < |h.worlds| && WritesSalt(h.worlds[i], h.events[i])
    && forall m | i < m < |h.events| :: !WritesSalt(h.worlds[m], h.events[m])
  }

  // ---------- steps ----------

  lemma StepOfPermanent(w: World, e: Event, hashOf: Key -> Hash)
    ensures Apply(w, e, hashOf).ring.auth
      == if Sets(w, e) then e.key else if e == Migrate then NoKey else w.ring.auth
  {
  }

  lemma StepOfPending(w: World, e: Event, hashOf: Key -> Hash)
    requires Inv(w, hashOf)
    ensures Apply(w, e, hashOf).ring.pending.key
      == if Creates(w, e) then e.key else if DropsAll(w, e) || Binds(w, e) then NoKey else w.ring.pending.key
  {
  }

  lemma StepOfCurrent(w: World, e: Event, hashOf: Key -> Hash)
    requires Inv(w, hashOf)
    ensures Apply(w, e, hashOf).ring.current.key
      == if Binds(w, e) then w.ring.pending.key else if DropsAll(w, e) then NoKey else w.ring.current.key
  {
  }

  lemma StepOfLastSalt(w: World, e: Event, hash: Hash, hashOf: Key -> Hash)
    ensures var t := Apply(w, e, hashOf);
      if GivesSalt(w, e, hash, hashOf) then hash in t.lastSalt && t.lastSalt[hash] == SaltIn(e)
      else (hash in t.lastSalt <==> hash in w.lastSalt) && (hash in w.lastSalt ==> t.lastSalt[hash] == w.lastSalt[hash])
  {
  }

  lemma StepOfServerSalt(w: World, e: Event, hashOf: Key -> Hash)
    ensures Apply(w, e, hashOf).ring.serverSalt == if WritesSalt(w, e) then SaltIn(e) else w.ring.serverSalt
  {
  }

  // ---------- and runs ----------

  lemma {:induction false} PermanentKey(h: History, i: nat, n: nat)
    requires IsRun(h) && i < n <= |h.events| && Sets(h.worlds[i], h.events[i])
    requires forall m | i < m < n :: h.events[m] != Migrate && !Sets(h.worlds[m], h.events[m])
    ensures h.worlds[n].ring.auth == h.events[i].key
  {
    assert IsStep(h, n - 1);
    StepOfPermanent(h.worlds[n - 1], h.events[n - 1], h.hashOf);
    if i < n - 1 { PermanentKey(h, i, n - 1); }
  }

  lemma {:induction false} PermanentKeyWasSet(h: History, n: nat) returns (i: nat)
    requires IsRun(h) && n <= |h.events| && h.worlds[n].ring.auth != NoKey
    ensures i < n && Sets(h.worlds[i], h.events[i])
    ensures forall m | i < m < n :: h.events[m] != Migrate && !Sets(h.worlds[m], h.events[m])
  {
    i := n - 1;
    assert IsStep(h, n - 1);
    StepOfPermanent(h.worlds[n - 1], h.events[n - 1], h.hashOf);
    if !Sets(h.worlds[n - 1], h.events[n - 1]) { i := PermanentKeyWasSet(h, n - 1); }
  }

  lemma {:induction false} PendingKey(h: History, i: nat, n: nat)
    requires IsRun(h) && i < n <= |h.events| && Creates(h.worlds[i], h.events[i])
    requires forall m | i < m < n :: !ReplacesPending(h.worlds[m], h.events[m])
    ensures h.worlds[n].ring.pending.key == h.events[i].key
  {
    assert IsStep(h, n - 1);
    StepOfPending(h.worlds[n - 1], h.events[n - 1], h.hashOf);
    if i < n - 1 { PendingKey(h, i, n - 1); }
  }

  lemma {:induction false} PendingKeyWasCreated(h: History, n: nat) returns (i: nat)
    requires IsRun(h) && n <= |h.events| && h.worlds[n].ring.pending.key != NoKey
    ensures i < n && Creates(h.worlds[i], h.events[i])
    ensures forall m | i < m < n :: !ReplacesPending(h.worlds[m], h.events[m])
  {
    i := n - 1;
    assert IsStep(h, n - 1);
    StepOfPending(h.worlds[n - 1], h.events[n - 1], h.hashOf);
    if !Creates(h.worlds[n - 1], h.events[n - 1]) { i := PendingKeyWasCreated(h, n - 1); }
  }

  lemma {:induction false} CurrentKey(h: History, i: nat, n: nat)
    requires IsRun(h) && i < n <= |h.events| && Binds(h.worlds[i], h.events[i])
    requires forall m | i < m < n :: !DropsAll(h.worlds[m], h.events[m]) && !Binds(h.worlds[m], h.events[m])
    ensures h.worlds[n].ring.current.key == h.worlds[i].ring.pending.key
  {
    assert IsStep(h, n - 1);
    StepOfCurrent(h.worlds[n - 1], h.events[n - 1], h.hashOf);
    if i < n - 1 { CurrentKey(h, i, n - 1); }
  }

  lemma {:induction false} CurrentKeyWasBound(h: History, n: nat) returns (i: nat)
    requires IsRun(h) && n <= |h.events| && h.worlds[n].ring.current.key != NoKey
    ensures i < n && Binds(h.worlds[i], h.events[i])
    ensures forall m | i < m < n :: !DropsAll(h.worlds[m], h.events[m]) && !Binds(h.worlds[m], h.events[m])
  {
    i := n - 1;
    assert IsStep(h, n - 1);
    StepOfCurrent(h.worlds[n - 1], h.events[n - 1], h.hashOf);
    if !Binds(h.worlds[n - 1], h.events[n - 1]) { i := CurrentKeyWasBound(h, n - 1); }
  }

  lemma {:induction false} LastSalt(h: History, i: nat, n: nat, hash: Hash)
    requires IsRun(h) && i < n <= |h.events| && GivesSalt(h.worlds[i], h.events[i], hash, h.hashOf)
    requires forall m | i < m < n :: !GivesSalt(h.worlds[m], h.events[m], hash, h.hashOf)
    ensures hash in h.worlds[n].lastSalt && h.worlds[n].lastSalt[hash] == SaltIn(h.events[i])
  {
    assert IsStep(h, n - 1);
    StepOfLastSalt(h.worlds[n - 1], h.events[n - 1], hash, h.hashOf);
    if i < n - 1 { LastSalt(h, i, n - 1, hash); }
  }

  lemma {:induction false} LastSaltWasGiven(h: History, n: nat, hash: Hash) returns (i: nat)
    requires IsRun(h) && n <= |h.events| && hash in h.worlds[n].lastSalt
    ensures i < n && GivesSalt(h.worlds[i], h.events[i], hash, h.hashOf)
    ensures forall m | i < m < n :: !GivesSalt(h.worlds[m], h.events[m], hash, h.hashOf)
  {
    i := n - 1;
    assert IsStep(h, n - 1);
    StepOfLastSalt(h.worlds[n - 1], h.events[n - 1], hash, h.hashOf);
    if !GivesSalt(h.worlds[n - 1], h.events[n - 1], hash, h.hashOf) { i := LastSaltWasGiven(h, n - 1, hash); }
  }

  lemma {:induction false} ServerSalt(h: History, i: nat, n: nat)
    requires IsRun(h) && i < n <= |h.events| && WritesSalt(h.worlds[i], h.events[i])
    requires forall m | i < m < n :: !WritesSalt(h.worlds[m], h.events[m])
    ensures h.worlds[n].ring.serverSalt == SaltIn(h.events[i])
  {
    assert IsStep(h, n - 1);
    StepOfServerSalt(h.worlds[n - 1], h.events[n - 1], h.hashOf);
    if i < n - 1 { ServerSalt(h, i, n - 1); }
  }

  // ---------- main results ----------

  /** An ordinary request goes under the temporary key bound last, if one is in force, and otherwise under the
      permanent key set last; it goes without a key only if there is none. */
  lemma OrdinaryRequestsKey(h: History, pfs: bool)
    requires IsRun(h)
    ensures var key := RequestKey(Last(h).ring, pfs, false).0;
      && (forall i: nat | pfs && BoundLast(h, i) :: key == h.worlds[i].attempts[h.events[i].id].newKey)
      && (!pfs || (forall i: nat :: !BoundLast(h, i)) ==>
        && (forall i: nat | SetLast(h, i) :: key == h.events[i].key)
        && (key != NoKey ==> exists i: nat :: SetLast(h, i)))
  {
    var n := |h.events|;
    var w := Last(h);
    InvAt(h, |h.events|);
    forall i: nat | BoundLast(h, i) ensures w.ring.current.key == h.worlds[i].attempts[h.events[i].id].newKey != NoKey {
      CurrentKey(h, i, n);
      assert IsStep(h, i) && AttemptInv(h.worlds[i], h.worlds[i].attempts[h.events[i].id]);
    }
    forall i: nat | SetLast(h, i) ensures w.ring.auth == h.events[i].key {
      PermanentKey(h, i, n);
    }
    if w.ring.current.key != NoKey {
      var i := CurrentKeyWasBound(h, n);
      assert BoundLast(h, i);
    }
    if w.ring.auth != NoKey {
      var i := PermanentKeyWasSet(h, n);
      assert SetLast(h, i);
    }
  }

  /** No ordinary request goes without a key while a permanent one is set. */
  lemma NeverWithoutKey(h: History, i: nat, pfs: bool)
    requires IsRun(h) && SetLast(h, i) && h.events[i].key != NoKey
    ensures RequestKey(Last(h).ring, pfs, false).0 != NoKey
  {
    PermanentKey(h, i, |h.events|);
  }

  /** Under a temporary key it carries the salt that came last for that key. */
  lemma TemporaryRequestsSalt(h: History, i: nat, j: nat)
    requires IsRun(h) && BoundLast(h, i)
    requires SaltedLast(h, j, h.hashOf(h.worlds[i].attempts[h.events[i].id].newKey))
    ensures RequestKey(Last(h).ring, true, false).1 == SaltIn(h.events[j])
  {
    OrdinaryRequestsKey(h, true);
    InvAt(h, |h.events|);
    LastSalt(h, j, |h.events|, h.hashOf(h.worlds[i].attempts[h.events[i].id].newKey));
    CurrentKey(h, i, |h.events|);
    assert IsStep(h, i) && AttemptInv(h.worlds[i], h.worlds[i].attempts[h.events[i].id]);
  }

  /** Under the permanent key it carries the salt written last, whatever that was written for. */
  lemma PermanentRequestsSalt(h: History, i: nat, pfs: bool)
    requires IsRun(h) && WroteLast(h, i) && (!pfs || forall k: nat :: !BoundLast(h, k))
    ensures RequestKey(Last(h).ring, pfs, false).1 == SaltIn(h.events[i])
  {
    ServerSalt(h, i, |h.events|);
    if Last(h).ring.current.key != NoKey {
      var k := CurrentKeyWasBound(h, |h.events|);
      assert BoundLast(h, k);
    }
  }

  /** So it is the salt that came last for the permanent key, unless another was written after that: since the key
      was set, that can only be the salt of a notice under a key that had been dropped. */
  lemma PermanentRequestsOwnSalt(h: History, i: nat, j: nat, pfs: bool)
    requires IsRun(h) && SetLast(h, i) && (!pfs || forall k: nat :: !BoundLast(h, k))
    requires SaltedLast(h, j, h.hashOf(h.events[i].key))
    ensures var salt := RequestKey(Last(h).ring, pfs, false).1;
      && (WroteLast(h, j) ==> salt == SaltIn(h.events[j]))
      && (!WroteLast(h, j) ==> exists m: nat :: j < m && WroteLast(h, m) && salt == SaltIn(h.events[m]))
    ensures forall m: nat | i < m && j < m < |h.events| && WritesSalt(h.worlds[m], h.events[m]) ::
      IsStray(h.worlds[m], h.events[m])
  {
    OwnSaltIsWritten(h, i, j);
    var m := LastWriter(h, j, |h.events|);
    PermanentRequestsSalt(h, m, pfs);
    forall m: nat | i < m && j < m < |h.events| && WritesSalt(h.worlds[m], h.events[m])
      ensures IsStray(h.worlds[m], h.events[m])
    {
      PermanentKey(h, i, m);
      assert IsStep(h, m);
      PermanentHash(h, i, m);
    }
  }

  /** A notice under a key that is neither the permanent one nor a live temporary one. */
  predicate IsStray(w: World, e: Event) {
    e.NewSalt? && (e.h == NoHash
      || e.h !in {w.ring.authHash, w.ring.pending.hash, w.ring.current.hash, w.ring.previous.hash})
  }

  lemma {:induction false} PermanentHash(h: History, i: nat, n: nat)
    requires IsRun(h) && i < n <= |h.events| && Sets(h.worlds[i], h.events[i])
    requires forall m | i < m < n :: h.events[m] != Migrate && !Sets(h.worlds[m], h.events[m])
    ensures h.worlds[n].ring.authHash == h.hashOf(h.events[i].key)
  {
    assert IsStep(h, n - 1);
    StepOfHash(h.worlds[n - 1], h.events[n - 1], h.hashOf);
    if i < n - 1 { PermanentHash(h, i, n - 1); }
  }

  lemma StepOfHash(w: World, e: Event, hashOf: Key -> Hash)
    ensures Apply(w, e, hashOf).ring.authHash
      == if Sets(w, e) then hashOf(e.key) else if e == Migrate then NoHash else w.ring.authHash
  {
  }

  lemma {:induction false} LastWriter(h: History, j: nat, n: nat) returns (m: nat)
    requires IsRun(h) && j < n <= |h.events| && WritesSalt(h.worlds[j], h.events[j])
    ensures j <= m < n && WritesSalt(h.worlds[m], h.events[m])
    ensures forall k | m < k < n :: !WritesSalt(h.worlds[k], h.events[k])
  {
    m := n - 1;
    if !WritesSalt(h.worlds[n - 1], h.events[n - 1]) { m := LastWriter(h, j, n - 1); }
  }

  /** What comes for a permanent key never goes to a temporary one. */
  lemma OwnSaltIsWritten(h: History, i: nat, j: nat)
    requires IsRun(h) && SetLast(h, i)
    requires j < |h.events| && GivesSalt(h.worlds[j], h.events[j], h.hashOf(h.events[i].key), h.hashOf)
    ensures WritesSalt(h.worlds[j], h.events[j])
  {
    NeverDrawn(h, i, j);
    assert IsStep(h, j);
    NoSlotHas(h.worlds[j], h.events[i].key, h.hashOf);
    if Creates(h.worlds[j], h.events[j]) {
      NeverDrawn(h, i, j + 1);
      DrawnStep(h.worlds[j], h.events[j], h.hashOf);
    }
  }

  lemma NoSlotHas(w: World, key: Key, hashOf: Key -> Hash)
    requires DistinctHashes(hashOf) && Inv(w, hashOf) && key !in w.drawn
    ensures hashOf(key) !in {w.ring.pending.hash, w.ring.current.hash, w.ring.previous.hash}
  {
  }

  lemma DrawnStep(w: World, e: Event, hashOf: Key -> Hash)
    ensures w.drawn <= Apply(w, e, hashOf).drawn && w.permanent <= Apply(w, e, hashOf).permanent
    ensures Creates(w, e) ==> e.key in Apply(w, e, hashOf).drawn
    ensures Sets(w, e) ==> e.key in Apply(w, e, hashOf).permanent
  {
  }

  lemma {:induction false} DrawnGrows(h: History, m: nat, n: nat)
    requires IsRun(h) && m <= n <= |h.events|
    ensures h.worlds[m].drawn <= h.worlds[n].drawn && h.worlds[m].permanent <= h.worlds[n].permanent
  {
    if m < n {
      DrawnGrows(h, m, n - 1);
      assert IsStep(h, n - 1);
      DrawnStep(h.worlds[n - 1], h.events[n - 1], h.hashOf);
    }
  }

  lemma NeverDrawn(h: History, i: nat, n: nat)
    requires IsRun(h) && i < |h.events| && Sets(h.worlds[i], h.events[i]) && n <= |h.events|
    ensures h.events[i].key !in h.worlds[n].drawn
  {
    if n <= i {
      DrawnGrows(h, n, i);
    } else {
      assert IsStep(h, i);
      DrawnStep(h.worlds[i], h.events[i], h.hashOf);
      DrawnGrows(h, i + 1, n);
      InvAt(h, n);
    }
  }

  /** A binding request goes under the temporary key created last and not yet bound or dropped, with the salt that
      came last for it; it has no key exactly if there is no such key. */
  lemma BindingRequestsKey(h: History, pfs: bool)
    requires IsRun(h)
    ensures var (key, salt) := RequestKey(Last(h).ring, pfs, true);
      && (key != NoKey <==> exists i: nat :: CreatedLast(h, i))
      && (forall i: nat | CreatedLast(h, i) :: key == h.events[i].key)
      && (forall i: nat | CreatedLast(h, i) :: exists j: nat :: SaltedLast(h, j, h.hashOf(key)))
      && (forall i: nat, j: nat | CreatedLast(h, i) && SaltedLast(h, j, h.hashOf(key)) :: salt == SaltIn(h.events[j]))
  {
    var n := |h.events|;
    var w := Last(h);
    InvAt(h, |h.events|);
    forall i: nat | CreatedLast(h, i) ensures w.ring.pending.key == h.events[i].key != NoKey {
      PendingKey(h, i, n);
    }
    if w.ring.pending.key != NoKey {
      var i := PendingKeyWasCreated(h, n);
      assert CreatedLast(h, i);
      var hash := h.hashOf(w.ring.pending.key);
      var j := LastSaltWasGiven(h, n, hash);
      assert SaltedLast(h, j, hash);
      forall j: nat | SaltedLast(h, j, hash) ensures w.ring.pending.salt == SaltIn(h.events[j]) {
        LastSalt(h, j, n, hash);
      }
    }
  }
}
