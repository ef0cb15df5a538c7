/** The key ring of the main connection (handshake.go, network.go, mtproto.go).

    With perfect forward secrecy, traffic runs under temporary keys that the server has acknowledged as
    bound to the permanent key.  A fresh key is first pending, becomes current when its binding is
    confirmed, and stays one more round as previous so that late messages can be read.  Every key has its
    own server salt, which must travel with it. */
module KeyRing {
  import opened Files

  datatype Key = NoKey | Key(bytes: seq<Byte>)

  datatype Hash = NoHash | Hash(value: int)

  /** The key hash as an abstract function, distinct for distinct keys; even an absent key has one. */
  ghost predicate DistinctHashes(hashOf: Key -> Hash) {
    && (forall k :: hashOf(k) != NoHash)
    && (forall j, k :: hashOf(j) == hashOf(k) ==> j == k)
  }

  /** There are such functions. */
  lemma SomeDistinctHashes() returns (hashOf: Key -> Hash)
    ensures DistinctHashes(hashOf)
  {
    hashOf := (k: Key) => if k == NoKey then Hash(0) else Hash(1 + Code(k.bytes));
    forall j, k | hashOf(j) == hashOf(k) ensures j == k {
      if j != NoKey && k != NoKey { CodeIsInjective(j.bytes, k.bytes); }
    }
  }

  predicate FullLength(k: Key) {
    k.Key? && |k.bytes| == 256
  }

  datatype Slot = Slot(key: Key, hash: Hash, salt: int, expires: int)

  /** The fields guarded by authMu.  The previous slot has no expiry in the source; its field stays unused. */
  datatype Ring = Ring(auth: Key, authHash: Hash, serverSalt: int, current: Slot, pending: Slot, previous: Slot)

  const EMPTY := Slot(NoKey, NoHash, 0, 0)

  const NEW_RING := Ring(NoKey, NoHash, 0, EMPTY, EMPTY, EMPTY)

  function WithAuthKey(r: Ring, key: Key, hashOf: Key -> Hash): Ring {
    (if r.auth == key then r else r.(current := EMPTY, pending := EMPTY, previous := EMPTY)).(
      auth := key, authHash := hashOf(key))
  }

  /** Migration drops every key, and leaves three salts and the pending expiry as they were. */
  function Dropped(r: Ring): Ring {
    Ring(NoKey, NoHash, 0, Slot(NoKey, NoHash, r.current.salt, 0),
         Slot(NoKey, NoHash, r.pending.salt, r.pending.expires),
         Slot(NoKey, NoHash, r.previous.salt, r.previous.expires))
  }

  function Rotated(r: Ring): Ring {
    r.(previous := Slot(r.current.key, r.current.hash, r.current.salt, r.previous.expires),
       current := r.pending, pending := EMPTY)
  }

  predicate BindHolds(r: Ring, newKey: Key, permKey: Key, now: int) {
    permKey == r.auth && newKey == r.pending.key && now < r.pending.expires
  }

  function Salted(r: Ring, h: Hash, salt: int): Ring {
    if h != NoHash && h == r.pending.hash then r.(pending := r.pending.(salt := salt))
    else if h != NoHash && h == r.current.hash then r.(current := r.current.(salt := salt))
    else if h != NoHash && h == r.previous.hash then r.(previous := r.previous.(salt := salt))
    else r.(serverSalt := salt)
  }

  function RequestKey(r: Ring, pfs: bool, binding: bool): (Key, int) {
    if binding then (r.pending.key, r.pending.salt)
    else if pfs && r.current.key != NoKey then (r.current.key, r.current.salt)
    else (r.auth, r.serverSalt)
  }

  class AuthKeys {
    const hashOf: Key -> Hash
    const enablePFS: bool
    var authKey: Key
    var authKeyHash: Hash
    var serverSalt: int
    var tempAuthKey: Key
    var tempAuthKeyHash: Hash
    var tempServerSalt: int
    var tempAuthExpiresAt: int
    var pendingTempAuthKey: Key
    var pendingTempKeyHash: Hash
    var pendingTempSalt: int
    var pendingTempExpiresAt: int
    var previousTempAuthKey: Key
    var previousTempKeyHash: Hash
    var previousTempSalt: int

    ghost function View(): Ring
      reads this
    {
      Ring(authKey, authKeyHash, serverSalt,
           Slot(tempAuthKey, tempAuthKeyHash, tempServerSalt, tempAuthExpiresAt),
           Slot(pendingTempAuthKey, pendingTempKeyHash, pendingTempSalt, pendingTempExpiresAt),
           Slot(previousTempAuthKey, previousTempKeyHash, previousTempSalt, 0))
    }

    constructor (hashOf: Key -> Hash, enablePFS: bool)
      ensures View() == NEW_RING && this.hashOf == hashOf && this.enablePFS == enablePFS
    {
      this.hashOf, this.enablePFS := hashOf, enablePFS;
      authKey, authKeyHash, serverSalt := NoKey, NoHash, 0;
      tempAuthKey, tempAuthKeyHash, tempServerSalt, tempAuthExpiresAt := NoKey, NoHash, 0, 0;
      pendingTempAuthKey, pendingTempKeyHash, pendingTempSalt, pendingTempExpiresAt := NoKey, NoHash, 0, 0;
      previousTempAuthKey, previousTempKeyHash, previousTempSalt := NoKey, NoHash, 0;
    }

    method SetAuthKey(key: Key)
      modifies this
      ensures View() == WithAuthKey(old(View()), key, hashOf)
    {
      if authKey != key {
        tempAuthKey, tempAuthKeyHash := NoKey, NoHash;
        pendingTempAuthKey, pendingTempKeyHash := NoKey, NoHash;
        previousTempAuthKey, previousTempKeyHash := NoKey, NoHash;
        tempAuthExpiresAt, pendingTempExpiresAt := 0, 0;
        tempServerSalt, pendingTempSalt, previousTempSalt := 0, 0, 0;
      }
      authKey := key;
      authKeyHash := hashOf(authKey);
    }

    method DropForMigration()
      modifies this
      ensures View() == Dropped(old(View()))
    {
      authKey := NoKey;
      authKeyHash := NoHash;
      serverSalt := 0;
      DropTemporaryKeys();
    }

    method DropTemporaryKeys()
      modifies this`tempAuthKey, this`tempAuthKeyHash, this`tempAuthExpiresAt, this`pendingTempAuthKey,
        this`pendingTempKeyHash, this`previousTempAuthKey, this`previousTempKeyHash
      ensures tempAuthKey == NoKey && tempAuthKeyHash == NoHash && tempAuthExpiresAt == 0
      ensures pendingTempAuthKey == NoKey && pendingTempKeyHash == NoHash
      ensures previousTempAuthKey == NoKey && previousTempKeyHash == NoHash
    {
      tempAuthKey := NoKey;
      tempAuthKeyHash := NoHash;
      tempAuthExpiresAt := 0;
      pendingTempAuthKey := NoKey;
      pendingTempKeyHash := NoHash;
      previousTempAuthKey := NoKey;
      previousTempKeyHash := NoHash;
    }

    /** The end of createTempAuthKey: take over what the helper connection negotiated. */
    method InstallPending(key: Key, salt: int, expiresAt: int)
      modifies this
      ensures View() == old(View()).(pending := Slot(key, hashOf(key), salt, expiresAt))
    {
      pendingTempAuthKey := key;
      pendingTempKeyHash := hashOf(key);
      pendingTempExpiresAt := expiresAt;
      pendingTempSalt := salt;
    }

    /** The end of bindTempAuthKey, after the server's acknowledgment. */
    method FinishBinding(newKey: Key, permKey: Key, now: int) returns (ok: bool)
      modifies this
      ensures ok <==> BindHolds(old(View()), newKey, permKey, now)
      ensures View() == if ok then Rotated(old(View())) else old(View())
    {
      if permKey != authKey || newKey != pendingTempAuthKey { return false; }
      if pendingTempExpiresAt <= now { return false; }
      Rotate();
      return true;
    }

    method Rotate()
      modifies this
      ensures View() == Rotated(old(View()))
    {
      previousTempAuthKey, previousTempKeyHash := tempAuthKey, tempAuthKeyHash;
      previousTempSalt := tempServerSalt;
      tempAuthKey, tempAuthKeyHash := pendingTempAuthKey, pendingTempKeyHash;
      tempServerSalt := pendingTempSalt;
      tempAuthExpiresAt := pendingTempExpiresAt;
      ClearPending();
    }

    method ClearPending()
      modifies this`pendingTempAuthKey, this`pendingTempKeyHash, this`pendingTempExpiresAt, this`pendingTempSalt
      ensures pendingTempAuthKey == NoKey && pendingTempKeyHash == NoHash
      ensures pendingTempExpiresAt == 0 && pendingTempSalt == 0
    {
      pendingTempAuthKey := NoKey;
      pendingTempKeyHash := NoHash;
      pendingTempExpiresAt := 0;
      pendingTempSalt := 0;
    }

    method UpdateSalt(h: Hash, salt: int)
      modifies this
      ensures View() == Salted(old(View()), h, salt)
    {
      if h != NoHash {
        if h == pendingTempKeyHash { pendingTempSalt := salt; return; }
        if h == tempAuthKeyHash { tempServerSalt := salt; return; }
        if h == previousTempKeyHash { previousTempSalt := salt; return; }
      }
      serverSalt := salt;
    }

    method KeyForRequest(binding: bool) returns (key: Key, salt: int)
      ensures (key, salt) == RequestKey(View(), enablePFS, binding)
    {
      if binding { return pendingTempAuthKey, pendingTempSalt; }
      if enablePFS && tempAuthKey != NoKey { return tempAuthKey, tempServerSalt; }
      return authKey, serverSalt;
    }

    /** Reading finds exactly the live keys, each by its own hash. */
    method GetAuthKeyForHash(h: Hash) returns (key: Key)
      requires DistinctHashes(hashOf) && RingInv(View(), hashOf)
      ensures key != NoKey <==> exists k :: k != NoKey && hashOf(k) == h && IsKeyOf(View(), k)
      ensures key != NoKey ==> hashOf(key) == h && IsKeyOf(View(), key)
    {
      key := NoKey;
      if h != NoHash {
        if h == authKeyHash { key := authKey; }
        else if h == tempAuthKeyHash { key := tempAuthKey; }
        else if h == pendingTempKeyHash { key := pendingTempAuthKey; }
        else if h == previousTempKeyHash { key := previousTempAuthKey; }
      }
      if k :| k != NoKey && hashOf(k) == h && IsKeyOf(View(), k) {
        assert key == k;
      }
    }
  }

  ghost predicate IsKeyOf(r: Ring, k: Key) {
    k == r.auth || k == r.current.key || k == r.pending.key || k == r.previous.key
  }

  ghost predicate SlotInv(s: Slot, hashOf: Key -> Hash) {
    if s.key == NoKey then s.hash == NoHash else s.hash == hashOf(s.key)
  }

  ghost predicate RingInv(r: Ring, hashOf: Key -> Hash) {
    && SlotInv(r.current, hashOf) && SlotInv(r.pending, hashOf) && SlotInv(r.previous, hashOf)
    && (r.auth != NoKey ==> r.authHash == hashOf(r.auth))
    && (r.auth == NoKey ==> r.authHash == NoHash || r.authHash == hashOf(NoKey))
  }

  // ---------- runs ----------

  /** A bindTempAuthKey call in progress: it has read the two keys; its request went out under `used`. */
  datatype Attempt =
    | Begun(newKey: Key, permKey: Key)
    | Sent(newKey: Key, permKey: Key, used: Key)
    | Acknowledged(newKey: Key, permKey: Key, used: Key)

  /** `drawn`: every temporary key ever negotiated; `permanent`: every permanent key ever set; `bound`: the
      pairs the server has acknowledged; `lastSalt`: the last salt the server gave for each key hash. */
  datatype World = World(
    ring: Ring, drawn: set<Key>, permanent: set<Key>, bound: set<(Key, Key)>, lastSalt: map<Hash, int>,
    attempts: map<nat, Attempt>)

  const START := World(NEW_RING, {}, {}, {}, map[], map[])

  datatype Event =
    | SetKey(key: Key)
    | StoreSalt(salt: int)
    | Migrate
    | Create(key: Key, salt: int, expires: int)
    | Begin(id: nat, now: int)
    | Send(id: nat)
    | Acknowledge(id: nat)
    | Finish(id: nat, now: int)
    | Fail(id: nat)
    | NewSalt(h: Hash, salt: int)

  function Apply(w: World, e: Event, hashOf: Key -> Hash): World {
    match e
    case SetKey(key) =>
      if key in w.drawn then w
      else w.(ring := WithAuthKey(w.ring, key, hashOf), permanent := w.permanent + {key})
    case StoreSalt(salt) => w.(ring := w.ring.(serverSalt := salt), lastSalt := w.lastSalt[w.ring.authHash := salt])
    case Migrate => w.(ring := Dropped(w.ring))
    case Create(key, salt, expires) =>
      if key == NoKey || key in w.drawn || key in w.permanent then w else
        w.(ring := w.ring.(pending := Slot(key, hashOf(key), salt, expires)),
           drawn := w.drawn + {key}, lastSalt := w.lastSalt[hashOf(key) := salt])
    case Begin(id, now) =>
      if id in w.attempts || !FullLength(w.ring.pending.key) || !FullLength(w.ring.auth)
        || w.ring.pending.expires <= now
      then w else w.(attempts := w.attempts[id := Begun(w.ring.pending.key, w.ring.auth)])
    case Send(id) =>
      if !(id in w.attempts && w.attempts[id].Begun?) then w else
        var a := w.attempts[id];
        w.(attempts := w.attempts[id := Sent(a.newKey, a.permKey, RequestKey(w.ring, true, true).0)])
    case Acknowledge(id) =>
      if !(id in w.attempts && w.attempts[id].Sent?) then w else
        var a := w.attempts[id];
        w.(attempts := w.attempts[id := Acknowledged(a.newKey, a.permKey, a.used)],
           bound := w.bound + {(a.used, a.permKey)})
    case Finish(id, now) =>
      if !(id in w.attempts && w.attempts[id].Acknowledged?) then w else
        var a := w.attempts[id];
        w.(attempts := w.attempts - {id},
           ring := if BindHolds(w.ring, a.newKey, a.permKey, now) then Rotated(w.ring) else w.ring)
    case Fail(id) => w.(attempts := w.attempts - {id})
    case NewSalt(h, salt) =>
      w.(ring := Salted(w.ring, h, salt), lastSalt := if h == NoHash then w.lastSalt else w.lastSalt[h := salt])
  }

  ghost predicate Known(w: World, s: Slot) {
    s.key != NoKey ==> s.key in w.drawn && s.hash in w.lastSalt && s.salt == w.lastSalt[s.hash]
  }

  ghost predicate AttemptInv(w: World, a: Attempt) {
    && a.newKey != NoKey && a.newKey in w.drawn
    && (!a.Begun? ==> a.used == a.newKey || w.ring.pending.key != a.newKey)
    && (a.Acknowledged? ==> (a.used, a.permKey) in w.bound)
  }

  /** Distinct live keys, each with its own last salt; traffic keys acknowledged for the permanent key. */
  ghost predicate Inv(w: World, hashOf: Key -> Hash) {
    var r := w.ring;
    && RingInv(r, hashOf)
    && w.drawn !! w.permanent && NoKey !in w.drawn && (r.auth != NoKey ==> r.auth in w.permanent)
    && Known(w, r.current) && Known(w, r.pending) && Known(w, r.previous)
    && (r.current.key != NoKey ==> (r.current.key, r.auth) in w.bound && r.current.key != r.previous.key)
    && (r.previous.key != NoKey ==> (r.previous.key, r.auth) in w.bound)
    && (r.pending.key != NoKey ==> r.pending.key != r.current.key && r.pending.key != r.previous.key)
    && (forall id | id in w.attempts :: AttemptInv(w, w.attempts[id]))
  }

  lemma ApplyKeepsInv(w: World, e: Event, hashOf: Key -> Hash)
    requires DistinctHashes(hashOf) && Inv(w, hashOf)
    ensures Inv(Apply(w, e, hashOf), hashOf)
  {
    match e
    case NewSalt(h, salt) => SaltKeepsInv(w, h, salt, hashOf);
    case Finish(id, now) => FinishKeepsInv(w, id, now, hashOf);
    case Create(key, salt, expires) => CreateKeepsInv(w, key, salt, expires, hashOf);
    case SetKey(key) => SetKeyKeepsInv(w, key, hashOf);
    case StoreSalt(salt) => StoreKeepsInv(w, salt, hashOf);
    case Migrate => MigrateKeepsInv(w, hashOf);
    case _ => AttemptKeepsInv(w, e, hashOf);
  }

  /** What changes only the attempts leaves the ring alone. */
  lemma AttemptKeepsInv(w: World, e: Event, hashOf: Key -> Hash)
    requires Inv(w, hashOf) && (e.Begin? || e.Send? || e.Acknowledge? || e.Fail?)
    ensures Inv(Apply(w, e, hashOf), hashOf)
  {
    var t := Apply(w, e, hashOf);
    forall id | id in t.attempts ensures AttemptInv(t, t.attempts[id]) {
      if id in w.attempts { assert AttemptInv(w, w.attempts[id]); }
    }
  }

  lemma SetKeyKeepsInv(w: World, key: Key, hashOf: Key -> Hash)
    requires DistinctHashes(hashOf) && Inv(w, hashOf)
    ensures Inv(Apply(w, SetKey(key), hashOf), hashOf)
  {
    var t := Apply(w, SetKey(key), hashOf);
    forall id | id in t.attempts ensures AttemptInv(t, t.attempts[id]) {
      assert AttemptInv(w, w.attempts[id]);
    }
  }

  lemma StoreKeepsInv(w: World, salt: int, hashOf: Key -> Hash)
    requires DistinctHashes(hashOf) && Inv(w, hashOf)
    ensures Inv(Apply(w, StoreSalt(salt), hashOf), hashOf)
  {
    var t := Apply(w, StoreSalt(salt), hashOf);
    forall id | id in t.attempts ensures AttemptInv(t, t.attempts[id]) {
      assert AttemptInv(w, w.attempts[id]);
    }
  }

  lemma MigrateKeepsInv(w: World, hashOf: Key -> Hash)
    requires Inv(w, hashOf)
    ensures Inv(Apply(w, Migrate, hashOf), hashOf)
  {
    var t := Apply(w, Migrate, hashOf);
    forall id | id in t.attempts ensures AttemptInv(t, t.attempts[id]) {
      assert AttemptInv(w, w.attempts[id]);
    }
  }

  /** The salt of a key changes in the one slot that has it, and in the record. */
  lemma SaltedSlots(w: World, h: Hash, salt: int, hashOf: Key -> Hash)
    requires DistinctHashes(hashOf) && Inv(w, hashOf)
    ensures var t := Apply(w, NewSalt(h, salt), hashOf);
      && Known(t, t.ring.current) && Known(t, t.ring.pending) && Known(t, t.ring.previous)
      && t.ring.current.key == w.ring.current.key && t.ring.current.hash == w.ring.current.hash
      && t.ring.pending.key == w.ring.pending.key && t.ring.pending.hash == w.ring.pending.hash
      && t.ring.previous.key == w.ring.previous.key && t.ring.previous.hash == w.ring.previous.hash
      && t.ring.auth == w.ring.auth && t.ring.authHash == w.ring.authHash
  {
  }

  lemma SaltKeepsInv(w: World, h: Hash, salt: int, hashOf: Key -> Hash)
    requires DistinctHashes(hashOf) && Inv(w, hashOf)
    ensures Inv(Apply(w, NewSalt(h, salt), hashOf), hashOf)
  {
    var t := Apply(w, NewSalt(h, salt), hashOf);
    SaltedSlots(w, h, salt, hashOf);
    forall id | id in t.attempts ensures AttemptInv(t, t.attempts[id]) {
      assert AttemptInv(w, w.attempts[id]);
    }
  }

  lemma FinishKeepsInv(w: World, id: nat, now: int, hashOf: Key -> Hash)
    requires DistinctHashes(hashOf) && Inv(w, hashOf)
    ensures Inv(Apply(w, Finish(id, now), hashOf), hashOf)
  {
    var t := Apply(w, Finish(id, now), hashOf);
    if id in w.attempts { assert AttemptInv(w, w.attempts[id]); }
    forall other | other in t.attempts ensures AttemptInv(t, t.attempts[other]) {
      assert AttemptInv(w, w.attempts[other]);
    }
  }

  lemma CreateKeepsInv(w: World, key: Key, salt: int, expires: int, hashOf: Key -> Hash)
    requires DistinctHashes(hashOf) && Inv(w, hashOf)
    ensures Inv(Apply(w, Create(key, salt, expires), hashOf), hashOf)
  {
    var t := Apply(w, Create(key, salt, expires), hashOf);
    forall id | id in t.attempts ensures AttemptInv(t, t.attempts[id]) {
      assert AttemptInv(w, w.attempts[id]);
    }
  }

  ghost function Run(events: seq<Event>, hashOf: Key -> Hash): World {
    if events == [] then START
    else Apply(Run(events[..|events| - 1], hashOf), events[|events| - 1], hashOf)
  }

  lemma {:induction false} RunKeepsInv(events: seq<Event>, hashOf: Key -> Hash)
    requires DistinctHashes(hashOf)
    ensures Inv(Run(events, hashOf), hashOf)
  {
    if events != [] {
      RunKeepsInv(events[..|events| - 1], hashOf);
      ApplyKeepsInv(Run(events[..|events| - 1], hashOf), events[|events| - 1], hashOf);
    }
  }

  /** Main result: after any interleaving of key creation, bindings that overlap, key changes and
      migrations, ordinary traffic under a temporary key uses one that the server acknowledged for the
      permanent key now in force, with the last salt the server gave for it. */
  lemma TrafficKeyIsBound(events: seq<Event>, hashOf: Key -> Hash)
    requires DistinctHashes(hashOf) && Run(events, hashOf).ring.current.key != NoKey
    ensures
      var w := Run(events, hashOf);
      var (key, salt) := RequestKey(w.ring, true, false);
      (key, w.ring.auth) in w.bound && hashOf(key) in w.lastSalt && salt == w.lastSalt[hashOf(key)]
  {
    RunKeepsInv(events, hashOf);
  }

  /** Each live temporary key keeps its own last salt through every move between the slots. */
  lemma SaltsFollowTheirKeys(events: seq<Event>, hashOf: Key -> Hash, s: Slot)
    requires DistinctHashes(hashOf)
    requires var r := Run(events, hashOf).ring; s == r.current || s == r.pending || s == r.previous
    requires s.key != NoKey
    ensures var w := Run(events, hashOf); hashOf(s.key) in w.lastSalt && s.salt == w.lastSalt[hashOf(s.key)]
  {
    RunKeepsInv(events, hashOf);
  }

  /** The permanent key has no such guarantee.  Its salt stays its own under a salt notice exactly when the
      notice came under a live temporary key or under the permanent key itself; a notice read under a key
      that a rotation has since dropped overwrites it with that key's salt, unless the two agree. */
  lemma PermanentSaltIsKeptExactlyWhen(w: World, h: Hash, salt: int, hashOf: Key -> Hash)
    requires DistinctHashes(hashOf) && Inv(w, hashOf) && h != NoHash
    requires w.ring.authHash in w.lastSalt && w.ring.serverSalt == w.lastSalt[w.ring.authHash]
    requires w.ring.auth != NoKey
    ensures
      var t := Apply(w, NewSalt(h, salt), hashOf);
      t.ring.serverSalt == t.lastSalt[t.ring.authHash] <==>
        (h == w.ring.authHash || salt == w.ring.serverSalt
         || h in {w.ring.pending.hash, w.ring.current.hash, w.ring.previous.hash})
  {
  }

  /** What the server and the clock say during one creation and binding. */
  datatype Terms = Terms(salt: int, expires: int, begun: int, finished: int)

  predicate InTime(terms: Terms) {
    terms.begun < terms.expires && terms.finished < terms.expires
  }

  /** One undisturbed creation and binding of a temporary key. */
  function Rotation(id: nat, k: Key, terms: Terms): seq<Event> {
    [Create(k, terms.salt, terms.expires), Begin(id, terms.begun), Send(id), Acknowledge(id),
     Finish(id, terms.finished)]
  }

  lemma Then(events: seq<Event>, e: Event, hashOf: Key -> Hash)
    ensures Run(events + [e], hashOf) == Apply(Run(events, hashOf), e, hashOf)
  {
    assert (events + [e])[..|events|] == events;
  }

  /** It installs the key with its salt and expiry, and moves the keys before it by one slot. */
  lemma RotationInstalls(events: seq<Event>, id: nat, k: Key, terms: Terms, hashOf: Key -> Hash)
    requires var w := Run(events, hashOf);
      FullLength(k) && FullLength(w.ring.auth) && k !in w.drawn && k !in w.permanent && w.attempts == map[]
    requires InTime(terms)
    ensures
      var w, t := Run(events, hashOf), Run(events + Rotation(id, k, terms), hashOf);
      && t.ring == w.ring.(current := Slot(k, hashOf(k), terms.salt, terms.expires), pending := EMPTY,
          previous := Slot(w.ring.current.key, w.ring.current.hash, w.ring.current.salt, w.ring.previous.expires))
      && t.drawn == w.drawn + {k} && t.permanent == w.permanent && t.attempts == map[]
      && t.lastSalt == w.lastSalt[hashOf(k) := terms.salt]
  {
    FiveSteps(events, Rotation(id, k, terms), hashOf);
    RotationApplied(Run(events, hashOf), id, k, terms, hashOf);
  }

  function AfterFive(w: World, r: seq<Event>, hashOf: Key -> Hash): World
    requires |r| == 5
  {
    Apply(Apply(Apply(Apply(Apply(w, r[0], hashOf), r[1], hashOf), r[2], hashOf), r[3], hashOf), r[4], hashOf)
  }

  function ApplyAll(w: World, events: seq<Event>, hashOf: Key -> Hash): World
    decreases |events|
  {
    if events == [] then w else ApplyAll(Apply(w, events[0], hashOf), events[1..], hashOf)
  }

  lemma {:induction false} RunGoesOn(events: seq<Event>, more: seq<Event>, hashOf: Key -> Hash)
    ensures Run(events + more, hashOf) == ApplyAll(Run(events, hashOf), more, hashOf)
    decreases |more|
  {
    if more == [] {
      assert events + more == events;
    } else {
      var next := events + [more[0]];
      Then(events, more[0], hashOf);
      RunGoesOn(next, more[1..], hashOf);
      OneMoved(events, more);
    }
  }

  lemma OneMoved(events: seq<Event>, more: seq<Event>)
    requires more != []
    ensures (events + [more[0]]) + more[1..] == events + more
  {
  }

  lemma FirstOf(w: World, events: seq<Event>, i: nat, hashOf: Key -> Hash)
    requires i < |events|
    ensures ApplyAll(w, events[i..], hashOf) == ApplyAll(Apply(w, events[i], hashOf), events[i + 1..], hashOf)
  {
    assert events[i..][1..] == events[i + 1..];
  }

  lemma FiveSteps(events: seq<Event>, r: seq<Event>, hashOf: Key -> Hash)
    requires |r| == 5
    ensures Run(events + r, hashOf) == AfterFive(Run(events, hashOf), r, hashOf)
  {
    var w0 := Run(events, hashOf);
    var w1 := Apply(w0, r[0], hashOf);
    var w2 := Apply(w1, r[1], hashOf);
    var w3 := Apply(w2, r[2], hashOf);
    var w4 := Apply(w3, r[3], hashOf);
    RunGoesOn(events, r, hashOf);
    assert r[0..] == r && r[5..] == [];
    FirstOf(w0, r, 0, hashOf);
    FirstOf(w1, r, 1, hashOf);
    FirstOf(w2, r, 2, hashOf);
    FirstOf(w3, r, 3, hashOf);
    FirstOf(w4, r, 4, hashOf);
  }

  lemma RotationApplied(w: World, id: nat, k: Key, terms: Terms, hashOf: Key -> Hash)
    requires FullLength(k) && FullLength(w.ring.auth) && k !in w.drawn && k !in w.permanent && w.attempts == map[]
    requires InTime(terms)
    ensures
      var t := AfterFive(w, Rotation(id, k, terms), hashOf);
      && t.ring == w.ring.(current := Slot(k, hashOf(k), terms.salt, terms.expires), pending := EMPTY,
          previous := Slot(w.ring.current.key, w.ring.current.hash, w.ring.current.salt, w.ring.previous.expires))
      && t.drawn == w.drawn + {k} && t.permanent == w.permanent && t.attempts == map[]
      && t.lastSalt == w.lastSalt[hashOf(k) := terms.salt]
  {
  }

  lemma KeyWithSalt(hashOf: Key -> Hash, p: Key, salt: int)
    requires FullLength(p)
    ensures var w := Run([SetKey(p), StoreSalt(salt)], hashOf);
      && w == Run([], hashOf).(ring := w.ring, permanent := {p}, lastSalt := map[hashOf(p) := salt])
      && w.ring == Run([], hashOf).ring.(auth := p, authHash := hashOf(p), serverSalt := salt)
  {
    Then([], SetKey(p), hashOf);
    Then([SetKey(p)], StoreSalt(salt), hashOf);
    assert [] + [SetKey(p)] == [SetKey(p)] && [SetKey(p)] + [StoreSalt(salt)] == [SetKey(p), StoreSalt(salt)];
  }

  /** Such a notice exists: the third rotation drops the first temporary key while a message read under it
      is still being handled, and the permanent key's salt is replaced by the one in that message. */
  lemma PermanentSaltCanBeOverwritten(
      hashOf: Key -> Hash, p: Key, a: Key, b: Key, c: Key, u: Terms, v: Terms, w: Terms, salt: int, late: int)
    requires DistinctHashes(hashOf)
    requires FullLength(p) && FullLength(a) && FullLength(b) && FullLength(c) && InTime(u) && InTime(v) && InTime(w)
    requires a != b && b != c && a != c && p != a && p != b && p != c
    ensures
      var t := Run([SetKey(p), StoreSalt(salt)] + Rotation(1, a, u) + Rotation(2, b, v) + Rotation(3, c, w)
                   + [NewSalt(hashOf(a), late)], hashOf);
      && t.ring.auth == p && t.ring.authHash == hashOf(p)
      && hashOf(p) in t.lastSalt && t.lastSalt[hashOf(p)] == salt && t.ring.serverSalt == late
  {
    var start := [SetKey(p), StoreSalt(salt)];
    KeyWithSalt(hashOf, p, salt);
    RotationInstalls(start, 1, a, u, hashOf);
    RotationInstalls(start + Rotation(1, a, u), 2, b, v, hashOf);
    RotationInstalls(start + Rotation(1, a, u) + Rotation(2, b, v), 3, c, w, hashOf);
    Then(start + Rotation(1, a, u) + Rotation(2, b, v) + Rotation(3, c, w), NewSalt(hashOf(a), late), hashOf);
  }
}
