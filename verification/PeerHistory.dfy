/** Where the answers of the peer cache come from (telegram/cache.go): of everything the server ever said about
    a peer, which announcement its access hash, its description and its names are taken from.  The definitions
    below look at the events and at evictions alone. */
module PeerHistory {
  import opened RecencyOrder
  import opened Usernames
  import opened PeerCache

  /** The state after the first `n` events of a run. */
  ghost function At(events: seq<Event>, n: nat, maxSize: int): State
    requires n <= |events|
  {
    Run(events[..n], maxSize)
  }

  // ---------- what an event says of a peer ----------

  /** A description with full data: it always counts. */
  predicate Full(e: Event, key: PeerKey) {
    match e
    case Announce(k, peer, _) => k == key && Addressable(key) && !peer.min
    case Community(community) => key == PeerKey(Channel, community.id) && !community.min
    case Chat(chat, forbidden) => key == PeerKey(Group, chat.id) && !forbidden
    case _ => false
  }

  /** That a channel or a group is forbidden: it counts as long as nothing real is known. */
  predicate Fallback(e: Event, key: PeerKey) {
    match e
    case Forbid(channel) => key == PeerKey(Channel, channel.id)
    case Chat(chat, forbidden) => key == PeerKey(Group, chat.id) && forbidden
    case _ => false
  }

  predicate Real(e: Event, key: PeerKey) {
    Full(e, key) || Fallback(e, key)
  }

  /** A description without full data. */
  predicate Partial(e: Event, key: PeerKey) {
    match e
    case Announce(k, peer, _) => k == key && Addressable(key) && peer.min
    case Community(community) => key == PeerKey(Channel, community.id) && community.min
    case _ => false
  }

  function HashIn(e: Event): int {
    match e
    case Announce(_, peer, _) => peer.accessHash
    case Community(community) => community.accessHash
    case Forbid(channel) => channel.accessHash
    case _ => 0
  }

  function DescriptionIn(e: Event): Peer {
    match e
    case Announce(_, peer, _) => peer
    case Community(community) => Peer(community.id, community.min, community.accessHash, "", [])
    case Forbid(channel) => Peer(channel.id, false, channel.accessHash, "", [])
    case Chat(chat, forbidden) => if forbidden then Peer(chat.id, false, 0, "", []) else chat
    case _ => Peer(0, false, 0, "", [])
  }

  /** The peer is one of the maxSize most recently touched. */
  ghost predicate Retained(events: seq<Event>, m: nat, key: PeerKey, maxSize: int)
    requires m <= |events|
  {
    maxSize < 0 || key in Newest(Recent(At(events, m, maxSize).touches), maxSize)
  }

  /** After which events it is. */
  ghost function Stays(events: seq<Event>, key: PeerKey, maxSize: int): (kept: seq<bool>)
    ensures |kept| == |events| + 1
    ensures forall m | 0 <= m <= |events| :: kept[m] <==> Retained(events, m, key, maxSize)
  {
    seq(|events| + 1, m requires 0 <= m <= |events| => Retained(events, m, key, maxSize))
  }

  /** The peer has not been evicted from event `i` on until the first `n` are over. */
  predicate Kept(kept: seq<bool>, i: nat, n: nat)
    requires n < |kept|
  {
    forall m | i < m <= n :: kept[m]
  }

  /** Nothing real was known of the peer when event `n` came. */
  ghost predicate Unknown(events: seq<Event>, kept: seq<bool>, n: nat, key: PeerKey)
    requires n <= |events| < |kept|
  {
    forall j | 0 <= j < n && Real(events[j], key) :: !Kept(kept, j, n)
  }

  /** Event `i` is the one that what is known after `n` events comes from: the last full description since the
      peer was last evicted, or else the first notice that it is forbidden. */
  ghost predicate Given(events: seq<Event>, kept: seq<bool>, i: nat, n: nat, key: PeerKey)
    requires n <= |events| < |kept|
  {
    && i < n && Kept(kept, i, n)
    && (forall j | i < j < n :: !Full(events[j], key))
    && (Full(events[i], key) || (Fallback(events[i], key) && Unknown(events, kept, i, key)))
  }

  /** As long as nothing real is known: the last partial description since the last eviction. */
  ghost predicate Glimpsed(events: seq<Event>, kept: seq<bool>, i: nat, n: nat, key: PeerKey)
    requires n <= |events| < |kept|
  {
    && i < n && Kept(kept, i, n) && Unknown(events, kept, n, key)
    && Partial(events[i], key) && forall j | i < j < n :: !Partial(events[j], key)
  }

  /** The last full announcement of a user or channel since the last eviction. */
  ghost predicate Named(events: seq<Event>, kept: seq<bool>, i: nat, n: nat, key: PeerKey)
    requires n <= |events| < |kept|
  {
    && i < n && Kept(kept, i, n) && IsNaming(events[i], key)
    && forall j | i < j < n :: !IsNaming(events[j], key)
  }

  /** The last partial description with a hash that came while nothing real was known, unless a full one has
      come since. */
  ghost predicate Hinted(events: seq<Event>, kept: seq<bool>, i: nat, n: nat, key: PeerKey)
    requires n <= |events| < |kept|
  {
    && i < n && Kept(kept, i, n) && IsHint(events, kept, i, key)
    && forall j | i < j < n :: !Full(events[j], key) && !IsHint(events, kept, j, key)
  }

  ghost predicate IsHint(events: seq<Event>, kept: seq<bool>, j: nat, key: PeerKey)
    requires j < |events| < |kept|
  {
    Partial(events[j], key) && HashIn(events[j]) != 0 && Unknown(events, kept, j, key)
  }

  predicate IsNaming(e: Event, key: PeerKey) {
    e.Announce? && Full(e, key)
  }

  // ---------- the same, found step by step ----------

  /** The index of the event that is Given, or -1. */
  ghost function Giver(events: seq<Event>, kept: seq<bool>, n: nat, key: PeerKey): (g: int)
    requires n <= |events| < |kept|
    ensures -1 <= g < n
  {
    if n == 0 || !kept[n] then -1
    else
      var before, e := Giver(events, kept, n - 1, key), events[n - 1];
      if Full(e, key) || (Fallback(e, key) && before < 0) then n - 1 else before
  }

  ghost function Describer(events: seq<Event>, kept: seq<bool>, n: nat, key: PeerKey): (d: int)
    requires n <= |events| < |kept|
    ensures -1 <= d < n
  {
    if n == 0 || !kept[n] then -1
    else
      var known, e := Giver(events, kept, n - 1, key) >= 0, events[n - 1];
      if Full(e, key) || (!known && (Fallback(e, key) || Partial(e, key))) then n - 1
      else Describer(events, kept, n - 1, key)
  }

  ghost function Namer(events: seq<Event>, kept: seq<bool>, n: nat, key: PeerKey): (d: int)
    requires n <= |events| < |kept|
    ensures -1 <= d < n
  {
    if n == 0 || !kept[n] then -1
    else if IsNaming(events[n - 1], key) then n - 1 else Namer(events, kept, n - 1, key)
  }

  ghost function Hinter(events: seq<Event>, kept: seq<bool>, n: nat, key: PeerKey): (h: int)
    requires n <= |events| < |kept|
    ensures -1 <= h < n
  {
    if n == 0 || !kept[n] || Full(events[n - 1], key) then -1
    else if IsHint(events, kept, n - 1, key) then n - 1 else Hinter(events, kept, n - 1, key)
  }

  lemma KeptLonger(kept: seq<bool>, i: nat, n: nat)
    requires 0 < n < |kept|
    ensures Kept(kept, i, n) ==> Kept(kept, i, n - 1) && (i < n ==> kept[n])
    ensures Kept(kept, i, n - 1) && kept[n] ==> Kept(kept, i, n)
  {
  }

  lemma {:induction false} GiverIfKnown(events: seq<Event>, kept: seq<bool>, n: nat, key: PeerKey)
    requires n <= |events| < |kept|
    ensures Giver(events, kept, n, key) < 0 <==> Unknown(events, kept, n, key)
    ensures Giver(events, kept, n, key) >= 0 ==>
      Real(events[Giver(events, kept, n, key)], key)
      && Kept(kept, Giver(events, kept, n, key), n)
  {
    if n > 0 {
      GiverIfKnown(events, kept, n - 1, key);
      forall j | 0 <= j < n { KeptLonger(kept, j, n); }
      if Giver(events, kept, n, key) == n - 1 { assert Kept(kept, n - 1, n); }
    }
  }

  lemma {:induction false} GiverIsGiven(events: seq<Event>, kept: seq<bool>, n: nat, key: PeerKey)
    requires n <= |events| < |kept|
    ensures var g := Giver(events, kept, n, key); g >= 0 ==> Given(events, kept, g, n, key)
  {
    if n > 0 && kept[n] {
      var before := Giver(events, kept, n - 1, key);
      GiverIfKnown(events, kept, n - 1, key);
      GiverIsGiven(events, kept, n - 1, key);
      if Giver(events, kept, n, key) == n - 1 {
        assert Kept(kept, n - 1, n);
      } else if before >= 0 {
        StillGiven(events, kept, before, n, key);
      }
    }
  }

  lemma StillGiven(events: seq<Event>, kept: seq<bool>, i: nat, n: nat, key: PeerKey)
    requires 0 < n <= |events| < |kept| && Given(events, kept, i, n - 1, key)
    requires kept[n] && !Full(events[n - 1], key)
    ensures Given(events, kept, i, n, key)
  {
    KeptLonger(kept, i, n);
  }

  lemma {:induction false} GivenIsGiver(events: seq<Event>, kept: seq<bool>, i: nat, n: nat, key: PeerKey)
    requires n <= |events| < |kept| && Given(events, kept, i, n, key)
    ensures i == Giver(events, kept, n, key)
  {
    GiverIfKnown(events, kept, n - 1, key);
    assert kept[n];
    if i < n - 1 {
      KeptLonger(kept, i, n);
      GivenIsGiver(events, kept, i, n - 1, key);
    }
  }

  lemma {:induction false} DescriberMeans(events: seq<Event>, kept: seq<bool>, n: nat, key: PeerKey)
    requires n <= |events| < |kept|
    ensures var g, d := Giver(events, kept, n, key), Describer(events, kept, n, key);
      if g >= 0 then d == g else d >= 0 ==> Glimpsed(events, kept, d, n, key)
    ensures Describer(events, kept, n, key) < 0 ==>
      forall j | 0 <= j < n && Partial(events[j], key) :: !Kept(kept, j, n)
  {
    if n > 0 {
      DescriberMeans(events, kept, n - 1, key);
      GiverIfKnown(events, kept, n, key);
      GiverIfKnown(events, kept, n - 1, key);
      forall j | 0 <= j < n { KeptLonger(kept, j, n); }
      if kept[n] {
        assert Kept(kept, n - 1, n);
      } else {
        forall j | 0 <= j < n ensures !Kept(kept, j, n) {}
      }
    }
  }

  lemma GlimpsedIsDescriber(events: seq<Event>, kept: seq<bool>, i: nat, n: nat, key: PeerKey)
    requires n <= |events| < |kept| && Glimpsed(events, kept, i, n, key)
    ensures Giver(events, kept, n, key) < 0 && Describer(events, kept, n, key) == i
  {
    GiverIfKnown(events, kept, n, key);
    DescriberMeans(events, kept, n, key);
  }

  lemma {:induction false} NamerMeans(events: seq<Event>, kept: seq<bool>, n: nat, key: PeerKey)
    requires n <= |events| < |kept|
    ensures var w := Namer(events, kept, n, key); w >= 0 ==> Named(events, kept, w, n, key)
  {
    if n > 0 && kept[n] && !IsNaming(events[n - 1], key) {
      var before := Namer(events, kept, n - 1, key);
      NamerMeans(events, kept, n - 1, key);
      if before >= 0 { StillNamed(events, kept, before, n, key); }
    }
  }

  lemma StillNamed(events: seq<Event>, kept: seq<bool>, i: nat, n: nat, key: PeerKey)
    requires 0 < n <= |events| < |kept| && Named(events, kept, i, n - 1, key)
    requires kept[n] && !IsNaming(events[n - 1], key)
    ensures Named(events, kept, i, n, key)
  {
    KeptLonger(kept, i, n);
  }

  lemma {:induction false} NamedIsNamer(events: seq<Event>, kept: seq<bool>, i: nat, n: nat, key: PeerKey)
    requires n <= |events| < |kept| && Named(events, kept, i, n, key)
    ensures i == Namer(events, kept, n, key)
  {
    assert kept[n];
    if i < n - 1 {
      KeptLonger(kept, i, n);
      NamedIsNamer(events, kept, i, n - 1, key);
    }
  }

  lemma {:induction false} HinterMeans(events: seq<Event>, kept: seq<bool>, n: nat, key: PeerKey)
    requires n <= |events| < |kept|
    ensures var h := Hinter(events, kept, n, key); h >= 0 ==> Hinted(events, kept, h, n, key)
  {
    if n > 0 && kept[n] && !Full(events[n - 1], key) && !IsHint(events, kept, n - 1, key) {
      var before := Hinter(events, kept, n - 1, key);
      HinterMeans(events, kept, n - 1, key);
      if before >= 0 { StillHinted(events, kept, before, n, key); }
    }
  }

  lemma StillHinted(events: seq<Event>, kept: seq<bool>, i: nat, n: nat, key: PeerKey)
    requires 0 < n <= |events| < |kept| && Hinted(events, kept, i, n - 1, key)
    requires kept[n] && !Full(events[n - 1], key) && !IsHint(events, kept, n - 1, key)
    ensures Hinted(events, kept, i, n, key)
  {
    KeptLonger(kept, i, n);
  }

  lemma {:induction false} HintedIsHinter(events: seq<Event>, kept: seq<bool>, i: nat, n: nat, key: PeerKey)
    requires n <= |events| < |kept| && Hinted(events, kept, i, n, key)
    ensures i == Hinter(events, kept, n, key)
  {
    assert kept[n];
    if i < n - 1 {
      KeptLonger(kept, i, n);
      HintedIsHinter(events, kept, i, n - 1, key);
    }
  }

  // ---------- one step ----------

  /** What an event stores before the limit is enforced. */
  ghost function Stored(s: State, e: Event, maxSize: int): Contents {
    match e
    case Announce(key, peer, names) =>
      if Addressable(key) then Recorded(Moved(s.contents, key, maxSize), key, peer, names) else s.contents
    case Chat(chat, forbidden) =>
      var key := PeerKey(Group, chat.id);
      WithGroup(Moved(s.contents, key, maxSize), key, GroupOf(chat, forbidden), forbidden)
    case Forbid(channel) =>
      var key := PeerKey(Channel, channel.id);
      WithForbidden(Moved(s.contents, key, maxSize), key, Unnamed(channel, false))
    case Community(community) =>
      var key := PeerKey(Channel, community.id);
      WithCommunity(Moved(s.contents, key, maxSize), key, Unnamed(community, community.min))
    case Get(key) => Apply(s, e, maxSize).contents
    case Find(name) => Apply(s, e, maxSize).contents
  }

  ghost predicate IsRetained(s: State, key: PeerKey, maxSize: int) {
    maxSize < 0 || key in Newest(Recent(s.touches), maxSize)
  }

  ghost predicate IsSoundStep(s: State, e: Event, maxSize: int) {
    && Sound(Stored(s, e, maxSize), Apply(s, e, maxSize).touches, maxSize)
    && Apply(s, e, maxSize).contents == Enforced(Stored(s, e, maxSize), maxSize)
  }

  lemma StoredIsSound(s: State, e: Event, maxSize: int)
    requires Inv(s.contents, s.touches, maxSize)
    ensures IsSoundStep(s, e, maxSize)
  {
    match e
    case Announce(key, peer, names) => AnnouncedIsSound(s, key, peer, names, maxSize);
    case Chat(chat, forbidden) => StoringIsSound(s, PeerKey(Group, chat.id), Stored(s, e, maxSize), maxSize);
    case Forbid(channel) => StoringIsSound(s, PeerKey(Channel, channel.id), Stored(s, e, maxSize), maxSize);
    case Community(community) => StoringIsSound(s, PeerKey(Channel, community.id), Stored(s, e, maxSize), maxSize);
    case Get(key) => LookedUpIsSound(s, e, maxSize);
    case Find(name) => LookedUpIsSound(s, e, maxSize);
  }

  lemma AnnouncedIsSound(s: State, key: PeerKey, peer: Peer, names: seq<string>, maxSize: int)
    requires Inv(s.contents, s.touches, maxSize)
    ensures IsSoundStep(s, Announce(key, peer, names), maxSize)
  {
    if Addressable(key) {
      MoveKeepsSound(s.contents, s.touches, key, maxSize);
      RecordKeepsSound(Moved(s.contents, key, maxSize), s.touches + [key], key, peer, names, maxSize);
    } else {
      EnforcedAlready(s.contents, s.touches, maxSize);
    }
  }

  lemma LookedUpIsSound(s: State, e: Event, maxSize: int)
    requires Inv(s.contents, s.touches, maxSize) && (e.Get? || e.Find?)
    ensures IsSoundStep(s, e, maxSize)
  {
    ApplyKeepsInv(s, e, maxSize);
    EnforcedAlready(Apply(s, e, maxSize).contents, Apply(s, e, maxSize).touches, maxSize);
  }

  lemma EnforcedAlready(c: Contents, touches: seq<PeerKey>, maxSize: int)
    requires Inv(c, touches, maxSize)
    ensures Enforced(c, maxSize) == c
  {
  }

  lemma StoringIsSound(s: State, key: PeerKey, t: Contents, maxSize: int)
    requires Inv(s.contents, s.touches, maxSize)
    requires var m := Moved(s.contents, key, maxSize);
      && t.lru == m.lru && t.names == m.names && m.hashes.Keys <= t.hashes.Keys
      && forall k | Stores(t, k) :: k == key || Stores(m, k)
    ensures Sound(t, s.touches + [key], maxSize)
  {
    MoveKeepsSound(s.contents, s.touches, key, maxSize);
    StoreKeepsSound(Moved(s.contents, key, maxSize), s.touches + [key], key, t, maxSize);
  }

  /** A peer that stays is as the event left it, and nothing is left of one that goes. */
  lemma StepOf(s: State, e: Event, key: PeerKey, maxSize: int)
    requires Inv(s.contents, s.touches, maxSize)
    ensures var t := Apply(s, e, maxSize);
      if IsRetained(t, key, maxSize) then SamePeer(Stored(s, e, maxSize), t.contents, key)
      else !Stores(t.contents, key) && ListOf(t.contents.names, key) == []
  {
    var t := Apply(s, e, maxSize);
    StoredIsSound(s, e, maxSize);
    ApplyKeepsInv(s, e, maxSize);
    if IsRetained(t, key, maxSize) {
      EnforceSparesTheNewest(Stored(s, e, maxSize), t.touches, maxSize, key);
    } else {
      NothingLeft(t, key, maxSize);
    }
  }

  lemma NothingLeft(t: State, key: PeerKey, maxSize: int)
    requires Inv(t.contents, t.touches, maxSize) && !IsRetained(t, key, maxSize)
    ensures !Stores(t.contents, key) && ListOf(t.contents.names, key) == []
  {
    assert key in t.contents.names.lists ==> Stores(t.contents, key);
  }

  // ---------- what is stored ----------

  /** The events that what is stored of a peer comes from: its hash, its description, its names, and the hash that
      came with a partial description; -1 stands for none. */
  datatype Sources = Sources(hash: int, description: int, names: int, hint: int)

  predicate AreBefore(from: Sources, n: nat) {
    from.hash < n && from.description < n && from.names < n && from.hint < n
  }

  ghost function SourcesOf(events: seq<Event>, kept: seq<bool>, n: nat, key: PeerKey): (r: Sources)
    requires n <= |events| < |kept|
    ensures AreBefore(r, n)
  {
    Sources(Giver(events, kept, n, key), Describer(events, kept, n, key), Namer(events, kept, n, key),
            Hinter(events, kept, n, key))
  }

  ghost predicate Agrees(c: Contents, events: seq<Event>, from: Sources, key: PeerKey)
    requires AreBefore(from, |events|)
  {
    && HashAgrees(c, events, from.hash, key)
    && DescriptionAgrees(c, events, from.hash, from.description, key)
    && ListOf(c.names, key) == (if from.names < 0 then [] else NamesIn(events[from.names]))
    && HintAgrees(c, events, from.hint, key)
  }

  ghost predicate HintAgrees(c: Contents, events: seq<Event>, h: int, key: PeerKey)
    requires h < |events|
  {
    && (key.kind == Group ==> h < 0)
    && if h < 0 then key !in c.minHashes else key in c.minHashes && c.minHashes[key] == HashIn(events[h])
  }

  /** What one more event makes of the sources. */
  function Extended(from: Sources, e: Event, n: nat, key: PeerKey): Sources {
    Sources(
      if Full(e, key) || (Fallback(e, key) && from.hash < 0) then n else from.hash,
      if Full(e, key) || (from.hash < 0 && (Fallback(e, key) || Partial(e, key))) then n else from.description,
      if IsNaming(e, key) then n else from.names,
      if Full(e, key) then -1 else if Partial(e, key) && HashIn(e) != 0 && from.hash < 0 then n else from.hint)
  }

  function NamesIn(e: Event): seq<string> {
    if e.Announce? then e.names else []
  }

  ghost predicate HashAgrees(c: Contents, events: seq<Event>, g: int, key: PeerKey)
    requires g < |events|
  {
    if g < 0 || key.kind == Group then key !in c.hashes else key in c.hashes && c.hashes[key] == HashIn(events[g])
  }

  ghost predicate DescriptionAgrees(c: Contents, events: seq<Event>, g: int, d: int, key: PeerKey)
    requires d < |events|
  {
    && (g >= 0 ==> d == g)
    && (if d < 0 then key !in c.peers else key in c.peers && c.peers[key] == DescriptionIn(events[d]))
    && (if key.kind == Group then g == d else d >= 0 ==> (DescriptionIn(events[d]).min <==> g < 0))
  }

  lemma StoredHash(s: State, e: Event, key: PeerKey, maxSize: int, events: seq<Event>, g: int, n: nat)
    requires Inv(s.contents, s.touches, maxSize) && g < n < |events| && e == events[n]
    requires HashAgrees(s.contents, events, g, key)
    ensures var g' := if Full(e, key) || (Fallback(e, key) && g < 0) then n else g;
      HashAgrees(Stored(s, e, maxSize), events, g', key)
  {
    match e
    case Announce(k, peer, names) =>
    case Chat(chat, forbidden) =>
    case Forbid(channel) =>
    case Community(community) =>
    case Get(k) =>
    case Find(name) =>
  }

  lemma StoredDescription(s: State, e: Event, key: PeerKey, maxSize: int, events: seq<Event>, g: int, d: int, n: nat)
    requires g < n && d < n < |events| && e == events[n]
    requires HashAgrees(s.contents, events, g, key) && DescriptionAgrees(s.contents, events, g, d, key)
    ensures var g' := if Full(e, key) || (Fallback(e, key) && g < 0) then n else g;
      var d' := if Full(e, key) || (g < 0 && (Fallback(e, key) || Partial(e, key))) then n else d;
      DescriptionAgrees(Stored(s, e, maxSize), events, g', d', key)
  {
    match e
    case Announce(k, peer, names) =>
    case Chat(chat, forbidden) =>
    case Forbid(channel) =>
    case Community(community) =>
    case Get(k) =>
    case Find(name) =>
  }

  lemma StoredHint(s: State, e: Event, key: PeerKey, maxSize: int, events: seq<Event>, from: Sources, n: nat)
    requires AreBefore(from, n) && n < |events| && e == events[n] && Agrees(s.contents, events, from, key)
    ensures HintAgrees(Stored(s, e, maxSize), events, Extended(from, e, n, key).hint, key)
  {
    if Partial(e, key) {
      PartialHint(s, e, key, maxSize, events, from, n);
    } else {
      OtherHint(s, e, key, maxSize);
    }
  }

  lemma PartialHint(s: State, e: Event, key: PeerKey, maxSize: int, events: seq<Event>, from: Sources, n: nat)
    requires AreBefore(from, n) && n < |events| && e == events[n] && Agrees(s.contents, events, from, key)
    requires Partial(e, key)
    ensures HintAgrees(Stored(s, e, maxSize), events, Extended(from, e, n, key).hint, key)
  {
  }

  /** Only a full description takes the hash of a partial one away. */
  lemma OtherHint(s: State, e: Event, key: PeerKey, maxSize: int)
    requires !Partial(e, key)
    ensures var c, t := s.contents, Stored(s, e, maxSize);
      if Full(e, key) && key.kind != Group then key !in t.minHashes else Agree(c.minHashes, t.minHashes, key)
  {
    match e
    case Announce(k, peer, names) =>
    case Chat(chat, forbidden) =>
    case Forbid(channel) =>
    case Community(community) =>
    case Get(k) =>
    case Find(name) =>
  }

  lemma StoredNames(s: State, e: Event, key: PeerKey, maxSize: int)
    ensures ListOf(Stored(s, e, maxSize).names, key)
      == if IsNaming(e, key) then NamesIn(e) else ListOf(s.contents.names, key)
  {
    match e
    case Announce(k, peer, names) => if !peer.min { UpdateListsNames(s.contents.names, k, names); }
    case Chat(chat, forbidden) =>
    case Forbid(channel) =>
    case Community(community) =>
    case Get(k) =>
    case Find(name) =>
  }

  lemma StoredAgrees(s: State, e: Event, key: PeerKey, maxSize: int, events: seq<Event>, from: Sources, n: nat)
    requires Inv(s.contents, s.touches, maxSize) && AreBefore(from, n) && n < |events| && e == events[n]
    requires Agrees(s.contents, events, from, key)
    ensures Agrees(Stored(s, e, maxSize), events, Extended(from, e, n, key), key)
  {
    StoredHash(s, e, key, maxSize, events, from.hash, n);
    StoredDescription(s, e, key, maxSize, events, from.hash, from.description, n);
    StoredNames(s, e, key, maxSize);
    StoredHint(s, e, key, maxSize, events, from, n);
  }

  lemma SameAgrees(c: Contents, t: Contents, events: seq<Event>, from: Sources, key: PeerKey)
    requires AreBefore(from, |events|) && Agrees(c, events, from, key) && SamePeer(c, t, key)
    ensures Agrees(t, events, from, key)
  {
  }

  lemma SourcesNext(events: seq<Event>, kept: seq<bool>, n: nat, key: PeerKey)
    requires n < |events| < |kept|
    ensures SourcesOf(events, kept, n + 1, key)
      == if kept[n + 1] then Extended(SourcesOf(events, kept, n, key), events[n], n, key) else Sources(-1, -1, -1, -1)
  {
    GiverIfKnown(events, kept, n, key);
  }

  lemma AtNext(events: seq<Event>, n: nat, maxSize: int)
    requires n < |events|
    ensures At(events, n + 1, maxSize) == Apply(At(events, n, maxSize), events[n], maxSize)
  {
    assert events[..n + 1][..n] == events[..n];
  }

  lemma EmptyRun(events: seq<Event>, maxSize: int)
    ensures At(events, 0, maxSize) == State(NOTHING, [])
  {
    assert events[..0] == [];
  }

  lemma StartAgrees(events: seq<Event>, kept: seq<bool>, key: PeerKey)
    requires |events| < |kept|
    ensures Agrees(NOTHING, events, SourcesOf(events, kept, 0, key), key)
  {
  }

  /** `c` is what the cache contains after `n` events, and agrees with them. */
  lemma {:induction false} ContentsAgree(events: seq<Event>, n: nat, key: PeerKey, maxSize: int, kept: seq<bool>)
    returns (c: Contents)
    requires n <= |events| && maxSize != 0 && kept == Stays(events, key, maxSize)
    ensures c == At(events, n, maxSize).contents && Agrees(c, events, SourcesOf(events, kept, n, key), key)
  {
    if n == 0 {
      c := NOTHING;
      StartAgrees(events, kept, key);
      EmptyRun(events, maxSize);
    } else {
      var before := ContentsAgree(events, n - 1, key, maxSize, kept);
      c := NextAgrees(events, n - 1, key, maxSize, kept, before);
    }
  }

  lemma NextAgrees(events: seq<Event>, n: nat, key: PeerKey, maxSize: int, kept: seq<bool>, before: Contents)
    returns (c: Contents)
    requires n < |events| && maxSize != 0 && kept == Stays(events, key, maxSize)
    requires before == At(events, n, maxSize).contents && Agrees(before, events, SourcesOf(events, kept, n, key), key)
    ensures c == At(events, n + 1, maxSize).contents && Agrees(c, events, SourcesOf(events, kept, n + 1, key), key)
  {
    var s, e, t := At(events, n, maxSize), events[n], At(events, n + 1, maxSize);
    EveryRunKeepsInv(events[..n], maxSize);
    AtNext(events, n, maxSize);
    StepOf(s, e, key, maxSize);
    SourcesNext(events, kept, n, key);
    c := t.contents;
    if kept[n + 1] {
      StoredAgrees(s, e, key, maxSize, events, SourcesOf(events, kept, n, key), n);
      SameAgrees(Stored(s, e, maxSize), c, events, SourcesOf(events, kept, n + 1, key), key);
    }
  }

  lemma EveryRunAgrees(events: seq<Event>, key: PeerKey, maxSize: int)
    requires maxSize != 0
    ensures Agrees(Run(events, maxSize).contents, events,
                   SourcesOf(events, Stays(events, key, maxSize), |events|, key), key)
  {
    var c := ContentsAgree(events, |events|, key, maxSize, Stays(events, key, maxSize));
    assert events[..|events|] == events;
  }

  // ---------- main results, for every run ----------

  /** The hash that lookups by id answer with (Cache.GetPeer), and whether they answer. */
  lemma HashIsTheOneGiven(events: seq<Event>, key: PeerKey, maxSize: int)
    requires maxSize != 0 && key.kind != Group
    ensures var c, kept, n := Run(events, maxSize).contents, Stays(events, key, maxSize), |events|;
      && (key in c.hashes <==> exists i: nat :: Given(events, kept, i, n, key))
      && forall i: nat | Given(events, kept, i, n, key) :: c.hashes[key] == HashIn(events[i])
  {
    var kept, n := Stays(events, key, maxSize), |events|;
    EveryRunAgrees(events, key, maxSize);
    GiverIsGiven(events, kept, n, key);
    forall i: nat | Given(events, kept, i, n, key) ensures i == Giver(events, kept, n, key) {
      GivenIsGiver(events, kept, i, n, key);
    }
  }

  /** A min description never replaces a real one; otherwise the latest stands. */
  lemma DescriptionIsTheOneGiven(events: seq<Event>, key: PeerKey, maxSize: int)
    requires maxSize != 0
    ensures var c, kept, n := Run(events, maxSize).contents, Stays(events, key, maxSize), |events|;
      && (key in c.peers <==> exists i: nat :: Given(events, kept, i, n, key) || Glimpsed(events, kept, i, n, key))
      && forall i: nat | Given(events, kept, i, n, key) || Glimpsed(events, kept, i, n, key) ::
        c.peers[key] == DescriptionIn(events[i])
  {
    var kept, n := Stays(events, key, maxSize), |events|;
    EveryRunAgrees(events, key, maxSize);
    GiverIsGiven(events, kept, n, key);
    DescriberMeans(events, kept, n, key);
    forall i: nat | Given(events, kept, i, n, key) || Glimpsed(events, kept, i, n, key)
      ensures i == Describer(events, kept, n, key)
    {
      if Given(events, kept, i, n, key) {
        GivenIsGiver(events, kept, i, n, key);
      } else {
        GlimpsedIsDescriber(events, kept, i, n, key);
      }
    }
  }

  /** A hash that came with a partial description is kept apart from the real ones. */
  lemma HintIsTheOneGiven(events: seq<Event>, key: PeerKey, maxSize: int)
    requires maxSize != 0
    ensures var c, kept, n := Run(events, maxSize).contents, Stays(events, key, maxSize), |events|;
      && (key in c.minHashes <==> exists i: nat :: Hinted(events, kept, i, n, key))
      && forall i: nat | Hinted(events, kept, i, n, key) :: c.minHashes[key] == HashIn(events[i])
  {
    var kept, n := Stays(events, key, maxSize), |events|;
    EveryRunAgrees(events, key, maxSize);
    HinterMeans(events, kept, n, key);
    forall i: nat | Hinted(events, kept, i, n, key) ensures i == Hinter(events, kept, n, key) {
      HintedIsHinter(events, kept, i, n, key);
    }
  }

  /** The names that a peer lists are those of its last full announcement. */
  lemma NamesAreThoseGiven(events: seq<Event>, key: PeerKey, maxSize: int)
    requires maxSize != 0
    ensures var list := ListOf(Run(events, maxSize).contents.names, key);
      var kept, n := Stays(events, key, maxSize), |events|;
      && (forall i: nat | Named(events, kept, i, n, key) :: list == NamesIn(events[i]))
      && (list != [] ==> exists i: nat :: Named(events, kept, i, n, key))
  {
    var kept, n := Stays(events, key, maxSize), |events|;
    EveryRunAgrees(events, key, maxSize);
    NamerMeans(events, kept, n, key);
    forall i: nat | Named(events, kept, i, n, key) ensures i == Namer(events, kept, n, key) {
      NamedIsNamer(events, kept, i, n, key);
    }
  }

  /** So a lookup by name answers with a peer whose last full announcement had that name, and with the hash that
      this peer was last given. */
  lemma AnswersComeFromAnnouncements(events: seq<Event>, name: string, maxSize: int)
    requires maxSize != 0 && Lookup(Run(events, maxSize).contents, name).found
    ensures var a := Lookup(Run(events, maxSize).contents, name);
      var key := PeerKey(if a.isChannel then Channel else User, a.peerId);
      && (exists i: nat :: Given(events, Stays(events, key, maxSize), i, |events|, key) && a.hash == HashIn(events[i]))
      && (exists i: nat :: Named(events, Stays(events, key, maxSize), i, |events|, key) && name in NamesIn(events[i]))
  {
    var s := Run(events, maxSize);
    EveryRunKeepsInv(events, maxSize);
    LookupResolves(s.contents, s.touches, maxSize, name);
    var key := PeerOf(s.contents.names.owner[name]);
    HashIsTheOneGiven(events, key, maxSize);
    NamesAreThoseGiven(events, key, maxSize);
  }

  /** The peer that is announced, or that a lookup answers with. */
  ghost predicate Touches(events: seq<Event>, e: Event, key: PeerKey, maxSize: int) {
    || Real(e, key) || Partial(e, key)
    || (e == Get(key) && key.kind != Group
        && exists i: nat :: Given(events, Stays(events, key, maxSize), i, |events|, key))
    || (e.Find? && var a := Lookup(Run(events, maxSize).contents, e.name);
        a.found && key == PeerKey(if a.isChannel then Channel else User, a.peerId))
  }

  /** So recency, which decides who is kept, is that of announcements and answers. */
  lemma TouchesFollow(events: seq<Event>, e: Event, key: PeerKey, maxSize: int)
    requires maxSize != 0
    ensures Touches(events, e, key, maxSize) ==>
      Run(events + [e], maxSize).touches == Run(events, maxSize).touches + [key]
    ensures (forall k :: !Touches(events, e, k, maxSize)) ==> Run(events + [e], maxSize) == Run(events, maxSize)
  {
    assert (events + [e])[..|events|] == events;
    if e.Get? {
      GetTouches(events, e.key, maxSize);
    } else if e.Find? {
      FindTouches(events, e.name, maxSize);
    } else {
      AnnouncingTouches(Run(events, maxSize), e, key, maxSize);
      if k :| Real(e, k) || Partial(e, k) { assert Touches(events, e, k, maxSize); }
    }
  }

  lemma AnnouncingTouches(s: State, e: Event, key: PeerKey, maxSize: int)
    requires !e.Get? && !e.Find?
    ensures Real(e, key) || Partial(e, key) ==> Apply(s, e, maxSize).touches == s.touches + [key]
    ensures (forall k :: !Real(e, k) && !Partial(e, k)) ==> Apply(s, e, maxSize) == s
  {
    match e
    case Announce(k, peer, names) => assert Addressable(k) ==> Real(e, k) || Partial(e, k);
    case Chat(chat, forbidden) => assert Real(e, PeerKey(Group, chat.id));
    case Forbid(channel) => assert Real(e, PeerKey(Channel, channel.id));
    case Community(community) =>
      assert Real(e, PeerKey(Channel, community.id)) || Partial(e, PeerKey(Channel, community.id));
  }

  lemma GetTouches(events: seq<Event>, key: PeerKey, maxSize: int)
    requires maxSize != 0
    ensures var s := Run(events, maxSize);
      if Touches(events, Get(key), key, maxSize) then Apply(s, Get(key), maxSize).touches == s.touches + [key]
      else Apply(s, Get(key), maxSize) == s
  {
    if key.kind == Group {
      GroupsHaveNoHash(events, key, maxSize);
    } else {
      HashIsTheOneGiven(events, key, maxSize);
    }
  }

  lemma GroupsHaveNoHash(events: seq<Event>, key: PeerKey, maxSize: int)
    requires maxSize != 0 && key.kind == Group
    ensures key !in Run(events, maxSize).contents.hashes
  {
    EveryRunAgrees(events, key, maxSize);
  }

  lemma FindTouches(events: seq<Event>, name: string, maxSize: int)
    requires maxSize != 0
    ensures var s := Run(events, maxSize);
      var a := Lookup(s.contents, name);
      var key := PeerKey(if a.isChannel then Channel else User, a.peerId);
      && Apply(s, Find(name), maxSize).touches == s.touches + (if a.found then [key] else [])
      && (a.found ==> Touches(events, Find(name), key, maxSize))
      && (!a.found ==> Apply(s, Find(name), maxSize) == s)
  {
    var s := Run(events, maxSize);
    EveryRunKeepsInv(events, maxSize);
    LookupResolves(s.contents, s.touches, maxSize, name);
  }
}
