/** The peer cache (telegram/cache.go): descriptions, access hashes, a two-way username index, and the
    recency list that decides which peer leaves when the cache is full.

    The source keeps one map per kind of peer; here a map is keyed by kind and id together, so `peers`
    stands for users, channels and chats, `hashes` for InputUsers and InputChannels, and `minHashes` for
    minUsers and minChannels. */
module PeerCache {
  import opened RecencyOrder
  import opened Usernames

  datatype Alias = Alias(username: string, active: bool)

  /** A user or a channel as the server describes it; `min` marks a description without full data. */
  datatype Peer = Peer(id: int, min: bool, accessHash: int, username: string, usernames: seq<Alias>)

  /** The names a peer goes by, normalized: the primary one, then active aliases not yet seen. */
  function NamesOf(peer: Peer, normalize: string -> string): seq<string> {
    AddAliases(if peer.username != "" then [normalize(peer.username)] else [], peer.usernames, normalize)
  }

  function AddAliases(names: seq<string>, aliases: seq<Alias>, normalize: string -> string): seq<string>
    decreases aliases
  {
    if aliases == [] then names
    else
      var name := normalize(aliases[0].username);
      var skip := !aliases[0].active || aliases[0].username == "" || name in names;
      AddAliases(if skip then names else names + [name], aliases[1..], normalize)
  }

  /** `name` is the normalized primary name, or that of an active alias that has one. */
  predicate HasName(peer: Peer, name: string, normalize: string -> string) {
    || (peer.username != "" && name == normalize(peer.username))
    || exists i :: 0 <= i < |peer.usernames| && IsAlias(peer.usernames[i], name, normalize)
  }

  predicate IsAlias(alias: Alias, name: string, normalize: string -> string) {
    alias.active && alias.username != "" && name == normalize(alias.username)
  }

  /** Exactly these names are collected, each once and the primary one first. */
  lemma NamesAreTheActiveOnes(peer: Peer, normalize: string -> string)
    ensures var names := NamesOf(peer, normalize);
      && (forall name :: name in names <==> HasName(peer, name, normalize))
      && NoDuplicates(names)
      && (peer.username != "" ==> names != [] && names[0] == normalize(peer.username))
  {
    AliasesAreAdded(if peer.username != "" then [normalize(peer.username)] else [], peer.usernames, normalize);
  }

  lemma {:induction false} AliasesAreAdded(names: seq<string>, aliases: seq<Alias>, normalize: string -> string)
    requires NoDuplicates(names)
    ensures var all := AddAliases(names, aliases, normalize);
      && names <= all && NoDuplicates(all)
      && forall name :: name in all <==>
        name in names || exists i :: 0 <= i < |aliases| && IsAlias(aliases[i], name, normalize)
    decreases aliases
  {
    if aliases != [] {
      var name, rest := normalize(aliases[0].username), aliases[1..];
      var skip := !aliases[0].active || aliases[0].username == "" || name in names;
      if !skip { AppendFresh(names, name); }
      AliasesAreAdded(if skip then names else names + [name], rest, normalize);
      forall n ensures (exists i :: 0 <= i < |aliases| && IsAlias(aliases[i], n, normalize))
        <==> IsAlias(aliases[0], n, normalize) || exists i :: 0 <= i < |rest| && IsAlias(rest[i], n, normalize)
      {
        FirstOrRest(aliases, n, normalize);
      }
    }
  }

  lemma FirstOrRest(aliases: seq<Alias>, name: string, normalize: string -> string)
    requires aliases != []
    ensures (exists i :: 0 <= i < |aliases| && IsAlias(aliases[i], name, normalize))
      <==> IsAlias(aliases[0], name, normalize)
           || exists i :: 0 <= i < |aliases[1..]| && IsAlias(aliases[1..][i], name, normalize)
  {
    var rest := aliases[1..];
    if i :| 0 <= i < |aliases| && IsAlias(aliases[i], name, normalize) {
      if i > 0 { assert rest[i - 1] == aliases[i]; }
    }
    if i :| 0 <= i < |rest| && IsAlias(rest[i], name, normalize) { assert aliases[i + 1] == rest[i]; }
  }

  /** What is kept of a community or of a channel that is forbidden: no names. */
  function Unnamed(peer: Peer, min: bool): Peer {
    Peer(peer.id, min, peer.accessHash, "", [])
  }

  /** A forbidden group is known by its id only. */
  function GroupOf(chat: Peer, forbidden: bool): Peer {
    if forbidden then Peer(chat.id, false, 0, "", []) else chat
  }

  datatype Contents = Contents(
    peers: map<PeerKey, Peer>,
    hashes: map<PeerKey, int>,
    minHashes: map<PeerKey, int>,
    names: Names,
    lru: seq<PeerKey>)

  const NOTHING := Contents(map[], map[], map[], NO_NAMES, [])

  predicate Stores(c: Contents, key: PeerKey) {
    key in c.peers || key in c.hashes || key in c.minHashes
  }

  // ---------- what the operations do to the contents ----------

  ghost function Moved(c: Contents, key: PeerKey, maxSize: int): Contents {
    if maxSize < 0 then c else c.(lru := Touched(c.lru, key))
  }

  ghost function Evicted(c: Contents): Contents
    requires c.lru != []
  {
    var key := c.lru[0];
    Contents(c.peers - {key}, c.hashes - {key}, c.minHashes - {key}, Removed(c.names, key), c.lru[1..])
  }

  ghost function Enforced(c: Contents, maxSize: int): Contents
    decreases |c.lru|
  {
    if 0 < maxSize < |c.lru| then Enforced(Evicted(c), maxSize) else c
  }

  /** A min description never replaces a full one, and its hash never stands in for a real one. */
  ghost function WithMin(c: Contents, key: PeerKey, peer: Peer): Contents {
    if key in c.peers && !c.peers[key].min then c
    else c.(peers := c.peers[key := peer],
            minHashes := if peer.accessHash != 0 && key !in c.hashes then c.minHashes[key := peer.accessHash]
                         else c.minHashes)
  }

  ghost function WithFull(c: Contents, key: PeerKey, peer: Peer, names: seq<string>): Contents {
    c.(peers := c.peers[key := peer], minHashes := c.minHashes - {key},
       names := Updated(c.names, key, names), hashes := c.hashes[key := peer.accessHash])
  }

  /** A forbidden group is recorded only if it is not known yet. */
  function WithGroup(c: Contents, key: PeerKey, group: Peer, forbidden: bool): Contents {
    if forbidden && key in c.peers then c else c.(peers := c.peers[key := group])
  }

  /** A forbidden channel is recorded only if its access hash is not known yet. */
  function WithForbidden(c: Contents, key: PeerKey, channel: Peer): Contents {
    if key in c.hashes then c else c.(peers := c.peers[key := channel], hashes := c.hashes[key := channel.accessHash])
  }

  /** A community is recorded like a channel, except that its names are not indexed. */
  ghost function WithCommunity(c: Contents, key: PeerKey, peer: Peer): Contents {
    if peer.min then WithMin(c, key, peer)
    else c.(peers := c.peers[key := peer], minHashes := c.minHashes - {key}, hashes := c.hashes[key := peer.accessHash])
  }

  ghost function Recorded(c: Contents, key: PeerKey, peer: Peer, names: seq<string>): Contents {
    if peer.min then WithMin(c, key, peer) else WithFull(c, key, peer, names)
  }

  /** The whole effect of announcing a user or a channel. */
  ghost function Announced(c: Contents, key: PeerKey, peer: Peer, names: seq<string>, maxSize: int): Contents {
    Enforced(Recorded(Moved(c, key, maxSize), key, peer, names), maxSize)
  }

  /** What LookupUsername returns, with every fallback the code has. */
  datatype Answer = Answer(peerId: int, hash: int, isChannel: bool, found: bool)

  function Lookup(c: Contents, name: string): Answer {
    if name !in c.names.owner then Answer(0, 0, false, false)
    else
      var value := c.names.owner[name];
      var user, channel := PeerKey(User, value), PeerKey(Channel, if value < 0 then -value else value);
      if value < 0 then
        if channel in c.hashes then Answer(-value, c.hashes[channel], true, true) else Answer(-value, 0, true, false)
      else if user in c.hashes then Answer(value, c.hashes[user], false, true)
      else if channel in c.hashes then Answer(value, c.hashes[channel], true, true)
      else Answer(value, 0, false, true)
  }

  /** The peer, if any, that the lookup touches. */
  function Consulted(c: Contents, name: string): seq<PeerKey> {
    if name !in c.names.owner then []
    else
      var value := c.names.owner[name];
      var user, channel := PeerKey(User, value), PeerKey(Channel, if value < 0 then -value else value);
      if value >= 0 && user in c.hashes then [user] else if channel in c.hashes then [channel] else []
  }

  // ---------- the invariant ----------

  /** The list follows the true recency order as far as the limit; whatever is stored is on the list;
      names lead to peers that list them and have an access hash.  The list may still be too long. */
  ghost predicate Sound(c: Contents, touches: seq<PeerKey>, maxSize: int) {
    && maxSize != 0
    && NoDuplicates(c.lru)
    && (maxSize > 0 ==> Newest(c.lru, maxSize) == Newest(Recent(touches), maxSize))
    && (maxSize > 0 ==> forall key | Stores(c, key) :: key in c.lru)
    && (maxSize < 0 ==> c.lru == [])
    && NamesInv(c.names)
    && (forall key | key in c.names.lists :: key in c.hashes)
  }

  /** Main invariant: the list is exactly the maxSize most recently touched peers, in touch order. */
  ghost predicate Inv(c: Contents, touches: seq<PeerKey>, maxSize: int) {
    && Sound(c, touches, maxSize)
    && (maxSize > 0 ==> c.lru == Newest(Recent(touches), maxSize))
  }

  lemma EvictKeepsSound(c: Contents, touches: seq<PeerKey>, maxSize: int)
    requires Sound(c, touches, maxSize) && 0 < maxSize < |c.lru|
    ensures Sound(Evicted(c), touches, maxSize)
  {
    RemoveKeepsInv(c.names, c.lru[0]);
    var t := Evicted(c);
    forall key | Stores(t, key) ensures key in t.lru {
      assert Stores(c, key) && key != c.lru[0];
    }
  }

  /** Enforcing the limit restores the invariant. */
  lemma {:induction false} EnforceRestoresInv(c: Contents, touches: seq<PeerKey>, maxSize: int)
    requires Sound(c, touches, maxSize)
    ensures Inv(Enforced(c, maxSize), touches, maxSize)
    decreases |c.lru|
  {
    if 0 < maxSize < |c.lru| {
      EvictKeepsSound(c, touches, maxSize);
      EnforceRestoresInv(Evicted(c), touches, maxSize);
    }
  }

  ghost predicate Agree<K, V>(m: map<K, V>, n: map<K, V>, k: K) {
    (k in m <==> k in n) && (k in m ==> m[k] == n[k])
  }

  /** What the two contents say of one peer is the same, down to the names that lead to it. */
  ghost predicate SamePeer(c: Contents, t: Contents, key: PeerKey) {
    && Agree(c.peers, t.peers, key) && Agree(c.hashes, t.hashes, key) && Agree(c.minHashes, t.minHashes, key)
    && ListOf(c.names, key) == ListOf(t.names, key)
    && (forall name | name in c.names.owner && PeerOf(c.names.owner[name]) == key ::
          name in t.names.owner && t.names.owner[name] == c.names.owner[name])
  }

  /** Eviction changes nothing about the peers that stay, and they are the newest. */
  lemma {:induction false} EnforceSparesTheNewest(c: Contents, touches: seq<PeerKey>, maxSize: int, key: PeerKey)
    requires Sound(c, touches, maxSize) && (maxSize > 0 ==> key in Newest(c.lru, maxSize))
    ensures SamePeer(c, Enforced(c, maxSize), key)
    decreases |c.lru|
  {
    if 0 < maxSize < |c.lru| {
      var t := Evicted(c);
      assert Newest(t.lru, maxSize) == Newest(c.lru, maxSize);
      assert key != c.lru[0];
      EvictKeepsSound(c, touches, maxSize);
      EvictSparesOthers(c, touches, maxSize, key);
      EnforceSparesTheNewest(t, touches, maxSize, key);
    }
  }

  lemma EvictSparesOthers(c: Contents, touches: seq<PeerKey>, maxSize: int, key: PeerKey)
    requires Sound(c, touches, maxSize) && 0 < maxSize < |c.lru| && key != c.lru[0]
    ensures SamePeer(c, Evicted(c), key)
  {
    var oldest := c.lru[0];
    forall name | name in c.names.owner && PeerOf(c.names.owner[name]) == key
      ensures name in Evicted(c).names.owner
    {
      if Addressable(oldest) { RemoveSparesOthers(c.names, oldest, name); }
    }
  }

  /** An announcement keeps the invariant, and what it records of the peer is never evicted by it. */
  lemma AnnounceKeepsInv(c: Contents, touches: seq<PeerKey>, key: PeerKey, peer: Peer, names: seq<string>, maxSize: int)
    requires Inv(c, touches, maxSize) && Addressable(key)
    ensures var t := Announced(c, key, peer, names, maxSize);
      && Inv(t, touches + [key], maxSize)
      && SamePeer(Recorded(Moved(c, key, maxSize), key, peer, names), t, key)
  {
    var m := Moved(c, key, maxSize);
    MoveKeepsSound(c, touches, key, maxSize);
    RecordKeepsSound(m, touches + [key], key, peer, names, maxSize);
    var stored := Recorded(m, key, peer, names);
    EnforceRestoresInv(stored, touches + [key], maxSize);
    EnforceSparesTheNewest(stored, touches + [key], maxSize, key);
  }

  lemma RecordKeepsSound(m: Contents, touches: seq<PeerKey>, key: PeerKey, peer: Peer, names: seq<string>, maxSize: int)
    requires Sound(m, touches, maxSize) && (maxSize > 0 ==> key in m.lru) && Addressable(key)
    ensures Sound(Recorded(m, key, peer, names), touches, maxSize) && Recorded(m, key, peer, names).lru == m.lru
    ensures !peer.min ==> ListOf(Recorded(m, key, peer, names).names, key) == names
  {
    if !peer.min {
      UpdateKeepsInv(m.names, key, names);
      UpdateListsNames(m.names, key, names);
    }
    StoreKeepsSound(m, touches, key, Recorded(m, key, peer, names), maxSize);
  }

  lemma UpdateListsNames(n: Names, key: PeerKey, names: seq<string>)
    ensures ListOf(Updated(n, key, names), key) == names
    ensures Updated(n, key, names).lists.Keys <= n.lists.Keys + {key}
  {
  }

  /** Storing under a listed key adds nothing that is off the list. */
  lemma StoreKeepsSound(m: Contents, touches: seq<PeerKey>, key: PeerKey, t: Contents, maxSize: int)
    requires Sound(m, touches, maxSize) && (maxSize > 0 ==> key in m.lru)
    requires t.lru == m.lru && forall k | Stores(t, k) :: k == key || Stores(m, k)
    requires NamesInv(t.names) && t.names.lists.Keys <= m.names.lists.Keys + {key}
    requires m.hashes.Keys <= t.hashes.Keys && (key in t.names.lists ==> key in t.hashes)
    ensures Sound(t, touches, maxSize)
  {
    forall k | k in t.names.lists ensures k in t.hashes {
      assert k == key || k in m.names.lists;
    }
  }

  lemma MoveKeepsSound(c: Contents, touches: seq<PeerKey>, key: PeerKey, maxSize: int)
    requires Inv(c, touches, maxSize)
    ensures Sound(Moved(c, key, maxSize), touches + [key], maxSize)
    ensures maxSize > 0 ==> key in Moved(c, key, maxSize).lru && key in Newest(Moved(c, key, maxSize).lru, maxSize)
  {
    if maxSize > 0 {
      TouchKeepsAgreement(c.lru, touches, key, maxSize);
      var lru := Touched(c.lru, key);
      var newest := Newest(lru, maxSize);
      assert newest[|newest| - 1] == key;
      forall k | Stores(c, k) ensures k in lru {}
    }
  }

  /** Looking a stored peer up only moves it to the back. */
  lemma LookupKeepsInv(c: Contents, touches: seq<PeerKey>, key: PeerKey, maxSize: int)
    requires Inv(c, touches, maxSize) && Stores(c, key)
    ensures Inv(Moved(c, key, maxSize), touches + [key], maxSize)
  {
    if maxSize > 0 {
      TouchKeepsAgreement(c.lru, touches, key, maxSize);
      WithoutSize(c.lru, key);
    }
  }

  /** In a sound cache a lookup hit always resolves: to a peer that lists the name, with its stored hash.
      The code's two fallbacks for a missing hash are never needed. */
  lemma LookupResolves(c: Contents, touches: seq<PeerKey>, maxSize: int, name: string)
    requires Inv(c, touches, maxSize)
    ensures Lookup(c, name).found <==> name in c.names.owner
    ensures Lookup(c, name).found ==>
      var key := PeerOf(c.names.owner[name]);
      && Lookup(c, name) == Answer(key.id, c.hashes[key], key.kind == Channel, true)
      && name in ListOf(c.names, key) && Consulted(c, name) == [key]
      && (maxSize > 0 ==> key in Newest(Recent(touches), maxSize))
  {
    if name in c.names.owner {
      var key := PeerOf(c.names.owner[name]);
      assert key in c.names.lists;
      assert Stores(c, key);
    }
  }

  /** Recording anything else under one key and enforcing the limit keeps the invariant. */
  lemma RecordKeepsInv(c: Contents, touches: seq<PeerKey>, key: PeerKey, t: Contents, maxSize: int)
    requires Inv(c, touches, maxSize)
    requires var m := Moved(c, key, maxSize);
      && t.lru == m.lru && t.names == c.names && c.hashes.Keys <= t.hashes.Keys
      && forall k | Stores(t, k) :: k == key || Stores(c, k)
    ensures Inv(Enforced(t, maxSize), touches + [key], maxSize)
  {
    MoveKeepsSound(c, touches, key, maxSize);
    StoreKeepsSound(Moved(c, key, maxSize), touches + [key], key, t, maxSize);
    EnforceRestoresInv(t, touches + [key], maxSize);
  }

  /** Touching the same peer again changes nothing. */
  lemma TouchAgain(c: Contents, touches: seq<PeerKey>, key: PeerKey, maxSize: int)
    ensures Moved(Moved(c, key, maxSize), key, maxSize) == Moved(c, key, maxSize)
    ensures Recent(touches + [key] + [key]) == Recent(touches + [key])
  {
    TouchTwice(c.lru, key);
    TouchTwice(Recent(touches), key);
    assert (touches + [key] + [key])[..|touches| + 1] == touches + [key];
    assert (touches + [key])[..|touches|] == touches;
  }

  lemma TouchTwice<T(!new)>(s: seq<T>, x: T)
    ensures Touched(Touched(s, x), x) == Touched(s, x)
  {
    NothingRemoved(Without(s, x), x);
    assert (Without(s, x) + [x])[..|Without(s, x)|] == Without(s, x);
  }

  lemma CommunityThenTouch(c: Contents, key: PeerKey, peer: Peer, maxSize: int)
    ensures peer.min ==> Moved(WithMin(c, key, peer), key, maxSize) == WithCommunity(Moved(c, key, maxSize), key, peer)
    ensures !peer.min ==>
      var t := WithCommunity(Moved(c, key, maxSize), key, peer); Moved(t, key, maxSize) == t
  {
    TouchTwice(c.lru, key);
  }

  /** Nor does enforcing the limit in between. */
  lemma {:induction false} EnforceAgain(t: Contents, key: PeerKey, maxSize: int)
    requires NoDuplicates(t.lru) && Moved(t, key, maxSize) == t
    ensures Moved(Enforced(t, maxSize), key, maxSize) == Enforced(t, maxSize)
    ensures Enforced(Enforced(t, maxSize), maxSize) == Enforced(t, maxSize)
    decreases |t.lru|
  {
    if 0 < maxSize < |t.lru| {
      LastStays(t.lru, key);
      EnforceAgain(Evicted(t), key, maxSize);
    }
  }

  lemma Settled(t: Contents, key: PeerKey, maxSize: int)
    requires NoDuplicates(t.lru) && Moved(t, key, maxSize) == t
    ensures forall v | v == t || v == Enforced(t, maxSize) ::
      Enforced(Moved(v, key, maxSize), maxSize) == Enforced(t, maxSize)
  {
    EnforceAgain(t, key, maxSize);
  }

  lemma LastStays<T(!new)>(s: seq<T>, x: T)
    requires NoDuplicates(s) && Touched(s, x) == s && |s| > 1
    ensures NoDuplicates(s[1..]) && Touched(s[1..], x) == s[1..]
  {
    var n := |s| - 1;
    var rest := s[1..];
    assert s[n] == x && rest[n - 1] == x;
    NothingRemoved(rest[..n - 1], x);
    assert rest == rest[..n - 1] + [x];
  }

  ghost predicate IsNews(c: Contents, key: PeerKey, peer: Peer, names: seq<string>) {
    key !in c.hashes || c.hashes[key] != peer.accessHash || ListOf(c.names, key) != names
  }

  class Cache {
    const normalize: string -> string
    const maxSize: int  // positive, or negative for no limit
    var peers: map<PeerKey, Peer>
    var hashes: map<PeerKey, int>
    var minHashes: map<PeerKey, int>
    var usernameMap: map<string, int>
    var peerUsernames: map<PeerKey, seq<string>>
    var lru: seq<PeerKey>
    var lruIndex: set<PeerKey>
    ghost var touches: seq<PeerKey>  // every touch since the cache was last cleared

    ghost function Index(): Names
      reads this
    {
      Names(usernameMap, peerUsernames)
    }

    ghost function View(): Contents
      reads this
    {
      Contents(peers, hashes, minHashes, Index(), lru)
    }

    /** The list and its index hold the same peers, each once. */
    ghost predicate ListInv()
      reads this
    {
      NoDuplicates(lru) && forall key :: key in lruIndex <==> key in lru
    }

    constructor (maxSize: int, normalize: string -> string)
      ensures ListInv() && touches == [] && View() == NOTHING
      ensures this.maxSize == if maxSize == 0 then 10000 else maxSize
    {
      this.normalize := normalize;
      this.maxSize := if maxSize == 0 then 10000 else maxSize;
      peers, hashes, minHashes, usernameMap, peerUsernames := map[], map[], map[], map[], map[];
      lru, lruIndex, touches := [], {}, [];
    }

    method Clear()
      modifies this
      ensures ListInv() && touches == [] && View() == NOTHING
    {
      peers, hashes, minHashes, usernameMap, peerUsernames := map[], map[], map[], map[], map[];
      lru, lruIndex, touches := [], {}, [];
    }

    method TouchLRU(key: PeerKey)
      requires ListInv()
      modifies this`lru, this`lruIndex, this`touches
      ensures ListInv() && View() == Moved(old(View()), key, maxSize) && touches == old(touches) + [key]
    {
      touches := touches + [key];
      if maxSize < 0 { return; }
      if key in lruIndex {
        MoveToBack(key);
      } else {
        NothingRemoved(lru, key);
        lru := lru + [key];
        lruIndex := lruIndex + {key};
      }
    }

    method MoveToBack(key: PeerKey)
      requires NoDuplicates(lru) && key in lru
      modifies this`lru
      ensures lru == Touched(old(lru), key)
    {
      var i := 0;
      while lru[i] != key
        invariant 0 <= i < |lru| && key in lru[i..]
        decreases |lru| - i
      {
        i := i + 1;
      }
      RemovedAt(lru, i);
      lru := lru[..i] + lru[i + 1..] + [key];
    }

    method RemoveUsernames(key: PeerKey)
      modifies this`usernameMap, this`peerUsernames
      ensures Index() == Removed(old(Index()), key)
    {
      var value := if key.kind == Channel then -key.id else key.id;
      var names := if key in peerUsernames then peerUsernames[key] else [];
      for k := 0 to |names|
        invariant usernameMap == map name | name in old(usernameMap)
            && !(name in names[..k] && old(usernameMap)[name] == value) :: old(usernameMap)[name]
        invariant peerUsernames == old(peerUsernames)
      {
        if names[k] in usernameMap && usernameMap[names[k]] == value {
          usernameMap := usernameMap - {names[k]};
        }
      }
      assert names[..|names|] == names;
      peerUsernames := peerUsernames - {key};
    }

    method CollectNames(peer: Peer) returns (names: seq<string>)
      ensures names == NamesOf(peer, normalize)
    {
      names := [];
      if peer.username != "" { names := [normalize(peer.username)]; }
      assert peer.usernames[0..] == peer.usernames;
      for k := 0 to |peer.usernames|
        invariant AddAliases(names, peer.usernames[k..], normalize) == NamesOf(peer, normalize)
      {
        var alias := peer.usernames[k];
        if alias.active && alias.username != "" {
          var name := normalize(alias.username);
          if name !in names { names := names + [name]; }
        }
      }
    }

    method UpdateUsernames(key: PeerKey, peer: Peer) returns (changed: bool)
      modifies this`usernameMap, this`peerUsernames
      ensures Index() == Updated(old(Index()), key, NamesOf(peer, normalize))
      ensures changed <==> ListOf(old(Index()), key) != NamesOf(peer, normalize)
    {
      var names := CollectNames(peer);
      if (if key in peerUsernames then peerUsernames[key] else []) == names { return false; }
      RemoveUsernames(key);
      ClaimNames(names, if key.kind == Channel then -key.id else key.id);
      if |names| > 0 { peerUsernames := peerUsernames[key := names]; }
      return true;
    }

    method ClaimNames(names: seq<string>, value: int)
      modifies this`usernameMap
      ensures usernameMap == Claimed(old(usernameMap), names, value)
    {
      for k := 0 to |names|
        invariant usernameMap == Claimed(old(usernameMap), names[..k], value)
      {
        ClaimOne(old(usernameMap), names, k, value);
        usernameMap := usernameMap[names[k] := value];
      }
      assert names[..|names|] == names;
    }

    method EnforceSizeLimit()
      requires ListInv()
      modifies this
      ensures ListInv() && View() == Enforced(old(View()), maxSize) && touches == old(touches)
    {
      if maxSize <= 0 { return; }
      while |lru| > maxSize
        invariant ListInv() && touches == old(touches)
        invariant Enforced(View(), maxSize) == Enforced(old(View()), maxSize)
      {
        EvictOldest();
      }
    }

    method EvictOldest()
      requires ListInv() && lru != []
      modifies this
      ensures ListInv() && View() == Evicted(old(View())) && touches == old(touches)
    {
      var key := lru[0];
      lru := lru[1..];
      lruIndex := lruIndex - {key};
      RemoveUsernames(key);
      peers := peers - {key};
      minHashes := minHashes - {key};
      hashes := hashes - {key};
    }

    /** UpdateUser and UpdateChannel. */
    method UpdatePeer(kind: Kind, peer: Peer) returns (changed: bool)
      requires ListInv()
      modifies this
      ensures ListInv()
      ensures View() == Announced(old(View()), PeerKey(kind, peer.id), peer, NamesOf(peer, normalize), maxSize)
      ensures Recent(touches) == Recent(old(touches) + [PeerKey(kind, peer.id)])
      ensures changed <==> !peer.min && IsNews(old(View()), PeerKey(kind, peer.id), peer, NamesOf(peer, normalize))
    {
      var key := PeerKey(kind, peer.id);
      TouchAgain(View(), touches, key, maxSize);
      TouchLRU(key);
      changed := Record(key, peer);
      EnforceSizeLimit();
    }

    method Record(key: PeerKey, peer: Peer) returns (changed: bool)
      requires ListInv() && Moved(View(), key, maxSize) == View()
      requires Recent(touches + [key]) == Recent(touches)
      modifies this
      ensures ListInv() && View() == Recorded(old(View()), key, peer, NamesOf(peer, normalize))
      ensures Recent(touches) == Recent(old(touches))
      ensures changed <==> !peer.min && IsNews(old(View()), key, peer, NamesOf(peer, normalize))
    {
      if peer.min {
        RecordMin(key, peer);
        changed := false;
      } else {
        changed := RecordFull(key, peer);
      }
    }

    method RecordMin(key: PeerKey, peer: Peer)
      modifies this`peers, this`minHashes
      ensures View() == WithMin(old(View()), key, peer)
    {
      if key in peers && !peers[key].min { return; }
      peers := peers[key := peer];
      if peer.accessHash != 0 && key !in hashes { minHashes := minHashes[key := peer.accessHash]; }
    }

    method RecordFull(key: PeerKey, peer: Peer) returns (changed: bool)
      requires ListInv() && Moved(View(), key, maxSize) == View()
      modifies this
      ensures ListInv() && View() == WithFull(old(View()), key, peer, NamesOf(peer, normalize))
      ensures touches == old(touches) + [key]
      ensures changed <==> IsNews(old(View()), key, peer, NamesOf(peer, normalize))
    {
      peers := peers[key := peer];
      minHashes := minHashes - {key};
      var usernamesChanged := UpdateUsernames(key, peer);
      changed := key !in hashes || hashes[key] != peer.accessHash || usernamesChanged;
      hashes := hashes[key := peer.accessHash];
      TouchLRU(key);
    }

    /** UpdateChat, and the forbidden-chat case, which leaves a known chat as it is. */
    method UpdateChat(chat: Peer, forbidden: bool)
      requires ListInv()
      modifies this
      ensures ListInv() && touches == old(touches) + [PeerKey(Group, chat.id)]
      ensures var key := PeerKey(Group, chat.id);
        var stored := WithGroup(Moved(old(View()), key, maxSize), key, GroupOf(chat, forbidden), forbidden);
        View() == Enforced(stored, maxSize)
    {
      var key := PeerKey(Group, chat.id);
      if !forbidden || key !in peers { peers := peers[key := GroupOf(chat, forbidden)]; }
      TouchLRU(key);
      EnforceSizeLimit();
    }

    /** The forbidden-channel and forbidden-community cases. */
    method ForbidChannel(channel: Peer)
      requires ListInv()
      modifies this
      ensures ListInv()
      ensures Recent(touches) == Recent(old(touches) + [PeerKey(Channel, channel.id)])
      ensures var key := PeerKey(Channel, channel.id);
        View() == Enforced(WithForbidden(Moved(old(View()), key, maxSize), key, Unnamed(channel, false)), maxSize)
    {
      var key := PeerKey(Channel, channel.id);
      TouchAgain(View(), touches, key, maxSize);
      RecordForbidden(key, Unnamed(channel, false));
      TouchLRU(key);
      EnforceSizeLimit();
    }

    method RecordForbidden(key: PeerKey, channel: Peer)
      requires ListInv()
      modifies this
      ensures ListInv() && touches == if key in old(hashes) then old(touches) else old(touches) + [key]
      ensures View() == if key in old(hashes) then old(View())
                        else WithForbidden(Moved(old(View()), key, maxSize), key, channel)
    {
      if key !in hashes {
        peers := peers[key := channel];
        hashes := hashes[key := channel.accessHash];
        TouchLRU(key);
      }
    }

    method UpdateCommunity(community: Peer)
      requires ListInv()
      modifies this
      ensures ListInv()
      ensures Recent(touches) == Recent(old(touches) + [PeerKey(Channel, community.id)])
      ensures var key := PeerKey(Channel, community.id);
        var stored := WithCommunity(Moved(old(View()), key, maxSize), key, Unnamed(community, community.min));
        View() == Enforced(stored, maxSize)
    {
      var key := PeerKey(Channel, community.id);
      TouchAgain(View(), touches, key, maxSize);
      DescribeCommunity(key, Unnamed(community, community.min));
      TouchLRU(key);
      EnforceSizeLimit();
    }

    method DescribeCommunity(key: PeerKey, community: Peer)
      requires ListInv()
      modifies this
      ensures ListInv() && touches == if community.min then old(touches) else old(touches) + [key]
      ensures Enforced(Moved(View(), key, maxSize), maxSize)
        == Enforced(WithCommunity(Moved(old(View()), key, maxSize), key, community), maxSize)
    {
      if community.min {
        CommunityThenTouch(View(), key, community, maxSize);
        RecordMin(key, community);
      } else {
        RecordCommunity(key, community);
      }
    }

    method RecordCommunity(key: PeerKey, community: Peer)
      requires ListInv() && !community.min
      modifies this
      ensures ListInv() && touches == old(touches) + [key]
      ensures Enforced(Moved(View(), key, maxSize), maxSize)
        == Enforced(WithCommunity(Moved(old(View()), key, maxSize), key, community), maxSize)
    {
      ghost var target := WithCommunity(Moved(View(), key, maxSize), key, community);
      CommunityThenTouch(View(), key, community, maxSize);
      Settled(target, key, maxSize);
      var news := StoreCommunity(key, community);
      TouchLRU(key);
      assert View() == target;
      if news { EnforceSizeLimit(); }
    }

    method StoreCommunity(key: PeerKey, community: Peer) returns (news: bool)
      requires !community.min
      modifies this`peers, this`minHashes, this`hashes
      ensures View() == WithCommunity(old(View()), key, community)
      ensures news <==> key !in old(hashes) || old(hashes)[key] != community.accessHash
    {
      peers := peers[key := community];
      minHashes := minHashes - {key};
      news := key !in hashes || hashes[key] != community.accessHash;
      if news { hashes := hashes[key := community.accessHash]; }
      assert hashes == old(hashes)[key := community.accessHash];
    }

    /** GetPeerUser, GetPeerChannel and the two lookups like them. */
    method GetPeer(key: PeerKey) returns (found: bool, hash: int)
      requires ListInv()
      modifies this
      ensures ListInv()
      ensures (found, hash) == if key in old(hashes) then (true, old(hashes)[key]) else (false, 0)
      ensures touches == old(touches) + (if found then [key] else [])
      ensures View() == if found then Moved(old(View()), key, maxSize) else old(View())
    {
      if key !in hashes { return false, 0; }
      TouchLRU(key);
      return true, hashes[key];
    }

    method LookupUsername(username: string) returns (answer: Answer)
      requires ListInv()
      modifies this
      ensures ListInv() && answer == Lookup(old(View()), normalize(username))
      ensures touches == old(touches) + Consulted(old(View()), normalize(username))
      ensures View() == if Consulted(old(View()), normalize(username)) == [] then old(View())
                        else Moved(old(View()), Consulted(old(View()), normalize(username))[0], maxSize)
    {
      var name := normalize(username);
      if name !in usernameMap { return Answer(0, 0, false, false); }
      var value := usernameMap[name];
      var found, hash;
      if value < 0 {
        found, hash := GetPeer(PeerKey(Channel, -value));
        return Answer(-value, hash, true, found);
      }
      found, hash := GetPeer(PeerKey(User, value));
      if found { return Answer(value, hash, false, true); }
      found, hash := GetPeer(PeerKey(Channel, value));
      if found { return Answer(value, hash, true, true); }
      return Answer(value, 0, false, true);
    }
  }

  lemma ClaimOne(owner: map<string, int>, names: seq<string>, k: nat, value: int)
    requires k < |names|
    ensures Claimed(owner, names[..k], value)[names[k] := value] == Claimed(owner, names[..k + 1], value)
  {
    assert names[..k + 1] == names[..k] + [names[k]];
  }

  lemma {:induction false} RemovedAt<T(!new)>(s: seq<T>, i: nat)
    requires NoDuplicates(s) && i < |s|
    ensures Without(s, s[i]) == s[..i] + s[i + 1..]
    decreases |s|
  {
    var last := |s| - 1;
    if i == last {
      NothingRemoved(s[..last], s[i]);
    } else {
      RemovedAt(s[..last], i);
      assert s[i + 1..] == s[..last][i + 1..] + [s[last]];
    }
  }

  lemma {:induction false} NothingRemoved<T(!new)>(s: seq<T>, x: T)
    requires x !in s
    ensures Without(s, x) == s
  {
    if s != [] {
      NothingRemoved(s[..|s| - 1], x);
      assert s == s[..|s| - 1] + [s[|s| - 1]];
    }
  }

  // ---------- runs ----------

  datatype Event =
    | Announce(key: PeerKey, peer: Peer, names: seq<string>)
    | Chat(chat: Peer, forbidden: bool)
    | Forbid(channel: Peer)
    | Community(community: Peer)
    | Get(key: PeerKey)
    | Find(name: string)

  datatype State = State(contents: Contents, touches: seq<PeerKey>)

  /** Announcements are of users and channels whose names can lead back to them; others are not given to the cache. */
  ghost function Apply(s: State, e: Event, maxSize: int): State {
    match e
    case Announce(key, peer, names) =>
      if !Addressable(key) then s else State(Announced(s.contents, key, peer, names, maxSize), s.touches + [key])
    case Chat(chat, forbidden) =>
      var key := PeerKey(Group, chat.id);
      var stored := WithGroup(Moved(s.contents, key, maxSize), key, GroupOf(chat, forbidden), forbidden);
      State(Enforced(stored, maxSize), s.touches + [key])
    case Forbid(channel) =>
      var key := PeerKey(Channel, channel.id);
      var stored := WithForbidden(Moved(s.contents, key, maxSize), key, Unnamed(channel, false));
      State(Enforced(stored, maxSize), s.touches + [key])
    case Community(community) =>
      var key := PeerKey(Channel, community.id);
      var stored := WithCommunity(Moved(s.contents, key, maxSize), key, Unnamed(community, community.min));
      State(Enforced(stored, maxSize), s.touches + [key])
    case Get(key) =>
      if key in s.contents.hashes then State(Moved(s.contents, key, maxSize), s.touches + [key]) else s
    case Find(name) =>
      var keys := Consulted(s.contents, name);
      if keys == [] then s else State(Moved(s.contents, keys[0], maxSize), s.touches + keys)
  }

  ghost function Run(events: seq<Event>, maxSize: int): State {
    if events == [] then State(NOTHING, [])
    else Apply(Run(events[..|events| - 1], maxSize), events[|events| - 1], maxSize)
  }

  lemma ChatKeepsInv(s: State, chat: Peer, forbidden: bool, maxSize: int)
    requires Inv(s.contents, s.touches, maxSize)
    ensures var t := Apply(s, Chat(chat, forbidden), maxSize); Inv(t.contents, t.touches, maxSize)
  {
    var key := PeerKey(Group, chat.id);
    RecordKeepsInv(s.contents, s.touches, key,
                   WithGroup(Moved(s.contents, key, maxSize), key, GroupOf(chat, forbidden), forbidden), maxSize);
  }

  lemma ForbidKeepsInv(s: State, channel: Peer, maxSize: int)
    requires Inv(s.contents, s.touches, maxSize)
    ensures var t := Apply(s, Forbid(channel), maxSize); Inv(t.contents, t.touches, maxSize)
  {
    var key := PeerKey(Channel, channel.id);
    RecordKeepsInv(s.contents, s.touches, key,
                   WithForbidden(Moved(s.contents, key, maxSize), key, Unnamed(channel, false)), maxSize);
  }

  lemma CommunityKeepsInv(s: State, community: Peer, maxSize: int)
    requires Inv(s.contents, s.touches, maxSize)
    ensures var t := Apply(s, Community(community), maxSize); Inv(t.contents, t.touches, maxSize)
  {
    var key := PeerKey(Channel, community.id);
    RecordKeepsInv(s.contents, s.touches, key,
                   WithCommunity(Moved(s.contents, key, maxSize), key, Unnamed(community, community.min)), maxSize);
  }

  lemma ApplyKeepsInv(s: State, e: Event, maxSize: int)
    requires Inv(s.contents, s.touches, maxSize)
    ensures Inv(Apply(s, e, maxSize).contents, Apply(s, e, maxSize).touches, maxSize)
  {
    match e
    case Announce(key, peer, names) =>
      if Addressable(key) { AnnounceKeepsInv(s.contents, s.touches, key, peer, names, maxSize); }
    case Chat(chat, forbidden) => ChatKeepsInv(s, chat, forbidden, maxSize);
    case Forbid(channel) => ForbidKeepsInv(s, channel, maxSize);
    case Community(community) => CommunityKeepsInv(s, community, maxSize);
    case Get(key) =>
      if key in s.contents.hashes { LookupKeepsInv(s.contents, s.touches, key, maxSize); }
    case Find(name) =>
      if Consulted(s.contents, name) != [] {
        LookupKeepsInv(s.contents, s.touches, Consulted(s.contents, name)[0], maxSize);
      }
  }

  /** Main result, for every run from an empty cache. */
  lemma {:induction false} EveryRunKeepsInv(events: seq<Event>, maxSize: int)
    requires maxSize != 0
    ensures Inv(Run(events, maxSize).contents, Run(events, maxSize).touches, maxSize)
  {
    if events != [] {
      EveryRunKeepsInv(events[..|events| - 1], maxSize);
      ApplyKeepsInv(Run(events[..|events| - 1], maxSize), events[|events| - 1], maxSize);
    }
  }
}
