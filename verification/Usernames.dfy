/** The two-way username index of the peer cache (telegram/cache.go). */
module Usernames {

  /** Users, channels and basic groups; their numeric ids can overlap. */
  datatype Kind = User | Channel | Group

  datatype PeerKey = PeerKey(kind: Kind, id: int)

  /** `owner` maps a name to a signed peer id, negative for a channel; `lists` maps a peer to its names. */
  datatype Names = Names(owner: map<string, int>, lists: map<PeerKey, seq<string>>)

  const NO_NAMES := Names(map[], map[])

  function ValueOf(key: PeerKey): int {
    if key.kind == Channel then -key.id else key.id
  }

  /** Which peer a stored value denotes to a lookup. */
  function PeerOf(value: int): PeerKey {
    if value < 0 then PeerKey(Channel, -value) else PeerKey(User, value)
  }

  function ListOf(n: Names, key: PeerKey): seq<string> {
    if key in n.lists then n.lists[key] else []
  }

  /** Forget a peer: its list, and those of its names that no other peer has claimed since. */
  function Removed(n: Names, key: PeerKey): Names {
    Names(map name | name in n.owner && !(name in ListOf(n, key) && n.owner[name] == ValueOf(key)) :: n.owner[name],
          n.lists - {key})
  }

  function Claimed(owner: map<string, int>, names: seq<string>, value: int): map<string, int> {
    owner + (map name | name in names :: value)
  }

  function Updated(n: Names, key: PeerKey, names: seq<string>): Names {
    if ListOf(n, key) == names then n
    else
      var r := Removed(n, key);
      Names(Claimed(r.owner, names, ValueOf(key)), if names == [] then r.lists else r.lists[key := names])
  }

  /** The stored value of this peer denotes this peer: a user's id is not negative, a channel's is positive. */
  predicate Addressable(key: PeerKey) {
    (key.kind == User && 0 <= key.id) || (key.kind == Channel && 0 < key.id)
  }

  /** Every name leads to a peer that lists it, and only addressable peers have lists. */
  ghost predicate NamesInv(n: Names) {
    && (forall name | name in n.owner :: PeerOf(n.owner[name]) in n.lists && name in n.lists[PeerOf(n.owner[name])])
    && (forall key | key in n.lists :: Addressable(key))
  }

  lemma UpdateKeepsInv(n: Names, key: PeerKey, names: seq<string>)
    requires NamesInv(n) && Addressable(key)
    ensures NamesInv(Updated(n, key, names))
  {
    if ListOf(n, key) != names {
      RemoveKeepsInv(n, key);
      var r, t := Removed(n, key), Updated(n, key, names);
      forall name | name in t.owner ensures PeerOf(t.owner[name]) in t.lists && name in t.lists[PeerOf(t.owner[name])] {
        assert PeerOf(ValueOf(key)) == key;
        if name !in names { assert name in r.owner && PeerOf(r.owner[name]) != key; }
      }
    }
  }

  /** Forgetting a peer leaves no dangling name. */
  lemma RemoveKeepsInv(n: Names, key: PeerKey)
    requires NamesInv(n)
    ensures NamesInv(Removed(n, key))
    ensures forall name | name in Removed(n, key).owner :: PeerOf(Removed(n, key).owner[name]) != key
  {
    var r := Removed(n, key);
    forall name | name in r.owner ensures PeerOf(r.owner[name]) != key && PeerOf(r.owner[name]) in r.lists {
      assert PeerOf(n.owner[name]) in n.lists;
    }
  }

  /** Removing one peer never takes a name from another. */
  lemma RemoveSparesOthers(n: Names, key: PeerKey, name: string)
    requires NamesInv(n) && name in n.owner && PeerOf(n.owner[name]) != key
    requires Addressable(key)
    ensures name in Removed(n, key).owner && Removed(n, key).owner[name] == n.owner[name]
  {
    assert PeerOf(ValueOf(key)) == key;
  }

  /** When an update makes a peer's names resolve to it: exactly when it changed the list, or they already
      did.  A repeated list is taken as no news, even if another peer has claimed one of the names since. */
  lemma UpdateOwnsItsNamesExactlyWhen(n: Names, key: PeerKey, names: seq<string>)
    ensures
      (forall name | name in names ::
        name in Updated(n, key, names).owner && Updated(n, key, names).owner[name] == ValueOf(key))
      <==>
      (ListOf(n, key) != names || forall name | name in names :: name in n.owner && n.owner[name] == ValueOf(key))
  {
  }

  /** So a name can be lost: another user takes it and gives it up, and its first user announcing it again
      does not bring it back. */
  lemma NameCanBeLost(name: string)
    ensures
      var a, b := PeerKey(User, 1), PeerKey(User, 2);
      var n := Updated(Updated(Updated(Updated(NO_NAMES, a, [name]), b, [name]), b, []), a, [name]);
      NamesInv(n) && ListOf(n, a) == [name] && name !in n.owner
  {
  }

  /** The sign of the id decides whether a value leads back to the peer it was made for. */
  lemma ValueLeadsBackExactlyWhen(key: PeerKey)
    ensures PeerOf(ValueOf(key)) == key <==> Addressable(key)
  {
  }

  /** So, of the updates that store names, those make every name lead to the peer whose id has the right sign. */
  lemma UpdateLeadsBackExactlyWhen(n: Names, key: PeerKey, names: seq<string>)
    requires names != [] && ListOf(n, key) != names
    ensures (forall name | name in names :: LeadsTo(Updated(n, key, names), name, key)) <==> Addressable(key)
  {
    UpdateOwnsItsNamesExactlyWhen(n, key, names);
    ValueLeadsBackExactlyWhen(key);
    assert names[0] in names;
  }

  predicate LeadsTo(n: Names, name: string, key: PeerKey) {
    name in n.owner && PeerOf(n.owner[name]) == key
  }

  /** And every update with a wrong sign does harm: its first name leads to another peer, whatever the index was. */
  lemma WrongSignsCollide(n: Names, key: PeerKey, names: seq<string>)
    requires names != [] && ListOf(n, key) != names && !Addressable(key)
    ensures var t := Updated(n, key, names);
      names[0] in t.owner && PeerOf(t.owner[names[0]]) != key && !NamesInv(t)
  {
    UpdateOwnsItsNamesExactlyWhen(n, key, names);
    ValueLeadsBackExactlyWhen(key);
    assert names[0] in names && key in Updated(n, key, names).lists;
  }

  /** For instance, user -5 and channel 5 share one value, and the name leads to a channel nobody has announced. */
  lemma NegativeIdsCollide(name: string)
    ensures
      var n := Updated(NO_NAMES, PeerKey(User, -5), [name]);
      name in n.owner && PeerOf(n.owner[name]) == PeerKey(Channel, 5) && PeerOf(n.owner[name]) !in n.lists
  {
    var n := Updated(NO_NAMES, PeerKey(User, -5), [name]);
    assert name in [name];
  }
}
