/**
 Reference counting of keys by the owners that list them. A list may name a key more than once, so what an owner gives
 to a key when it is registered and what it takes back when it is released are told apart.
 */
module RefCounts {
  import opened Common

  ghost function Count<K>(used: map<K, nat>, k: K): nat {
    if k in used then used[k] else 0
  }

  ghost function Listed<K>(keys: seq<K>, k: K): nat {
    multiset(keys)[k]
  }

  ghost predicate Positive<K>(used: map<K, nat>) {
    forall k :: k in used ==> used[k] >= 1
  }

  // ---------------------------------------------------------------- what the owners gave

  /** One token for every reference to k that some owner gave. */
  ghost function Gifts<I, K>(gave: map<I, multiset<K>>, k: K): set<(I, nat)> {
    set id, j: nat | id in gave && j < gave[id][k] :: (id, j)
  }

  ghost function Total<I, K>(gave: map<I, multiset<K>>, k: K): nat {
    |Gifts(gave, k)|
  }

  ghost function GiftsOf<I>(id: I, n: nat): set<(I, nat)> {
    set j: nat | j < n :: (id, j)
  }

  lemma {:induction false} GiftsOfSize<I>(id: I, n: nat)
    ensures |GiftsOf(id, n)| == n
  {
    if n > 0 {
      GiftsOfSize(id, n - 1);
      assert GiftsOf(id, n) == GiftsOf(id, n - 1) + {(id, n - 1)};
    }
  }

  lemma GiftAt<I, K>(gave: map<I, multiset<K>>, k: K, g: (I, nat))
    ensures g in Gifts(gave, k) <==> g.0 in gave && g.1 < gave[g.0][k]
  {
  }

  lemma TotalWith<I, K>(gave: map<I, multiset<K>>, id: I, m: multiset<K>, k: K)
    requires id !in gave
    ensures Total(gave[id := m], k) == Total(gave, k) + m[k]
  {
    var before, own, after := Gifts(gave, k), GiftsOf(id, m[k]), Gifts(gave[id := m], k);
    GiftsOfSize(id, m[k]);
    forall g ensures g in after <==> g in before + own {
      GiftAt(gave, k, g);
      GiftAt(gave[id := m], k, g);
    }
    forall g ensures !(g in before && g in own) {
      GiftAt(gave, k, g);
    }
    UnionSize(before, own, after);
  }

  lemma UnionSize<T>(a: set<T>, b: set<T>, c: set<T>)
    requires a !! b && c == a + b
    ensures |c| == |a| + |b|
  {
  }

  lemma TotalWithout<I, K>(gave: map<I, multiset<K>>, id: I, k: K)
    requires id in gave
    ensures Total(gave, k) == Total(gave - {id}, k) + gave[id][k]
  {
    TotalWith(gave - {id}, id, gave[id], k);
    assert (gave - {id})[id := gave[id]] == gave;
  }

  /** Every count is the number of references that the owners gave. */
  ghost predicate CountedBy<I, K(!new)>(gave: map<I, multiset<K>>, used: map<K, nat>) {
    forall k :: Count(used, k) == Total(gave, k)
  }

  /** No count exceeds the number of references that the owners gave. */
  ghost predicate CoveredBy<I, K(!new)>(gave: map<I, multiset<K>>, used: map<K, nat>) {
    forall k :: Count(used, k) <= Total(gave, k)
  }

  /** What owners would give that give a reference for every mention. */
  ghost function Mentions<I, K>(owners: map<I, seq<K>>): map<I, multiset<K>> {
    map id | id in owners :: multiset(owners[id])
  }

  lemma MentionsWith<I, K>(owners: map<I, seq<K>>, id: I, keys: seq<K>)
    ensures Mentions(owners[id := keys]) == Mentions(owners)[id := multiset(keys)]
    ensures Mentions(owners).Keys == owners.Keys
  {
  }

  lemma MentionsWithout<I, K>(owners: map<I, seq<K>>, id: I)
    ensures Mentions(owners - {id}) == Mentions(owners) - {id}
  {
  }

  /**
   The counts grew by `given` and the new owner claims `claim`: they stay counted exactly if it claims what it gave.
   */
  lemma RegisterIff<I, K(!new)>(gave: map<I, multiset<K>>, used: map<K, nat>, used': map<K, nat>, id: I,
                                given: multiset<K>, claim: multiset<K>)
    requires CountedBy(gave, used) && id !in gave
    requires forall k :: Count(used', k) == Count(used, k) + given[k]
    ensures CountedBy(gave[id := claim], used') <==> given == claim
  {
    var gave' := gave[id := claim];
    forall k ensures Total(gave', k) == Total(gave, k) + claim[k] {
      TotalWith(gave, id, claim, k);
    }
    assert forall k :: Count(used, k) == Total(gave, k);
    if CountedBy(gave', used') {
      forall k ensures given[k] == claim[k] {
        assert Count(used', k) == Total(gave', k);
      }
    }
  }

  lemma RegisterKeepsCovered<I, K(!new)>(gave: map<I, multiset<K>>, used: map<K, nat>, used': map<K, nat>, id: I,
                                         given: multiset<K>, claim: multiset<K>)
    requires CoveredBy(gave, used) && id !in gave && given <= claim
    requires forall k :: Count(used', k) == Count(used, k) + given[k]
    ensures CoveredBy(gave[id := claim], used')
  {
    forall k ensures Count(used', k) <= Total(gave[id := claim], k) {
      TotalWith(gave, id, claim, k);
      assert Count(used, k) <= Total(gave, k);
      assert given[k] <= claim[k];
    }
  }

  // ---------------------------------------------------------------- what an owner gives

  /** A reference per mention for keys in use, a single one for every other key of the list. */
  ghost function Given<K>(used: set<K>, keys: seq<K>): multiset<K> {
    multiset(KeepIn(keys, used)) + multiset(Elems(keys) - used)
  }

  lemma {:induction false} KeptMentions<K>(keys: seq<K>, s: set<K>, k: K)
    ensures multiset(KeepIn(keys, s))[k] == if k in s then Listed(keys, k) else 0
  {
    if keys != [] {
      var n := |keys| - 1;
      KeptMentions(keys[..n], s, k);
      ListedNext(keys, k);
      ListedAppend(KeepIn(keys[..n], s), if keys[n] in s then [keys[n]] else [], k);
    }
  }

  lemma ListedNext<K>(keys: seq<K>, k: K)
    requires keys != []
    ensures Listed(keys, k) == Listed(keys[..|keys| - 1], k) + if keys[|keys| - 1] == k then 1 else 0
  {
    assert keys == keys[..|keys| - 1] + [keys[|keys| - 1]];
  }

  lemma ListedAppend<K>(a: seq<K>, b: seq<K>, k: K)
    ensures Listed(a + b, k) == Listed(a, k) + Listed(b, k)
  {
  }

  lemma GivenAt<K>(used: set<K>, keys: seq<K>, k: K)
    ensures Given(used, keys)[k] == if k in used then Listed(keys, k) else if k in keys then 1 else 0
    ensures Given(used, keys)[k] <= Listed(keys, k)
    ensures Listed(keys, k) > 0 <==> k in keys
  {
    KeptMentions(keys, used, k);
    assert k in keys <==> k in multiset(keys);
  }

  /** Every key that the list names twice is in use. */
  ghost predicate RepeatsInUse<K(!new)>(used: set<K>, keys: seq<K>) {
    forall k :: Listed(keys, k) > 1 ==> k in used
  }

  /** An owner gives a reference per mention exactly if it names no key twice that is not in use. */
  lemma GivesEveryMentionIff<K(!new)>(used: set<K>, keys: seq<K>)
    ensures Given(used, keys) == multiset(keys) <==> RepeatsInUse(used, keys)
    ensures Given(used, keys) <= multiset(keys)
  {
    forall k ensures Given(used, keys)[k] == (if k in used then Listed(keys, k) else if k in keys then 1 else 0)
                     && Given(used, keys)[k] <= Listed(keys, k) && (Listed(keys, k) > 0 <==> k in keys) {
      GivenAt(used, keys, k);
    }
    if Given(used, keys) == multiset(keys) {
      forall k | Listed(keys, k) > 1 ensures k in used {
        assert Given(used, keys)[k] == Listed(keys, k);
      }
    }
  }

  // ---------------------------------------------------------------- giving references back

  datatype Released<K> = Released(used: map<K, nat>, unused: map<K, nat>, missing: seq<K>)

  /** Gives back one reference; the last one turns the key into an unused key stamped `now`. */
  function ReleaseOne<K>(s: Released<K>, k: K, now: nat): Released<K> {
    if k !in s.used then s.(missing := s.missing + [k])
    else if s.used[k] > 1 then s.(used := s.used[k := s.used[k] - 1])
    else s.(used := s.used - {k}, unused := s.unused[k := now])
  }

  function ReleaseAll<K>(s: Released<K>, keys: seq<K>, now: nat): Released<K> {
    if keys == [] then s
    else ReleaseOne(ReleaseAll(s, keys[..|keys| - 1], now), keys[|keys| - 1], now)
  }

  ghost function Smaller(a: nat, b: nat): nat {
    if a < b then a else b
  }

  /** Whatever the list, a key loses a reference per mention as long as it has one, and is missing from then on. */
  lemma {:induction false} ReleaseAllAt<K>(used: map<K, nat>, unused: map<K, nat>, keys: seq<K>, now: nat, k: K)
    requires Positive(used)
    ensures var s := ReleaseAll(Released(used, unused, []), keys, now);
            && Positive(s.used)
            && Count(s.used, k) == Count(used, k) - Smaller(Listed(keys, k), Count(used, k))
            && (k in s.missing <==> Listed(keys, k) > Count(used, k))
  {
    if keys != [] {
      var n := |keys| - 1;
      ReleaseAllAt(used, unused, keys[..n], now, k);
      assert keys == keys[..n] + [keys[n]];
    }
  }

  /** A key whose last reference goes is unused from `now` on, and the other unused keys keep their time stamps. */
  lemma {:induction false} ReleaseStamps<K>(used: map<K, nat>, unused: map<K, nat>, keys: seq<K>, now: nat, k: K)
    requires used.Keys !! unused.Keys
    ensures var s := ReleaseAll(Released(used, unused, []), keys, now);
            && (k in used ==> (k in s.used <==> k !in s.unused) && (k in s.unused ==> s.unused[k] == now))
            && (k !in used ==>
                  k !in s.used && (k in s.unused <==> k in unused) && (k in unused ==> s.unused[k] == unused[k]))
  {
    if keys != [] {
      ReleaseStamps(used, unused, keys[..|keys| - 1], now, k);
    }
  }

  /** The missing keys are the mentions beyond the references. */
  lemma {:induction false} MissingMentions<K>(used: map<K, nat>, unused: map<K, nat>, keys: seq<K>, now: nat, k: K)
    requires Positive(used)
    ensures var s := ReleaseAll(Released(used, unused, []), keys, now);
            Listed(s.missing, k) == Listed(keys, k) - Smaller(Listed(keys, k), Count(used, k))
  {
    if keys != [] {
      var n := |keys| - 1;
      MissingMentions(used, unused, keys[..n], now, k);
      ReleaseAllAt(used, unused, keys[..n], now, k);
      ListedNext(keys, k);
      MissingNext(ReleaseAll(Released(used, unused, []), keys[..n], now), keys[n], now, k);
    }
  }

  lemma MissingNext<K>(s: Released<K>, key: K, now: nat, k: K)
    requires Positive(s.used)
    ensures Listed(ReleaseOne(s, key, now).missing, k) ==
            Listed(s.missing, k) + if key == k && Count(s.used, k) == 0 then 1 else 0
  {
  }

  /** The keys of the two tables together stay, and the tables stay apart. */
  lemma {:induction false} ReleaseKeepsKeys<K>(used: map<K, nat>, unused: map<K, nat>, keys: seq<K>, now: nat)
    requires used.Keys !! unused.Keys
    ensures var s := ReleaseAll(Released(used, unused, []), keys, now);
            && s.used.Keys !! s.unused.Keys && s.used.Keys + s.unused.Keys == used.Keys + unused.Keys
            && s.used.Keys <= used.Keys
  {
    if keys != [] {
      ReleaseKeepsKeys(used, unused, keys[..|keys| - 1], now);
    }
  }

  /** Completion reports a missing block exactly when the request lists some block more often than it has references. */
  lemma MissingIff<K>(used: map<K, nat>, unused: map<K, nat>, keys: seq<K>, now: nat)
    requires Positive(used)
    ensures ReleaseAll(Released(used, unused, []), keys, now).missing != []
            <==> exists k :: k in keys && Listed(keys, k) > Count(used, k)
  {
    var s := ReleaseAll(Released(used, unused, []), keys, now);
    if s.missing != [] {
      ReleaseAllAt(used, unused, keys, now, s.missing[0]);
      assert s.missing[0] in multiset(keys);
    }
    if k :| k in keys && Listed(keys, k) > Count(used, k) {
      ReleaseAllAt(used, unused, keys, now, k);
    }
  }

  /**
   An owner takes back what it gave exactly if, for every key, it lists the key that often or finds only that many.
   */
  lemma ReleaseIff<I, K(!new)>(gave: map<I, multiset<K>>, used: map<K, nat>, unused: map<K, nat>, id: I, keys: seq<K>,
                               now: nat)
    requires CountedBy(gave, used) && Positive(used) && id in gave
    ensures CountedBy(gave - {id}, ReleaseAll(Released(used, unused, []), keys, now).used)
            <==> forall k :: Smaller(Listed(keys, k), Count(used, k)) == gave[id][k]
  {
    var s := ReleaseAll(Released(used, unused, []), keys, now);
    forall k ensures Count(s.used, k) == Count(used, k) - Smaller(Listed(keys, k), Count(used, k))
                     && Count(used, k) == Total(gave - {id}, k) + gave[id][k] {
      ReleaseAllAt(used, unused, keys, now, k);
      TotalWithout(gave, id, k);
      assert Count(used, k) == Total(gave, k);
    }
    if CountedBy(gave - {id}, s.used) {
      forall k ensures Smaller(Listed(keys, k), Count(used, k)) == gave[id][k] {
        assert Count(s.used, k) == Total(gave - {id}, k);
      }
    }
  }

  lemma ReleaseKeepsCovered<I, K(!new)>(gave: map<I, multiset<K>>, used: map<K, nat>, unused: map<K, nat>, id: I,
                                        keys: seq<K>, now: nat)
    requires CoveredBy(gave, used) && Positive(used) && id in gave && gave[id] == multiset(keys)
    ensures CoveredBy(gave - {id}, ReleaseAll(Released(used, unused, []), keys, now).used)
  {
    var s := ReleaseAll(Released(used, unused, []), keys, now);
    forall k ensures Count(s.used, k) <= Total(gave - {id}, k) {
      ReleaseAllAt(used, unused, keys, now, k);
      TotalWithout(gave, id, k);
      assert Count(used, k) <= Total(gave, k);
    }
  }

  /** When every owner gave a reference per mention, a release misses nothing and leaves the others counted. */
  lemma BalancedRelease<I, K(!new)>(owners: map<I, seq<K>>, used: map<K, nat>, unused: map<K, nat>, id: I, now: nat)
    requires CountedBy(Mentions(owners), used) && Positive(used) && id in owners
    ensures var s := ReleaseAll(Released(used, unused, []), owners[id], now);
            s.missing == [] && CountedBy(Mentions(owners - {id}), s.used)
  {
    var keys := owners[id];
    forall k ensures Listed(keys, k) <= Count(used, k) {
      TotalWithout(Mentions(owners), id, k);
      assert Count(used, k) == Total(Mentions(owners), k);
    }
    ReleaseIff(Mentions(owners), used, unused, id, keys, now);
    MentionsWithout(owners, id);
    MissingIff(used, unused, keys, now);
  }
}
