/**
 The in-memory store of the cache: a Map with a cap. A JavaScript Map is its keys in the order
 they were first inserted together with the entries; storing under a key it has keeps the place.
 */
module Cache {
  import opened Common
  import opened OrderedMap

  // A stored value; None is a cached null. An expiry of None or zero never passes.
  datatype Entry<V> = Entry(value: Option<V>, expiry: Option<int>)

  datatype Store<V> = Store(keys: seq<string>, entries: map<string, Entry<V>>, evictions: nat)

  predicate Expired<V>(e: Entry<V>, now: int)
  {
    e.expiry.Some? && e.expiry.value != 0 && now > e.expiry.value
  }

  ghost predicate Valid<V>(s: Store<V>)
  {
    Paired(s.keys, s.entries)
  }

  function Empty<V>(): Store<V>
  {
    Store([], map[], 0)
  }

  // ---- eviction --------------------------------------------------------------------------

  function IsDead<V>(entries: map<string, Entry<V>>, now: int): string -> bool
  {
    k => k in entries && Expired(entries[k], now)
  }

  function IsLive<V>(entries: map<string, Entry<V>>, now: int): string -> bool
  {
    k => !(k in entries && Expired(entries[k], now))
  }

  // The order in which entries give way: the expired ones, then the live ones, oldest first.
  function EvictionOrder<V>(s: Store<V>, now: int): (r: seq<string>)
    ensures |r| == |s.keys|
  {
    FilterSplits(IsDead(s.entries, now), IsLive(s.entries, now), s.keys);
    Filter(IsDead(s.entries, now), s.keys) + Filter(IsLive(s.entries, now), s.keys)
  }

  // The keys that make room for one more: as many as it takes, and no more.
  function Victims<V>(s: Store<V>, cap: nat, now: int): seq<string>
    requires cap >= 1
  {
    EvictionOrder(s, now)[..Max(0, |s.keys| - cap + 1)]
  }

  function Without<V>(s: Store<V>, gone: seq<string>): Store<V>
  {
    Store(Kept(s.keys, gone), s.entries - Elems(gone), s.evictions + |gone|)
  }

  // ---- operations ------------------------------------------------------------------------

  function Put<V>(s: Store<V>, key: string, e: Entry<V>): Store<V>
  {
    Store(if key in s.entries then s.keys else s.keys + [key], s.entries[key := e], s.evictions)
  }

  function MemorySet<V>(s: Store<V>, key: string, e: Entry<V>, cap: nat, now: int): Store<V>
    requires cap >= 1
  {
    if key in s.entries then Put(s, key, e) else Put(Without(s, Victims(s, cap, now)), key, e)
  }

  // A zero ttl is no ttl; a negative one never expires.
  function MakeEntry<V>(value: Option<V>, ttl: int, defaultTtl: int, now: int): Entry<V>
  {
    var resolved := if ttl != 0 then ttl else defaultTtl;
    Entry(value, if resolved > 0 then Some(now + resolved * 1000) else None)
  }

  function Delete<V>(s: Store<V>, key: string): Store<V>
  {
    Store(Kept(s.keys, [key]), s.entries - {key}, s.evictions)
  }

  function Evicted<V>(s: Store<V>, key: string): Store<V>
  {
    Delete(s, key).(evictions := s.evictions + 1)
  }

  function Unmatched(matches: string -> bool): string -> bool
  {
    k => !matches(k)
  }

  function DeleteMatching<V>(s: Store<V>, matches: string -> bool): Store<V>
  {
    Store(Filter(Unmatched(matches), s.keys), map k | k in s.entries && !matches(k) :: s.entries[k], s.evictions)
  }

  // The answer, and the store after the lazy removal of an expired entry.
  function Lookup<V>(s: Store<V>, key: string, now: int): (Store<V>, Option<V>)
  {
    if key !in s.entries then (s, None)
    else if Expired(s.entries[key], now) then (Delete(s, key), None)
    else (s, s.entries[key].value)
  }

  // ---- what eviction leaves --------------------------------------------------------------

  lemma WithoutNone<V>(s: Store<V>)
    ensures Without(s, []) == s
  {
    KeptNone(s.keys);
    assert s.entries - Elems([]) == s.entries;
  }

  lemma WithoutOneMore<V>(s: Store<V>, gone: seq<string>, key: string)
    ensures Without(s, gone + [key]) == Evicted(Without(s, gone), key)
  {
    KeptOneFewer(s.keys, gone, key);
    AppendElems(gone, key);
    assert s.entries - (Elems(gone) + {key}) == (s.entries - Elems(gone)) - {key};
  }

  // Once the expired entries are gone, what is left is the rest of the order.
  lemma OrderTail<V>(s: Store<V>, now: int, m: nat)
    requires Distinct(s.keys) && |Filter(IsDead(s.entries, now), s.keys)| <= m <= |s.keys|
    ensures Kept(s.keys, EvictionOrder(s, now)[..m]) == EvictionOrder(s, now)[m..]
  {
    var dead, live := Filter(IsDead(s.entries, now), s.keys), Filter(IsLive(s.entries, now), s.keys);
    var order := EvictionOrder(s, now);
    var j := m - |dead|;
    assert order[..m] == dead + live[..j];
    FilterDistinct(IsLive(s.entries, now), s.keys);
    FilterIn(IsDead(s.entries, now), s.keys);
    forall x | x in s.keys ensures NotIn(order[..m])(x) <==> NotIn(live[..j])(x) && IsLive(s.entries, now)(x) {
      InEither(dead, live[..j], x);
    }
    FilterTwice(NotIn(live[..j]), IsLive(s.entries, now), NotIn(order[..m]), s.keys);
    DropsPrefix(NotIn(live[..j]), live, j);
  }

  lemma WithoutSize<V>(s: Store<V>, now: int, m: nat)
    requires Valid(s) && m <= |s.keys|
    ensures var t := Without(s, EvictionOrder(s, now)[..m]); Valid(t) && |t.keys| == |s.keys| - m
  {
    var order := EvictionOrder(s, now);
    UniqueDistinct(s.keys);
    OrderDistinct(s, now);
    WithoutValid(s, order[..m]);
    KeptSize(s.keys, order[..m]);
  }

  lemma OrderDistinct<V>(s: Store<V>, now: int)
    requires Distinct(s.keys)
    ensures Distinct(EvictionOrder(s, now)) && Elems(EvictionOrder(s, now)) == Elems(s.keys)
  {
    FilterDistinct(IsDead(s.entries, now), s.keys);
    FilterDistinct(IsLive(s.entries, now), s.keys);
    FilterIn(IsLive(s.entries, now), s.keys);
    FilterIn(IsDead(s.entries, now), s.keys);
    var dead, live := Filter(IsDead(s.entries, now), s.keys), Filter(IsLive(s.entries, now), s.keys);
    forall k ensures k in Elems(EvictionOrder(s, now)) <==> k in Elems(s.keys) {
      assert k in EvictionOrder(s, now) <==> k in dead || k in live;
    }
    forall i, j | 0 <= i < j < |dead + live| ensures (dead + live)[i] != (dead + live)[j] {
      if i < |dead| <= j {
        assert (dead + live)[i] in dead && (dead + live)[j] in live;
      }
    }
  }

  lemma WithoutValid<V>(s: Store<V>, gone: seq<string>)
    requires Valid(s)
    ensures Valid(Without(s, gone))
  {
    PairedWithout(s.keys, s.entries, gone);
  }

  lemma DeleteValid<V>(s: Store<V>, key: string)
    requires Valid(s)
    ensures Valid(Delete(s, key))
  {
    WithoutValid(s, [key]);
    AppendElems([], key);
    assert [] + [key] == [key];
    assert Elems([key]) == {key};
  }

  lemma DeleteMatchingValid<V>(s: Store<V>, matches: string -> bool)
    requires Valid(s)
    ensures Valid(DeleteMatching(s, matches))
  {
    UniqueDistinct(s.keys);
    UniqueDistinct(Filter(Unmatched(matches), s.keys));
    FilterDistinct(Unmatched(matches), s.keys);
    FilterIn(Unmatched(matches), s.keys);
    var t := DeleteMatching(s, matches);
    forall k ensures k in Elems(t.keys) <==> k in t.entries.Keys {
      assert k in Elems(s.keys) <==> k in s.entries.Keys;
    }
  }

  lemma PutValid<V>(s: Store<V>, key: string, e: Entry<V>)
    requires Valid(s)
    ensures Valid(Put(s, key, e))
  {
    PairedPut(s.keys, s.entries, key, e);
  }

  // Every operation keeps the keys and the entries together, and a new key fits under the cap.
  lemma MemorySetValid<V>(s: Store<V>, key: string, e: Entry<V>, cap: nat, now: int)
    requires Valid(s) && cap >= 1
    ensures Valid(MemorySet(s, key, e, cap, now))
    ensures key !in s.entries ==> |MemorySet(s, key, e, cap, now).keys| == Min(|s.keys| + 1, cap)
  {
    if key in s.entries {
      PutValid(s, key, e);
    } else {
      RoomSize(s, cap, now);
      PutValid(Without(s, Victims(s, cap, now)), key, e);
    }
  }

  lemma RoomSize<V>(s: Store<V>, cap: nat, now: int)
    requires Valid(s) && cap >= 1
    ensures var t := Without(s, Victims(s, cap, now)); Valid(t) && |t.keys| == Min(|s.keys|, cap - 1)
  {
    WithoutSize(s, now, Max(0, |s.keys| - cap + 1));
  }

  // The live entries that had to go are the earliest inserted, and go only once every expired
  // entry is gone.
  lemma LiveVictims<V>(s: Store<V>, cap: nat, now: int, i: nat)
    requires Valid(s) && cap >= 1 && i < |s.keys|
    requires s.keys[i] in Victims(s, cap, now) && !Expired(s.entries[s.keys[i]], now)
    ensures forall k | k in s.entries && Expired(s.entries[k], now) :: k in Victims(s, cap, now)
    ensures forall h | 0 <= h < i :: s.keys[h] in Victims(s, cap, now)
    ensures |Filter(IsLive(s.entries, now), s.keys)| >= cap
  {
    var dead, live := Filter(IsDead(s.entries, now), s.keys), Filter(IsLive(s.entries, now), s.keys);
    FilterIn(IsDead(s.entries, now), s.keys);
    var m, gone := Max(0, |s.keys| - cap + 1), Victims(s, cap, now);
    assert gone == dead[..Min(m, |dead|)] + live[..m - Min(m, |dead|)];
    assert s.keys[i] in s.keys;
    assert s.keys[i] !in dead;
    assert |dead| < m;
    assert gone == dead + live[..m - |dead|];
    FilterSplits(IsDead(s.entries, now), IsLive(s.entries, now), s.keys);
    forall k | k in s.entries && Expired(s.entries[k], now) ensures k in gone {
      assert k in Elems(s.keys);
    }
    forall h | 0 <= h < i ensures s.keys[h] in gone {
      OlderGoesToo(s, now, m - |dead|, h, i);
    }
  }

  lemma OlderGoesToo<V>(s: Store<V>, now: int, n: nat, h: nat, i: nat)
    requires Valid(s) && h < i < |s.keys| && n <= |Filter(IsLive(s.entries, now), s.keys)|
    requires s.keys[i] in Filter(IsLive(s.entries, now), s.keys)[..n]
    ensures s.keys[h] in Filter(IsDead(s.entries, now), s.keys)
            || s.keys[h] in Filter(IsLive(s.entries, now), s.keys)[..n]
  {
    assert s.keys[h] in s.keys;
    FilterIn(IsDead(s.entries, now), s.keys);
    if s.keys[h] !in Filter(IsDead(s.entries, now), s.keys) {
      UniqueDistinct(s.keys);
      LaterInPrefix(IsLive(s.entries, now), s.keys, h, i, n);
    }
  }

  // ---- the store as the service uses it --------------------------------------------------

  class MemoryCache<V> {
    var keys: seq<string>
    var entries: map<string, Entry<V>>
    var evictions: nat
    const enabled: bool
    const defaultTtl: int

    ghost function View(): Store<V>
      reads this
    {
      Store(keys, entries, evictions)
    }

    constructor (enabled: bool, defaultTtl: int)
      ensures View() == Empty() && this.enabled == enabled
              && this.defaultTtl == (if defaultTtl != 0 then defaultTtl else 3600)
    {
      keys, entries, evictions := [], map[], 0;
      this.enabled := enabled;
      this.defaultTtl := if defaultTtl != 0 then defaultTtl else 3600;
    }

    method Remove(key: string)
      modifies this
      ensures View() == Delete(old(View()), key)
    {
      keys := Kept(keys, [key]);
      entries := entries - {key};
    }

    method Evict(key: string)
      modifies this
      ensures View() == Evicted(old(View()), key)
    {
      Remove(key);
      evictions := evictions + 1;
    }

    method MemoryStoreSet(key: string, entry: Entry<V>, cap: nat, now: int)
      requires Valid(View()) && cap >= 1
      modifies this
      ensures View() == MemorySet(old(View()), key, entry, cap, now) && Valid(View())
    {
      ghost var s := View();
      MemorySetValid(s, key, entry, cap, now);
      if |keys| >= cap && key !in entries {
        MakeRoom(cap, now);
      } else if key !in entries {
        WithoutNone(s);
      }
      Insert(key, entry);
    }

    method Insert(key: string, entry: Entry<V>)
      modifies this
      ensures View() == Put(old(View()), key, entry)
    {
      if key !in entries {
        keys := keys + [key];
      }
      entries := entries[key := entry];
    }

    // Expired entries give way first, then the oldest.
    method MakeRoom(cap: nat, now: int)
      requires Valid(View()) && 1 <= cap <= |keys|
      modifies this
      ensures View() == Without(old(View()), Victims(old(View()), cap, now))
    {
      ghost var s := View();
      ghost var dead := |Filter(IsDead(s.entries, now), s.keys)|;
      ghost var purged := Min(dead, |keys| - cap + 1);
      ShrunkSize(s, now, purged);
      DropExpired(cap, now);
      DropOldest(s, purged, cap, now);
      RoomMade(s, cap, now);
    }

    method PurgeKey(ghost s: Store<V>, key: string, ghost i: nat, ghost next: nat, now: int)
      requires Valid(s) && i < |s.keys| && next == i + 1 && key == s.keys[i] && View() == Purged(s, now, i)
      modifies this
      ensures View() == Purged(s, now, next) && |keys| >= old(|keys|) - 1
    {
      PurgeStep(s, now, i);
      if Expired(entries[key], now) {
        Evict(key);
      }
    }

    method DropExpired(cap: nat, now: int)
      requires Valid(View()) && 1 <= cap <= |keys|
      modifies this
      ensures var s := old(View());
              var dead := Filter(IsDead(s.entries, now), s.keys);
              View() == Shrunk(s, now, Min(|dead|, |s.keys| - cap + 1))
    {
      ghost var s := View();
      var stored := keys;
      var i := 0;
      PurgeStarts(s, now);
      while i < |stored| && |keys| >= cap
        invariant 0 <= i <= |stored| && stored == s.keys
        invariant View() == Purged(s, now, i)
        invariant |keys| >= cap - 1
      {
        ghost var next := i + 1;
        PurgeKey(s, stored[i], i, next, now);
        i := i + 1;
      }
      PurgeEnds(s, cap, now, i);
    }

    method DropFirst(ghost s: Store<V>, now: int, ghost m: nat, ghost next: nat)
      requires next == m + 1 && Valid(s) && |Filter(IsDead(s.entries, now), s.keys)| <= m < |s.keys|
               && View() == Shrunk(s, now, m)
      modifies this
      ensures View() == Shrunk(s, now, next) && |keys| == |s.keys| - next
    {
      OldestGoes(s, now, m);
      ShrunkSize(s, now, m + 1);
      Evict(keys[0]);
    }

    method DropOldest(ghost s: Store<V>, ghost purged: nat, cap: nat, now: int)
      requires Valid(s) && 1 <= cap <= |s.keys| && purged <= |s.keys| - cap + 1
      requires View() == Shrunk(s, now, purged) && |keys| == |s.keys| - purged
      requires purged == |s.keys| - cap + 1 || |Filter(IsDead(s.entries, now), s.keys)| <= purged
      modifies this
      ensures View() == Shrunk(s, now, |s.keys| - cap + 1)
    {
      ghost var m, n := purged, |s.keys| - cap + 1;
      while |keys| >= cap
        invariant purged <= m <= n && |keys| == |s.keys| - m
        invariant View() == Shrunk(s, now, m)
        decreases |keys|
      {
        ghost var next := m + 1;
        DropFirst(s, now, m, next);
        m := next;
      }
      assert m == n;
    }

    method Get(key: string, now: int) returns (r: Option<V>)
      requires Valid(View())
      modifies this
      ensures enabled ==> (View(), r) == Lookup(old(View()), key, now)
      ensures !enabled ==> View() == old(View()) && r == None
      ensures Valid(View())
    {
      if !enabled { return None; }
      if key !in entries { return None; }
      if Expired(entries[key], now) {
        DeleteValid(View(), key);
        Remove(key);
        return None;
      }
      return entries[key].value;
    }

    method Set(key: string, value: Option<V>, ttl: int, cap: nat, now: int)
      requires Valid(View()) && cap >= 1
      modifies this
      ensures View() == if enabled then MemorySet(old(View()), key, MakeEntry(value, ttl, defaultTtl, now), cap, now)
                        else old(View())
      ensures Valid(View())
    {
      if !enabled { return; }
      var resolved := if ttl != 0 then ttl else defaultTtl;
      MemoryStoreSet(key, Entry(value, if resolved > 0 then Some(now + resolved * 1000) else None), cap, now);
    }

    method Del(key: string)
      requires Valid(View())
      modifies this
      ensures View() == if enabled then Delete(old(View()), key) else old(View())
      ensures Valid(View())
    {
      if !enabled { return; }
      DeleteValid(View(), key);
      Remove(key);
    }

    method DeleteIfMatching(ghost s: Store<V>, matches: string -> bool, key: string, ghost i: nat)
      requires i < |s.keys| && key == s.keys[i] && View() == Matched(s, matches, i)
      modifies this
      ensures View() == Matched(s, matches, i + 1)
    {
      MatchedStep(s, matches, i);
      if matches(key) {
        Remove(key);
      }
    }

    method DelPattern(matches: string -> bool)
      requires Valid(View())
      modifies this
      ensures View() == if enabled then DeleteMatching(old(View()), matches) else old(View())
      ensures Valid(View())
    {
      if !enabled { return; }
      ghost var s := View();
      var stored := keys;
      DeleteMatchingValid(s, matches);
      MatchedNone(s, matches);
      var i := 0;
      while i < |stored|
        invariant 0 <= i <= |stored| && stored == s.keys
        invariant View() == Matched(s, matches, i)
      {
        DeleteIfMatching(s, matches, stored[i], i);
        i := i + 1;
      }
      MatchingGone(s, matches);
    }

    method Flush()
      modifies this
      ensures View() == if enabled then Empty<V>().(evictions := old(evictions)) else old(View())
      ensures old(Valid(View())) ==> Valid(View())
    {
      if !enabled { return; }
      keys, entries := [], map[];
    }
  }

  // The store after the purge has looked at the first i keys.
  ghost function Purged<V>(s: Store<V>, now: int, i: nat): Store<V>
    requires i <= |s.keys|
  {
    Without(s, Filter(IsDead(s.entries, now), s.keys[..i]))
  }

  lemma PurgeStarts<V>(s: Store<V>, now: int)
    ensures Purged(s, now, 0) == s
  {
    WithoutNone(s);
  }

  lemma PurgeStep<V>(s: Store<V>, now: int, i: nat)
    requires Valid(s) && i < |s.keys|
    ensures var t, k := Purged(s, now, i), s.keys[i];
            && k in t.entries
            && Purged(s, now, i + 1) == (if Expired(t.entries[k], now) then Evicted(t, k) else t)
            && |Purged(s, now, i + 1).keys| >= |t.keys| - 1
  {
    PurgedSize(s, now, i);
    PurgedSize(s, now, i + 1);
    NextKey(s, now, i);
    WithoutOneMore(s, Filter(IsDead(s.entries, now), s.keys[..i]), s.keys[i]);
  }

  // The key the purge looks at next is still stored, with the entry it had.
  lemma NextKey<V>(s: Store<V>, now: int, i: nat)
    requires Valid(s) && i < |s.keys|
    ensures var gone, k := Filter(IsDead(s.entries, now), s.keys[..i]), s.keys[i];
            && k in s.entries && k in (s.entries - Elems(gone))
            && Filter(IsDead(s.entries, now), s.keys[..i + 1])
               == if Expired(s.entries[k], now) then gone + [k] else gone
  {
    var k := s.keys[i];
    assert k in Elems(s.keys);
    UniqueDistinct(s.keys);
    assert k !in s.keys[..i];
    assert s.keys[..i + 1] == s.keys[..i] + [k];
    FilterAppend(IsDead(s.entries, now), s.keys[..i], [k]);
    FilterIn(IsDead(s.entries, now), s.keys[..i]);
    FilterOne(IsDead(s.entries, now), k);
  }

  lemma PurgedSize<V>(s: Store<V>, now: int, i: nat)
    requires Valid(s) && i <= |s.keys|
    ensures var gone := Filter(IsDead(s.entries, now), s.keys[..i]);
            |gone| <= |s.keys| && gone == EvictionOrder(s, now)[..|gone|]
              && |Purged(s, now, i).keys| == |s.keys| - |gone|
  {
    var gone := Filter(IsDead(s.entries, now), s.keys[..i]);
    FilterPrefix(IsDead(s.entries, now), s.keys, i);
    assert EvictionOrder(s, now)[..|gone|] == gone;
    WithoutSize(s, now, |gone|);
  }

  lemma PurgeEnds<V>(s: Store<V>, cap: nat, now: int, i: nat)
    requires Valid(s) && 1 <= cap <= |s.keys| && i <= |s.keys|
    requires |Purged(s, now, i).keys| >= cap - 1 && (i == |s.keys| || |Purged(s, now, i).keys| < cap)
    ensures var dead := |Filter(IsDead(s.entries, now), s.keys)|;
            Purged(s, now, i) == Shrunk(s, now, Min(dead, |s.keys| - cap + 1))
  {
    PurgedSize(s, now, i);
    FilterPrefix(IsDead(s.entries, now), s.keys, i);
    assert s.keys[..|s.keys|] == s.keys;
  }

  // The store without the first m keys to give way.
  ghost function Shrunk<V>(s: Store<V>, now: int, m: nat): Store<V>
    requires m <= |s.keys|
  {
    Without(s, EvictionOrder(s, now)[..m])
  }

  lemma ShrunkSize<V>(s: Store<V>, now: int, m: nat)
    requires Valid(s) && m <= |s.keys|
    ensures |Shrunk(s, now, m).keys| == |s.keys| - m
  {
    WithoutSize(s, now, m);
  }

  lemma RoomMade<V>(s: Store<V>, cap: nat, now: int)
    requires 1 <= cap <= |s.keys|
    ensures Without(s, Victims(s, cap, now)) == Shrunk(s, now, |s.keys| - cap + 1)
  {}

  lemma OldestGoes<V>(s: Store<V>, now: int, m: nat)
    requires Valid(s) && |Filter(IsDead(s.entries, now), s.keys)| <= m < |s.keys|
    ensures var t := Shrunk(s, now, m);
            t.keys != [] && Shrunk(s, now, m + 1) == Evicted(t, t.keys[0])
  {
    UniqueDistinct(s.keys);
    OrderTail(s, now, m);
    NextOfOrder(EvictionOrder(s, now), m);
    WithoutOneMore(s, EvictionOrder(s, now)[..m], EvictionOrder(s, now)[m]);
  }

  lemma NextOfOrder(order: seq<string>, m: nat)
    requires m < |order|
    ensures order[..m] + [order[m]] == order[..m + 1] && order[m..] != [] && order[m..][0] == order[m]
  {}

  // The store after the pattern was tried on the first i keys.
  ghost function Matched<V>(s: Store<V>, matches: string -> bool, i: nat): Store<V>
    requires i <= |s.keys|
  {
    Without(s, Filter(matches, s.keys[..i])).(evictions := s.evictions)
  }

  lemma MatchedNone<V>(s: Store<V>, matches: string -> bool)
    ensures Matched(s, matches, 0) == s
  {
    WithoutNone(s);
  }

  lemma MatchedStep<V>(s: Store<V>, matches: string -> bool, i: nat)
    requires i < |s.keys|
    ensures var t, k := Matched(s, matches, i), s.keys[i];
            Matched(s, matches, i + 1) == if matches(k) then Delete(t, k) else t
  {
    assert s.keys[..i + 1] == s.keys[..i] + [s.keys[i]];
    FilterAppend(matches, s.keys[..i], [s.keys[i]]);
    FilterOne(matches, s.keys[i]);
    var gone, k := Filter(matches, s.keys[..i]), s.keys[i];
    WithoutOneMore(s, gone, k);
    assert gone + [] == gone;
  }

  lemma MatchingGone<V>(s: Store<V>, matches: string -> bool)
    requires Valid(s)
    ensures Matched(s, matches, |s.keys|) == DeleteMatching(s, matches)
  {
    assert s.keys[..|s.keys|] == s.keys;
    FilterIn(matches, s.keys);
    FilterSame(NotIn(Filter(matches, s.keys)), Unmatched(matches), s.keys);
    MatchingEntries(s, matches);
    var t, u := Matched(s, matches, |s.keys|), DeleteMatching(s, matches);
    assert t.keys == u.keys;
    assert t.entries == u.entries;
    assert t.evictions == u.evictions;
  }

  lemma MatchingEntries<V>(s: Store<V>, matches: string -> bool)
    requires Valid(s)
    ensures s.entries - Elems(Filter(matches, s.keys)) == DeleteMatching(s, matches).entries
  {
    FilterIn(matches, s.keys);
    var t, u := s.entries - Elems(Filter(matches, s.keys)), DeleteMatching(s, matches).entries;
    forall k ensures k in t <==> k in u {
      assert k in Elems(s.keys) <==> k in s.entries.Keys;
      assert k in Elems(Filter(matches, s.keys)) <==> k in Filter(matches, s.keys);
      assert k in Filter(matches, s.keys) <==> k in s.keys && matches(k);
    }
    assert t == u;
  }
}
