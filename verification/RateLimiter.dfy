/**
 The rate limiter: fixed windows that open at a client's first request, and a counter store
 with a cap.
 */
module RateLimiter {
  import opened Common
  import opened OrderedMap
  import opened Sorting

  datatype Counter = Counter(count: nat, resetAt: int)

  datatype Store = Store(keys: seq<string>, entries: map<string, Counter>)

  // One request as the limiter sees it: its counter key, the tier's window and budget, and the
  // runtime ceiling if one is set.
  datatype Request = Request(key: string, windowMs: int, max: int, ceiling: Option<int>, now: int)

  // The headers of the answer; retryAfter is sent with a refusal only.
  datatype Reply = Reply(limit: int, remaining: int, resetSecs: int, retryAfter: Option<int>)

  ghost predicate Valid(s: Store)
  {
    Paired(s.keys, s.entries)
  }

  function Limit(r: Request): int
  {
    if r.ceiling.Some? && r.ceiling.value > 0 then Min(r.max, r.ceiling.value) else r.max
  }

  // ---- one counter -----------------------------------------------------------------------

  predicate Fresh(c: Option<Counter>, now: int)
  {
    c.None? || now >= c.value.resetAt
  }

  function Opening(r: Request): Counter
  {
    Counter(0, r.now + r.windowMs)
  }

  function Current(c: Option<Counter>, r: Request): Counter
  {
    if Fresh(c, r.now) then Opening(r) else c.value
  }

  function Serve(c: Option<Counter>, r: Request): Counter
  {
    var entry := Current(c, r);
    Counter(entry.count + 1, entry.resetAt)
  }

  function ReplyFor(c: Counter, r: Request): Reply
  {
    Reply(Limit(r), Max(0, Limit(r) - c.count), CeilDiv(c.resetAt, 1000),
          if c.count > Limit(r) then Some(CeilDiv(c.resetAt - r.now, 1000)) else None)
  }

  // ---- the store -------------------------------------------------------------------------

  function Find(s: Store, key: string): Option<Counter>
  {
    if key in s.entries then Some(s.entries[key]) else None
  }

  function Put(s: Store, key: string, c: Counter): Store
  {
    Store(if key in s.entries then s.keys else s.keys + [key], s.entries[key := c])
  }

  function Without(s: Store, gone: seq<string>): Store
  {
    Store(Kept(s.keys, gone), s.entries - Elems(gone))
  }

  function IsOver(entries: map<string, Counter>, now: int): string -> bool
  {
    k => k in entries && now >= entries[k].resetAt
  }

  function ByReset(entries: map<string, Counter>): (string, string) -> int
  {
    (a, b) => if a in entries && b in entries then entries[a].resetAt - entries[b].resetAt else 0
  }

  // Expired counters go first; if that is not enough, the soonest to expire.
  function Enforce(s: Store, cap: nat, now: int): Store
  {
    if |s.keys| <= cap then s else Trim(Purge(s, now), cap)
  }

  function Purge(s: Store, now: int): Store
  {
    Without(s, Filter(IsOver(s.entries, now), s.keys))
  }

  function Trim(s: Store, cap: nat): Store
  {
    if |s.keys| <= cap then s else Without(s, Soonest(s, |s.keys| - cap))
  }

  function Soonest(s: Store, n: nat): seq<string>
    requires n <= |s.keys|
  {
    Sort(ByReset(s.entries), s.keys)[..n]
  }

  // The counter is looked up or opened, the cap enforced, and only then the request counted; a
  // counter evicted at birth is counted all the same, but no longer stored.
  function Handle(s: Store, r: Request, cap: nat): (Store, Reply)
  {
    var c := Serve(Find(s, r.key), r);
    (Recorded(Opened(s, r, cap), r.key, c), ReplyFor(c, r))
  }

  function Opened(s: Store, r: Request, cap: nat): Store
  {
    if Fresh(Find(s, r.key), r.now) then Enforce(Put(s, r.key, Opening(r)), cap, r.now) else s
  }

  function Recorded(s: Store, key: string, c: Counter): Store
  {
    if key in s.entries then Put(s, key, c) else s
  }

  // ---- what the cap keeps ----------------------------------------------------------------

  lemma WithoutValid(s: Store, gone: seq<string>)
    requires Valid(s)
    ensures Valid(Without(s, gone))
  {
    PairedWithout(s.keys, s.entries, gone);
  }

  lemma ByResetIsPreorder(entries: map<string, Counter>, keys: seq<string>)
    requires Elems(keys) <= entries.Keys
    ensures Preorder(ByReset(entries), keys)
  {
    forall k | k in keys ensures k in entries { assert k in Elems(keys); }
  }

  lemma SoonestAreKeys(s: Store, n: nat)
    requires Valid(s) && n <= |s.keys|
    ensures Distinct(Soonest(s, n)) && Elems(Soonest(s, n)) <= Elems(s.keys)
  {
    UniqueDistinct(s.keys);
    SameElementsDistinct(s.keys, Sort(ByReset(s.entries), s.keys));
  }

  // What enforcing the cap leaves is what was there, cap met; and all of it if the cap was met.
  lemma EnforceMeetsCap(s: Store, cap: nat, now: int)
    requires Valid(s)
    ensures Valid(Enforce(s, cap, now)) && |Enforce(s, cap, now).keys| <= cap
    ensures |s.keys| <= cap ==> Enforce(s, cap, now) == s
  {
    WithoutValid(s, Filter(IsOver(s.entries, now), s.keys));
    TrimMeetsCap(Purge(s, now), cap);
  }

  lemma TrimMeetsCap(s: Store, cap: nat)
    requires Valid(s)
    ensures Valid(Trim(s, cap)) && |Trim(s, cap).keys| <= cap
  {
    if |s.keys| > cap {
      EvictedSize(s, |s.keys| - cap);
    }
  }

  lemma EvictedSize(s: Store, n: nat)
    requires Valid(s) && n <= |s.keys|
    ensures Valid(Without(s, Soonest(s, n))) && |Without(s, Soonest(s, n)).keys| == |s.keys| - n
  {
    SoonestAreKeys(s, n);
    UniqueDistinct(s.keys);
    KeptSize(s.keys, Soonest(s, n));
    WithoutValid(s, Soonest(s, n));
  }

  // A counter goes only if it has expired, or every expired one is gone and the cap is still not
  // met; then just as many go as it takes, and none that ends later than one that stays.
  lemma EnforceOrder(s: Store, cap: nat, now: int, out: string, kept: string)
    requires Valid(s) && out in s.entries && out !in Enforce(s, cap, now).entries
             && kept in Enforce(s, cap, now).entries
    ensures now < s.entries[kept].resetAt
    ensures now >= s.entries[out].resetAt
            || (s.entries[out].resetAt <= s.entries[kept].resetAt && |Enforce(s, cap, now).keys| == cap)
  {
    PurgeDropsExpired(s, now);
    if out in Purge(s, now).entries {
      WithoutValid(s, Filter(IsOver(s.entries, now), s.keys));
      TrimOrder(Purge(s, now), cap, out, kept);
    }
  }

  lemma PurgeDropsExpired(s: Store, now: int)
    requires Valid(s)
    ensures forall k :: k in Purge(s, now).entries <==> k in s.entries && now < s.entries[k].resetAt
    ensures forall k | k in Purge(s, now).entries :: Purge(s, now).entries[k] == s.entries[k]
  {
    FilterIn(IsOver(s.entries, now), s.keys);
    forall k ensures k in Elems(s.keys) <==> k in s.entries {}
  }

  lemma TrimOrder(s: Store, cap: nat, out: string, kept: string)
    requires Valid(s) && out in s.entries && out !in Trim(s, cap).entries && kept in Trim(s, cap).entries
    ensures kept in s.entries && s.entries[out].resetAt <= s.entries[kept].resetAt && |Trim(s, cap).keys| == cap
  {
    assert out in Elems(s.keys) && kept in Elems(s.keys);
    SoonestFirst(s, |s.keys| - cap, out, kept);
    EvictedSize(s, |s.keys| - cap);
  }

  lemma SoonestFirst(s: Store, n: nat, out: string, kept: string)
    requires Valid(s) && n <= |s.keys| && out in Soonest(s, n) && kept in s.keys && kept !in Soonest(s, n)
    ensures kept in s.entries && out in s.entries && s.entries[out].resetAt <= s.entries[kept].resetAt
  {
    var sorted := Sort(ByReset(s.entries), s.keys);
    ByResetIsPreorder(s.entries, s.keys);
    SortAscends(ByReset(s.entries), s.keys, s.keys);
    SameElements(sorted, s.keys);
    SplitAscends(ByReset(s.entries), sorted, n, out, kept);
    assert out in Elems(s.keys) && kept in Elems(s.keys);
  }

  lemma SplitAscends<T>(cmp: (T, T) -> int, sorted: seq<T>, n: nat, a: T, b: T)
    requires Ascending(cmp, sorted) && n <= |sorted| && a in sorted[..n] && b in sorted && b !in sorted[..n]
    ensures cmp(a, b) <= 0 && a in sorted
  {
    var i :| 0 <= i < n && sorted[i] == a;
    var j :| 0 <= j < |sorted| && sorted[j] == b;
    forall h | 0 <= h < n ensures sorted[h] != b {
      assert sorted[..n][h] != b;
    }
  }

  // ---- the middleware --------------------------------------------------------------------

  class Limiter {
    var keys: seq<string>
    var entries: map<string, Counter>
    const cap: nat

    ghost function View(): Store
      reads this
    {
      Store(keys, entries)
    }

    constructor (cap: nat)
      ensures View() == Store([], map[]) && this.cap == cap
    {
      keys, entries := [], map[];
      this.cap := cap;
    }

    method Middleware(r: Request) returns (reply: Reply)
      requires Valid(View()) && |keys| <= cap
      modifies this
      ensures (View(), reply) == Handle(old(View()), r, cap)
      ensures Valid(View()) && |keys| <= cap
    {
      var entry := FindOrOpen(r);
      entry := Counter(entry.count + 1, entry.resetAt);
      CountRequest(r.key, entry);
      reply := Answer(r, entry);
    }

    method FindOrOpen(r: Request) returns (entry: Counter)
      requires Valid(View()) && |keys| <= cap
      modifies this
      ensures View() == Opened(old(View()), r, cap)
      ensures entry == Current(Find(old(View()), r.key), r)
      ensures Valid(View()) && |keys| <= cap
    {
      if r.key !in entries || r.now >= entries[r.key].resetAt {
        entry := Counter(0, r.now + r.windowMs);
        Open(r, entry);
      } else {
        entry := entries[r.key];
      }
    }

    method Open(r: Request, entry: Counter)
      requires Valid(View()) && Fresh(Find(View(), r.key), r.now) && entry == Opening(r)
      modifies this
      ensures View() == Opened(old(View()), r, cap) && Valid(View()) && |keys| <= cap
    {
      SetEntry(r.key, entry);
      EnforceStoreCap(r.now);
    }

    // The counter object is counted even when it is no longer stored.
    method CountRequest(key: string, entry: Counter)
      requires Valid(View()) && |keys| <= cap
      modifies this
      ensures View() == Recorded(old(View()), key, entry)
      ensures Valid(View()) && |keys| <= cap
    {
      if key in entries {
        SetEntry(key, entry);
      }
    }

    method Answer(r: Request, entry: Counter) returns (reply: Reply)
      ensures reply == ReplyFor(entry, r)
    {
      var limit := r.max;
      if r.ceiling.Some? && r.ceiling.value > 0 {
        limit := Min(limit, r.ceiling.value);
      }
      reply := Reply(limit, Max(0, limit - entry.count), CeilDiv(entry.resetAt, 1000), None);
      if entry.count > limit {
        reply := reply.(retryAfter := Some(CeilDiv(entry.resetAt - r.now, 1000)));
      }
    }

    method SetEntry(key: string, c: Counter)
      requires Valid(View())
      modifies this
      ensures View() == Put(old(View()), key, c) && Valid(View())
    {
      PairedPut(keys, entries, key, c);
      if key !in entries {
        keys := keys + [key];
      }
      entries := entries[key := c];
    }

    method Remove(key: string)
      modifies this
      ensures View() == Without(old(View()), [key])
    {
      keys := Kept(keys, [key]);
      entries := entries - {key};
    }

    method EnforceStoreCap(now: int)
      requires Valid(View())
      modifies this
      ensures View() == Enforce(old(View()), cap, now) && Valid(View()) && |keys| <= cap
    {
      if |keys| <= cap {
        return;
      }
      DropExpired(now);
      EvictOverflow();
    }

    method EvictOverflow()
      requires Valid(View())
      modifies this
      ensures View() == Trim(old(View()), cap) && Valid(View()) && |keys| <= cap
    {
      TrimMeetsCap(View(), cap);
      if |keys| > cap {
        EvictSoonest(|keys| - cap);
      }
    }

    method DropExpired(now: int)
      requires Valid(View())
      modifies this
      ensures View() == Purge(old(View()), now) && Valid(View())
    {
      ghost var s := View();
      var stored := keys;
      var i := 0;
      WithoutNone(s);
      while i < |stored|
        invariant 0 <= i <= |stored| && stored == s.keys
        invariant View() == Purged(s, now, i)
      {
        ghost var next := i + 1;
        PurgeKey(s, stored[i], i, next, now);
        i := i + 1;
      }
      assert stored[..i] == stored;
      WithoutValid(s, Filter(IsOver(s.entries, now), s.keys));
    }

    method PurgeKey(ghost s: Store, key: string, ghost i: nat, ghost next: nat, now: int)
      requires Valid(s) && i < |s.keys| && key == s.keys[i] && next == i + 1 && View() == Purged(s, now, i)
      modifies this
      ensures View() == Purged(s, now, next)
    {
      PurgeStep(s, now, i);
      if now >= entries[key].resetAt {
        Remove(key);
      }
    }

    method RemoveNext(ghost s: Store, ghost gone: seq<string>, key: string)
      requires View() == Without(s, gone)
      modifies this
      ensures View() == Without(s, gone + [key])
    {
      WithoutOneMore(s, gone, key);
      Remove(key);
    }

    method EvictSoonest(toEvict: nat)
      requires Valid(View()) && toEvict <= |keys|
      modifies this
      ensures View() == Without(old(View()), Soonest(old(View()), toEvict))
    {
      var byExpiry := Sort(ByReset(entries), keys);
      EvictFirst(byExpiry, toEvict);
    }

    method EvictFirst(order: seq<string>, toEvict: nat)
      requires toEvict <= |order|
      modifies this
      ensures View() == Without(old(View()), order[..toEvict])
    {
      ghost var s, gone := View(), [];
      var i := 0;
      WithoutNone(s);
      while i < toEvict
        invariant 0 <= i <= toEvict
        invariant gone == order[..i] && View() == Without(s, gone)
      {
        RemoveNext(s, gone, order[i]);
        gone := gone + [order[i]];
        i := i + 1;
      }
    }
  }

  // The store after the purge has looked at the first i keys.
  ghost function Purged(s: Store, now: int, i: nat): Store
    requires i <= |s.keys|
  {
    Without(s, Filter(IsOver(s.entries, now), s.keys[..i]))
  }

  lemma WithoutNone(s: Store)
    ensures Without(s, []) == s
  {
    KeptNone(s.keys);
    assert s.entries - Elems([]) == s.entries;
  }

  lemma WithoutOneMore(s: Store, gone: seq<string>, key: string)
    ensures Without(s, gone + [key]) == Without(Without(s, gone), [key])
  {
    KeptOneFewer(s.keys, gone, key);
    AppendElems(gone, key);
    AppendElems([], key);
    assert [] + [key] == [key];
    assert s.entries - (Elems(gone) + {key}) == (s.entries - Elems(gone)) - Elems([key]);
  }

  lemma PurgeStep(s: Store, now: int, i: nat)
    requires Valid(s) && i < |s.keys|
    ensures var t, k := Purged(s, now, i), s.keys[i];
            k in t.entries && Purged(s, now, i + 1) == if now >= t.entries[k].resetAt then Without(t, [k]) else t
  {
    var k, gone := s.keys[i], Filter(IsOver(s.entries, now), s.keys[..i]);
    NextKey(s, now, i);
    WithoutOneMore(s, gone, k);
  }

  lemma NextKey(s: Store, now: int, i: nat)
    requires Valid(s) && i < |s.keys|
    ensures var gone, k := Filter(IsOver(s.entries, now), s.keys[..i]), s.keys[i];
            && k in s.entries && k in (s.entries - Elems(gone))
            && Filter(IsOver(s.entries, now), s.keys[..i + 1])
               == if now >= s.entries[k].resetAt then gone + [k] else gone
  {
    var k := s.keys[i];
    assert k in Elems(s.keys);
    UniqueDistinct(s.keys);
    assert k !in s.keys[..i];
    assert s.keys[..i + 1] == s.keys[..i] + [k];
    FilterAppend(IsOver(s.entries, now), s.keys[..i], [k]);
    FilterIn(IsOver(s.entries, now), s.keys[..i]);
    FilterOne(IsOver(s.entries, now), k);
  }
}
