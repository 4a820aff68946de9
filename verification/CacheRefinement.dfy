/**
 The bounded store against an unbounded TTL map: the same answers, except for live entries the
 cap pushed out; and none is pushed out while the keys in use fit under the cap.
 */
module CacheRefinement {
  import opened Common
  import opened OrderedMap
  import opened Cache

  datatype Op<V> =
    | Get(key: string)
    | Set(key: string, value: Option<V>, ttl: int)
    | Del(key: string)
    | DelPattern(matches: string -> bool)
    | Flush

  // One call: when it happens and the cap in force.
  datatype Call<V> = Call(op: Op<V>, now: int, cap: nat)

  function Step<V>(s: Store<V>, c: Call<V>, defaultTtl: int): Store<V>
    requires c.cap >= 1
  {
    match c.op
    case Get(key) => Lookup(s, key, c.now).0
    case Set(key, value, ttl) => MemorySet(s, key, MakeEntry(value, ttl, defaultTtl, c.now), c.cap, c.now)
    case Del(key) => Delete(s, key)
    case DelPattern(matches) => DeleteMatching(s, matches)
    case Flush => Empty<V>().(evictions := s.evictions)
  }

  // ---- the unbounded map -----------------------------------------------------------------

  // What was asked for: the value, the ttl in seconds as it was given, and when.
  datatype Write<V> = Write(value: Option<V>, ttl: int, setAt: int)

  type Reference<V> = map<string, Write<V>>

  // A value lasts for its ttl, or for the default if it was given none; for ever if that is not
  // positive.
  predicate Lasts<V>(w: Write<V>, defaultTtl: int, now: int)
  {
    var ttl := if w.ttl != 0 then w.ttl else defaultTtl;
    ttl <= 0 || now <= w.setAt + 1000 * ttl
  }

  function RefStep<V>(r: Reference<V>, c: Call<V>): Reference<V>
  {
    match c.op
    case Get(key) => r
    case Set(key, value, ttl) => r[key := Write(value, ttl, c.now)]
    case Del(key) => r - {key}
    case DelPattern(matches) => map k | k in r && !matches(k) :: r[k]
    case Flush => map[]
  }

  function RefGet<V>(r: Reference<V>, key: string, defaultTtl: int, now: int): Option<V>
  {
    if key in r && Lasts(r[key], defaultTtl, now) then r[key].value else None
  }

  // The keys of the live entries that make room for a new one.
  function Pushed<V>(s: Store<V>, cap: nat, now: int): set<string>
    requires cap >= 1
  {
    set k | k in Victims(s, cap, now) && k in s.entries && !Expired(s.entries[k], now)
  }

  // The keys whose live entry the cap has pushed out, until they are set again or removed.
  function LostStep<V>(s: Store<V>, lost: set<string>, c: Call<V>): set<string>
    requires c.cap >= 1
  {
    match c.op
    case Get(key) => lost
    case Set(key, value, ttl) =>
      if key in s.entries then lost - {key}
      else (lost + Pushed(s, c.cap, c.now)) - {key}
    case Del(key) => lost - {key}
    case DelPattern(matches) => set k | k in lost && !matches(k)
    case Flush => {}
  }

  // An entry holds what was asked for until just when it was to last.
  predicate Holds<V(==)>(e: Entry<V>, w: Write<V>, defaultTtl: int)
  {
    var ttl := if w.ttl != 0 then w.ttl else defaultTtl;
    e.value == w.value && w.setAt >= 0 && e.expiry == if ttl > 0 then Some(w.setAt + 1000 * ttl) else None
  }

  lemma HoldsWhileItLasts<V>(e: Entry<V>, w: Write<V>, defaultTtl: int, now: int)
    requires Holds(e, w, defaultTtl)
    ensures Expired(e, now) <==> !Lasts(w, defaultTtl, now)
  {}

  // What is stored is what the map holds; what the map holds besides is lost or out of date.
  ghost predicate Refines<V>(
    entries: map<string, Entry<V>>, r: Reference<V>, lost: set<string>, defaultTtl: int, now: int)
  {
    && (forall k | k in entries :: k in r && Holds(entries[k], r[k], defaultTtl) && k !in lost)
    && (forall k | k in r && k !in entries :: k in lost || !Lasts(r[k], defaultTtl, now))
    && (forall k | k in lost :: k in r)
  }

  lemma RefinesLater<V>(
    entries: map<string, Entry<V>>, r: Reference<V>, lost: set<string>, defaultTtl: int, now: int, later: int)
    requires Refines(entries, r, lost, defaultTtl, now) && now <= later
    ensures Refines(entries, r, lost, defaultTtl, later)
  {}

  // A get answers what the unbounded map answers, or nothing for a lost key.
  lemma GetAgrees<V>(
    s: Store<V>, r: Reference<V>, lost: set<string>, key: string, defaultTtl: int, now: int)
    requires Refines(s.entries, r, lost, defaultTtl, now)
    ensures Lookup(s, key, now).1 == if key in lost then None else RefGet(r, key, defaultTtl, now)
  {
    if key in s.entries {
      HoldsWhileItLasts(s.entries[key], r[key], defaultTtl, now);
    }
  }

  lemma SetRefines<V>(
    entries: map<string, Entry<V>>, gone: seq<string>, r: Reference<V>, lost: set<string>, pushed: set<string>,
    key: string, e: Entry<V>, w: Write<V>, defaultTtl: int, now: int)
    requires Holds(e, w, defaultTtl)
    requires Refines(entries, r, lost, defaultTtl, now) && key !in entries
    requires forall k :: k in pushed <==> k in gone && k in entries && !Expired(entries[k], now)
    ensures Refines((entries - Elems(gone))[key := e], r[key := w], (lost + pushed) - {key}, defaultTtl, now)
  {}

  lemma StepRefines<V>(s: Store<V>, r: Reference<V>, lost: set<string>, c: Call<V>, defaultTtl: int)
    requires Refines(s.entries, r, lost, defaultTtl, c.now) && c.cap >= 1 && c.now >= 0
    ensures Refines(Step(s, c, defaultTtl).entries, RefStep(r, c), LostStep(s, lost, c), defaultTtl, c.now)
  {
    match c.op
    case Get(key) => {}
    case Set(key, value, ttl) =>
      var e := MakeEntry(value, ttl, defaultTtl, c.now);
      if key !in s.entries {
        SetRefines(s.entries, Victims(s, c.cap, c.now), r, lost, Pushed(s, c.cap, c.now), key, e,
                   Write(value, ttl, c.now), defaultTtl, c.now);
      }
    case Del(key) => {}
    case DelPattern(matches) => {}
    case Flush => {}
  }

  lemma StepValid<V>(s: Store<V>, c: Call<V>, defaultTtl: int)
    requires Valid(s) && c.cap >= 1
    ensures Valid(Step(s, c, defaultTtl))
    ensures |s.keys| <= c.cap ==> |Step(s, c, defaultTtl).keys| <= c.cap
  {
    match c.op
    case Get(key) => DeleteValid(s, key);
    case Set(key, value, ttl) => MemorySetValid(s, key, MakeEntry(value, ttl, defaultTtl, c.now), c.cap, c.now);
    case Del(key) => DeleteValid(s, key);
    case DelPattern(matches) => DeleteMatchingValid(s, matches);
    case Flush => {}
  }

  // ---- runs ------------------------------------------------------------------------------

  // Calls in the order they are made, on a clock that counts from the epoch and never goes back.
  ghost predicate Timely<V>(calls: seq<Call<V>>, now: int)
  {
    && 0 <= now
    && (forall i :: 0 <= i < |calls| ==> calls[i].cap >= 1 && now <= calls[i].now)
    && (forall i, j :: 0 <= i < j < |calls| ==> calls[i].now <= calls[j].now)
  }

  function Run<V>(s: Store<V>, calls: seq<Call<V>>, defaultTtl: int): Store<V>
    requires forall i :: 0 <= i < |calls| ==> calls[i].cap >= 1
    decreases |calls|
  {
    if calls == [] then s else Run(Step(s, calls[0], defaultTtl), calls[1..], defaultTtl)
  }

  function RefRun<V>(r: Reference<V>, calls: seq<Call<V>>): Reference<V>
    decreases |calls|
  {
    if calls == [] then r else RefRun(RefStep(r, calls[0]), calls[1..])
  }

  function LostRun<V>(s: Store<V>, lost: set<string>, calls: seq<Call<V>>, defaultTtl: int): set<string>
    requires forall i :: 0 <= i < |calls| ==> calls[i].cap >= 1
    decreases |calls|
  {
    if calls == [] then lost
    else LostRun(Step(s, calls[0], defaultTtl), LostStep(s, lost, calls[0]), calls[1..], defaultTtl)
  }

  lemma {:induction false} RunRefines<V>(
    s: Store<V>, r: Reference<V>, lost: set<string>, calls: seq<Call<V>>, defaultTtl: int, now: int, end: int)
    requires Refines(s.entries, r, lost, defaultTtl, now) && Valid(s) && now <= end
    requires Timely(calls, now) && forall i :: 0 <= i < |calls| ==> calls[i].now <= end
    ensures Refines(Run(s, calls, defaultTtl).entries,
                    RefRun(r, calls), LostRun(s, lost, calls, defaultTtl), defaultTtl, end)
    ensures Valid(Run(s, calls, defaultTtl))
    decreases |calls|
  {
    if calls == [] {
      RefinesLater(s.entries, r, lost, defaultTtl, now, end);
    } else {
      var c := calls[0];
      RefinesLater(s.entries, r, lost, defaultTtl, now, c.now);
      StepRefines(s, r, lost, c, defaultTtl);
      StepValid(s, c, defaultTtl);
      RunRefines(Step(s, c, defaultTtl), RefStep(r, c), LostStep(s, lost, c),
                 calls[1..], defaultTtl, c.now, end);
    }
  }

  // After any calls at all on an empty cache, a get answers the latest value set under the key
  // and neither deleted, flushed nor expired since, or nothing; nothing only if that is the
  // answer, or the cap has pushed the entry out.
  lemma CacheAgreesWithMap<V>(calls: seq<Call<V>>, defaultTtl: int, key: string, now: int, end: int)
    requires Timely(calls, now) && now <= end && forall i :: 0 <= i < |calls| ==> calls[i].now <= end
    ensures var answer := Lookup(Run(Empty<V>(), calls, defaultTtl), key, end).1;
            answer == if key in LostRun(Empty<V>(), {}, calls, defaultTtl) then None
                      else RefGet(RefRun(map[], calls), key, defaultTtl, end)
  {
    RunRefines(Empty<V>(), map[], {}, calls, defaultTtl, now, end);
    GetAgrees(Run(Empty<V>(), calls, defaultTtl), RefRun(map[], calls),
              LostRun(Empty<V>(), {}, calls, defaultTtl), key, defaultTtl, end);
  }

  // At a constant cap the store never outgrows it.
  lemma {:induction false} NeverOverCap<V>(s: Store<V>, calls: seq<Call<V>>, defaultTtl: int, cap: nat)
    requires Valid(s) && |s.keys| <= cap && cap >= 1
    requires forall i :: 0 <= i < |calls| ==> calls[i].cap == cap
    ensures |Run(s, calls, defaultTtl).keys| <= cap
    decreases |calls|
  {
    if calls != [] {
      StepValid(s, calls[0], defaultTtl);
      NeverOverCap(Step(s, calls[0], defaultTtl), calls[1..], defaultTtl, cap);
    }
  }

  // ---- when nothing is lost --------------------------------------------------------------

  function LiveKeys<V>(r: Reference<V>, defaultTtl: int, now: int): set<string>
  {
    set k | k in r && Lasts(r[k], defaultTtl, now)
  }

  // After each call, the entries that have not expired number no more than the cap.
  ghost predicate Fits<V>(r: Reference<V>, calls: seq<Call<V>>, defaultTtl: int)
    decreases |calls|
  {
    calls == [] ||
    var next := RefStep(r, calls[0]);
    |LiveKeys(next, defaultTtl, calls[0].now)| <= calls[0].cap && Fits(next, calls[1..], defaultTtl)
  }

  // No call pushes out a live entry.
  ghost predicate NothingLost<V>(s: Store<V>, calls: seq<Call<V>>, defaultTtl: int)
    requires forall i :: 0 <= i < |calls| ==> calls[i].cap >= 1
    decreases |calls|
  {
    calls == []
    || (LostStep(s, {}, calls[0]) == {} && NothingLost(Step(s, calls[0], defaultTtl), calls[1..], defaultTtl))
  }

  // With nothing lost, the live entries stored are those of the map.
  lemma LiveStored<V>(s: Store<V>, r: Reference<V>, defaultTtl: int, now: int)
    requires Valid(s) && Refines(s.entries, r, {}, defaultTtl, now)
    ensures Elems(Filter(IsLive(s.entries, now), s.keys)) == LiveKeys(r, defaultTtl, now)
    ensures |Filter(IsLive(s.entries, now), s.keys)| == |LiveKeys(r, defaultTtl, now)|
  {
    var live := Filter(IsLive(s.entries, now), s.keys);
    FilterIn(IsLive(s.entries, now), s.keys);
    UniqueDistinct(s.keys);
    FilterDistinct(IsLive(s.entries, now), s.keys);
    DistinctSize(live);
    forall k ensures k in Elems(live) <==> k in LiveKeys(r, defaultTtl, now) {
      assert k in Elems(s.keys) <==> k in s.entries;
      if k in s.entries {
        HoldsWhileItLasts(s.entries[k], r[k], defaultTtl, now);
      }
    }
  }

  lemma SetMakesLive<V>(r: Reference<V>, c: Call<V>, defaultTtl: int)
    requires c.op.Set?
    ensures LiveKeys(RefStep(r, c), defaultTtl, c.now) == LiveKeys(r, defaultTtl, c.now) + {c.op.key}
  {}

  // A new key pushes out a live entry exactly if `cap` live entries are stored.
  lemma PushedIffFull<V>(s: Store<V>, cap: nat, now: int)
    requires Valid(s) && cap >= 1
    ensures Pushed(s, cap, now) == {} <==> |Filter(IsLive(s.entries, now), s.keys)| < cap
  {
    var dead, live := Filter(IsDead(s.entries, now), s.keys), Filter(IsLive(s.entries, now), s.keys);
    if |live| < cap {
      forall k | k in Victims(s, cap, now) && k in s.entries ensures Expired(s.entries[k], now) {
        if !Expired(s.entries[k], now) {
          assert k in Elems(s.keys);
          var i :| 0 <= i < |s.keys| && s.keys[i] == k;
          LiveVictims(s, cap, now, i);
        }
      }
    } else {
      FilterSplits(IsDead(s.entries, now), IsLive(s.entries, now), s.keys);
      FilterIn(IsLive(s.entries, now), s.keys);
      assert Victims(s, cap, now)[|dead|] == live[0];
      assert live[0] in live && live[0] in Elems(s.keys);
      assert live[0] in Pushed(s, cap, now);
    }
  }

  // A call loses nothing while the live entries fit.
  lemma NoneLost<V>(s: Store<V>, r: Reference<V>, c: Call<V>, defaultTtl: int)
    requires Valid(s) && c.cap >= 1 && Refines(s.entries, r, {}, defaultTtl, c.now)
    requires |LiveKeys(RefStep(r, c), defaultTtl, c.now)| <= c.cap
    ensures LostStep(s, {}, c) == {}
  {
    if c.op.Set? && c.op.key !in s.entries {
      LiveStored(s, r, defaultTtl, c.now);
      SetMakesLive(r, c, defaultTtl);
      PushedIffFull(s, c.cap, c.now);
    }
  }

  // Nor does one that loses nothing leave more than fit, if the store was within its cap.
  lemma LiveFit<V>(s: Store<V>, r: Reference<V>, c: Call<V>, defaultTtl: int)
    requires Valid(s) && c.cap >= 1 && |s.keys| <= c.cap && Refines(s.entries, r, {}, defaultTtl, c.now)
    requires LostStep(s, {}, c) == {}
    ensures |LiveKeys(RefStep(r, c), defaultTtl, c.now)| <= c.cap
  {
    LiveStored(s, r, defaultTtl, c.now);
    if c.op.Set? {
      SetMakesLive(r, c, defaultTtl);
      if c.op.key !in s.entries {
        assert LostStep(s, {}, c) == Pushed(s, c.cap, c.now) - {c.op.key};
        assert c.op.key !in Pushed(s, c.cap, c.now);
        PushedIffFull(s, c.cap, c.now);
      } else {
        DistinctKeys(s, LiveKeys(r, defaultTtl, c.now) + {c.op.key});
      }
    } else {
      SubsetSize(LiveKeys(RefStep(r, c), defaultTtl, c.now), LiveKeys(r, defaultTtl, c.now));
    }
  }

  lemma DistinctKeys<V>(s: Store<V>, some: set<string>)
    requires Valid(s) && some <= s.entries.Keys
    ensures |some| <= |s.keys|
  {
    UniqueDistinct(s.keys);
    DistinctSize(s.keys);
    SubsetSize(some, Elems(s.keys));
  }

  lemma SubsetSize<T>(a: set<T>, b: set<T>)
    requires a <= b
    ensures |a| <= |b|
  {
    assert b == a + (b - a);
  }

  // While the live entries fit under the cap, which may change from call to call, nothing is lost.
  lemma {:induction false} ExactWhileItFits<V>(
    s: Store<V>, r: Reference<V>, calls: seq<Call<V>>, defaultTtl: int, now: int)
    requires Refines(s.entries, r, {}, defaultTtl, now) && Valid(s) && Timely(calls, now) && Fits(r, calls, defaultTtl)
    ensures NothingLost(s, calls, defaultTtl) && LostRun(s, {}, calls, defaultTtl) == {}
    decreases |calls|
  {
    if calls != [] {
      var c := calls[0];
      RefinesLater(s.entries, r, {}, defaultTtl, now, c.now);
      NoneLost(s, r, c, defaultTtl);
      StepRefines(s, r, {}, c, defaultTtl);
      StepValid(s, c, defaultTtl);
      ExactWhileItFits(Step(s, c, defaultTtl), RefStep(r, c), calls[1..], defaultTtl, c.now);
    }
  }

  // At a constant cap nothing is ever lost if and only if the live entries always fit.
  lemma {:induction false} NothingLostIffItFits<V>(s: Store<V>, r: Reference<V>, calls: seq<Call<V>>, defaultTtl: int,
                                                   cap: nat, now: int)
    requires Refines(s.entries, r, {}, defaultTtl, now) && Valid(s) && |s.keys| <= cap && cap >= 1 && Timely(calls, now)
    requires forall i :: 0 <= i < |calls| ==> calls[i].cap == cap
    ensures NothingLost(s, calls, defaultTtl) <==> Fits(r, calls, defaultTtl)
    decreases |calls|
  {
    if Fits(r, calls, defaultTtl) {
      ExactWhileItFits(s, r, calls, defaultTtl, now);
    } else if NothingLost(s, calls, defaultTtl) {
      var c := calls[0];
      RefinesLater(s.entries, r, {}, defaultTtl, now, c.now);
      LiveFit(s, r, c, defaultTtl);
      StepRefines(s, r, {}, c, defaultTtl);
      StepValid(s, c, defaultTtl);
      NothingLostIffItFits(Step(s, c, defaultTtl), RefStep(r, c), calls[1..], defaultTtl, cap, c.now);
    }
  }

  // While the live entries fit, the bounded cache is the unbounded map, however many keys have
  // come and expired.
  lemma FittingCacheIsTheMap<V>(calls: seq<Call<V>>, defaultTtl: int, key: string, now: int, end: int)
    requires Timely(calls, now) && now <= end && forall i :: 0 <= i < |calls| ==> calls[i].now <= end
    requires Fits(map[], calls, defaultTtl)
    ensures Lookup(Run(Empty<V>(), calls, defaultTtl), key, end).1 == RefGet(RefRun(map[], calls), key, defaultTtl, end)
  {
    CacheAgreesWithMap(calls, defaultTtl, key, now, end);
    ExactWhileItFits(Empty<V>(), map[], calls, defaultTtl, now);
  }
}
