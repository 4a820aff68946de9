/**
 The readings the aggregator keeps in memory: capped at every ingest, pruned by age in between.
 At any time the store holds the newest of the readings added and not yet out of age.
 */
module ReadingStore {
  import opened Common
  import opened OrderedMap
  import opened Sorting

  const MAX_BATCH_SIZE := 10000

  // What a caller hands in.
  datatype Draft = Draft(meterId: string, timestamp: int, value: real)

  datatype Reading = Reading(id: nat, meterId: string, timestamp: int, value: real)

  datatype AddError = NotReadings | BatchTooLarge(size: nat)

  function Stamp(drafts: seq<Draft>, nextId: nat): (r: seq<Reading>)
    ensures |r| == |drafts|
  {
    seq(|drafts|, i requires 0 <= i < |drafts| =>
      Reading(nextId + i, drafts[i].meterId, drafts[i].timestamp, drafts[i].value))
  }

  // Each reading is as it was handed in, under the next id.
  lemma StampedAsGiven(drafts: seq<Draft>, nextId: nat, i: nat)
    requires i < |drafts|
    ensures var r, d := Stamp(drafts, nextId)[i], drafts[i];
            r.id == nextId + i && r.meterId == d.meterId && r.timestamp == d.timestamp && r.value == d.value
  {}

  function ByTimestamp(): (Reading, Reading) -> int
  {
    (a: Reading, b: Reading) => a.timestamp - b.timestamp
  }

  function Oldest(rs: seq<Reading>, n: nat): seq<Reading>
    requires n <= |rs|
  {
    Sort(ByTimestamp(), rs)[..n]
  }

  function Ids(rs: seq<Reading>): set<nat>
  {
    set r | r in rs :: r.id
  }

  function IdNotIn(ids: set<nat>): Reading -> bool
  {
    (r: Reading) => r.id !in ids
  }

  // What the cap leaves of the stored readings.
  function Capped(rs: seq<Reading>, cap: nat): seq<Reading>
  {
    if |rs| <= cap then rs else Filter(IdNotIn(Ids(Oldest(rs, |rs| - cap))), rs)
  }

  function NotBefore(cutoff: int): Reading -> bool
  {
    (r: Reading) => r.timestamp >= cutoff
  }

  // ---- ids -------------------------------------------------------------------------------

  // Ids grow along the store and stay below the next one to give out.
  ghost predicate Numbered(rs: seq<Reading>, nextId: nat)
  {
    rs == [] || (Numbered(rs[..|rs| - 1], rs[|rs| - 1].id) && rs[|rs| - 1].id < nextId)
  }

  lemma {:induction false} NumberedBelow(rs: seq<Reading>, nextId: nat)
    requires Numbered(rs, nextId)
    ensures forall r | r in rs :: r.id < nextId
  {
    if rs != [] {
      var last := |rs| - 1;
      NumberedBelow(rs[..last], rs[last].id);
      assert rs == rs[..last] + [rs[last]];
    }
  }

  lemma {:induction false} NumberedFilter(keep: Reading -> bool, rs: seq<Reading>, nextId: nat)
    requires Numbered(rs, nextId)
    ensures Numbered(Filter(keep, rs), nextId)
  {
    if rs != [] {
      var last := |rs| - 1;
      var f := Filter(keep, rs[..last]);
      assert rs == rs[..last] + [rs[last]];
      FilterAppend(keep, rs[..last], [rs[last]]);
      FilterOne(keep, rs[last]);
      NumberedFilter(keep, rs[..last], rs[last].id);
      if keep(rs[last]) {
        assert (f + [rs[last]])[..|f|] == f;
      } else {
        NumberedMore(f, rs[last].id, nextId);
        assert f + [] == f;
      }
    }
  }

  lemma NumberedMore(rs: seq<Reading>, nextId: nat, more: nat)
    requires Numbered(rs, nextId) && nextId <= more
    ensures Numbered(rs, more)
  {}

  lemma {:induction false} NumberedStamp(rs: seq<Reading>, drafts: seq<Draft>, nextId: nat)
    requires Numbered(rs, nextId)
    ensures Numbered(rs + Stamp(drafts, nextId), nextId + |drafts|)
    decreases |drafts|
  {
    var all := rs + Stamp(drafts, nextId);
    if drafts == [] {
      assert all == rs;
    } else {
      var last := |drafts| - 1;
      NumberedStamp(rs, drafts[..last], nextId);
      assert all[..|all| - 1] == rs + Stamp(drafts[..last], nextId);
      assert all[|all| - 1] == Stamp(drafts, nextId)[last];
    }
  }

  // ---- the newest readings ---------------------------------------------------------------

  // Later by timestamp, and among equal timestamps by id.
  predicate Newer(a: Reading, b: Reading)
  {
    a.timestamp > b.timestamp || (a.timestamp == b.timestamp && a.id > b.id)
  }

  // `some` are the newest `cap` of `all`, or all of them.
  ghost predicate Newest(some: set<Reading>, all: set<Reading>, cap: nat)
  {
    && some <= all
    && |some| == (if |all| < cap then |all| else cap)
    && forall x, y | x in all && x !in some && y in some :: Newer(y, x)
  }

  lemma SubsetOfSize<T>(a: set<T>, b: set<T>)
    requires a <= b
    ensures |a| <= |b| && (|a| == |b| ==> a == b)
  {
    assert b == a + (b - a);
  }

  // Keeping the newest of what was kept and what is new is keeping the newest of everything.
  lemma NewestOfNewest(kept: set<Reading>, all: set<Reading>, more: set<Reading>, next: set<Reading>, cap: nat)
    requires Newest(kept, all, cap) && Newest(next, kept + more, cap)
    ensures Newest(next, all + more, cap)
  {
    SubsetOfSize(kept, all);
    SubsetOfSize(kept + more, all + more);
    SubsetOfSize(kept, kept + more);
    if kept != all {
      forall x, y | x in all + more && x !in next && y in next ensures Newer(y, x) {
        if x !in kept + more && y !in kept {
          var z := Displaced(kept, next, y);
          assert Newer(y, z) && Newer(z, x);
        }
      }
    }
  }

  // A newcomer among as many readings as before has displaced one of them.
  lemma Displaced(kept: set<Reading>, next: set<Reading>, y: Reading) returns (z: Reading)
    requires |kept| == |next| && y in next && y !in kept
    ensures z in kept && z !in next
  {
    if kept <= next {
      SubsetOfSize(kept, next);
      assert false;
    }
    z :| z in kept && z !in next;
  }

  function Aged(all: set<Reading>, cutoff: int): set<Reading>
  {
    set r | r in all && r.timestamp >= cutoff
  }

  lemma NewestAged(kept: set<Reading>, all: set<Reading>, cutoff: int, cap: nat)
    requires Newest(kept, all, cap)
    ensures Newest(Aged(kept, cutoff), Aged(all, cutoff), cap)
  {
    SubsetOfSize(Aged(kept, cutoff), kept);
    SubsetOfSize(Aged(kept, cutoff), Aged(all, cutoff));
    SubsetOfSize(kept, all);
    if x :| x in Aged(all, cutoff) && x !in kept {
      assert Aged(kept, cutoff) == kept;
    } else {
      assert Aged(kept, cutoff) == Aged(all, cutoff);
    }
  }

  // ---- what the cap leaves ---------------------------------------------------------------

  function Lexically(): (Reading, Reading) -> int
  {
    (a: Reading, b: Reading) => if a.timestamp != b.timestamp then a.timestamp - b.timestamp else a.id - b.id
  }

  // The sort by timestamp is stable, so readings added in order are sorted by id as well.
  lemma {:induction false} InsertLexically(x: Reading, rs: seq<Reading>)
    requires forall r | r in rs :: x.id < r.id
    ensures Insert(ByTimestamp(), x, rs) == Insert(Lexically(), x, rs)
  {
    if rs != [] {
      assert rs[0] in rs;
      InsertLexically(x, rs[1..]);
    }
  }

  ghost predicate IdsGrow(rs: seq<Reading>)
  {
    rs == [] || ((forall r | r in rs[1..] :: rs[0].id < r.id) && IdsGrow(rs[1..]))
  }

  lemma {:induction false} SortLexically(rs: seq<Reading>)
    requires IdsGrow(rs)
    ensures Sort(ByTimestamp(), rs) == Sort(Lexically(), rs)
  {
    if rs != [] {
      SortLexically(rs[1..]);
      SameElements(Sort(ByTimestamp(), rs[1..]), rs[1..]);
      InsertLexically(rs[0], Sort(ByTimestamp(), rs[1..]));
    }
  }

  lemma {:induction false} NumberedGrow(rs: seq<Reading>, nextId: nat)
    requires Numbered(rs, nextId)
    ensures IdsGrow(rs)
  {
    if rs != [] {
      var last := |rs| - 1;
      NumberedGrow(rs[..last], rs[last].id);
      NumberedBelow(rs[..last], rs[last].id);
      assert rs == rs[..last] + [rs[last]];
      GrowAppend(rs[..last], rs[last]);
    }
  }

  lemma {:induction false} GrowAppend(rs: seq<Reading>, x: Reading)
    requires IdsGrow(rs) && forall r | r in rs :: r.id < x.id
    ensures IdsGrow(rs + [x])
  {
    if rs != [] {
      assert (rs + [x])[1..] == rs[1..] + [x];
      GrowAppend(rs[1..], x);
    }
  }

  lemma {:induction false} GrowingIsUnique(rs: seq<Reading>)
    requires IdsGrow(rs)
    ensures Unique(rs)
  {
    if rs != [] {
      GrowingIsUnique(rs[1..]);
    }
  }

  lemma {:induction false} SameIdSameReading(rs: seq<Reading>)
    requires IdsGrow(rs)
    ensures forall a, b | a in rs && b in rs && a.id == b.id :: a == b
  {
    if rs != [] {
      SameIdSameReading(rs[1..]);
    }
  }

  lemma LexicallyOrders(rs: seq<Reading>)
    requires IdsGrow(rs)
    ensures Preorder(Lexically(), rs)
  {}

  lemma GrowingNoTies(rs: seq<Reading>)
    requires IdsGrow(rs)
    ensures NoTies(Lexically(), rs)
  {
    GrowingIsUnique(rs);
    SameIdSameReading(rs);
    UniqueDistinct(rs);
    forall i, j | 0 <= i < j < |rs| ensures Lexically()(rs[i], rs[j]) != 0 && Lexically()(rs[j], rs[i]) != 0 {
      assert rs[i] in rs && rs[j] in rs;
    }
  }

  // The sorted readings: a strictly ascending arrangement, oldest first.
  lemma SortedAscends(rs: seq<Reading>)
    requires IdsGrow(rs)
    ensures var s := Sort(ByTimestamp(), rs);
            Unique(s) && Elems(s) == Elems(rs) && |s| == |rs| && OldestFirst(s)
  {
    var s := Sort(ByTimestamp(), rs);
    GrowingIsUnique(rs);
    LexicallyOrders(rs);
    GrowingNoTies(rs);
    SortLexically(rs);
    SortStrict(Lexically(), rs, rs);
    UniqueDistinct(rs);
    SameElementsDistinct(rs, s);
    UniqueDistinct(s);
    StrictIsOldestFirst(s);
  }

  ghost predicate OldestFirst(s: seq<Reading>)
  {
    s == [] || ((forall x | x in s[1..] :: Newer(x, s[0])) && OldestFirst(s[1..]))
  }

  lemma {:induction false} StrictIsOldestFirst(s: seq<Reading>)
    requires Strict(Lexically(), s)
    ensures OldestFirst(s)
  {
    if s != [] {
      StrictIsOldestFirst(s[1..]);
      forall x | x in s[1..] ensures Newer(x, s[0]) {
        assert Lexically()(s[0], x) < 0;
      }
    }
  }

  lemma {:induction false} LaterIsNewer(s: seq<Reading>, n: nat, x: Reading, y: Reading)
    requires OldestFirst(s) && n <= |s| && x in s[..n] && y in s[n..]
    ensures Newer(y, x)
  {
    if x == s[0] {
      assert s[n..] == s[1..][n - 1..];
      InHalves(s[1..], n - 1, y);
    } else {
      assert s[..n] == [s[0]] + s[1..][..n - 1] && s[n..] == s[1..][n - 1..];
      LaterIsNewer(s[1..], n - 1, x, y);
    }
  }

  lemma CapNumbered(rs: seq<Reading>, nextId: nat, cap: nat)
    requires Numbered(rs, nextId)
    ensures Numbered(Capped(rs, cap), nextId)
  {
    if |rs| > cap {
      NumberedFilter(IdNotIn(Ids(Oldest(rs, |rs| - cap))), rs, nextId);
    }
  }

  // The cap keeps exactly the newest readings.
  lemma CapKeepsNewest(rs: seq<Reading>, cap: nat)
    requires IdsGrow(rs)
    ensures Newest(Elems(Capped(rs, cap)), Elems(rs), cap)
  {
    if |rs| <= cap {
      UniqueSize(rs);
      AllAreNewest(Elems(rs), cap);
    } else {
      SortedAscends(rs);
      CappedIsRest(rs, cap);
      RestIsNewest(Elems(rs), Sort(ByTimestamp(), rs), cap, Elems(Capped(rs, cap)));
    }
  }

  lemma AllAreNewest(all: set<Reading>, cap: nat)
    requires |all| <= cap
    ensures Newest(all, all, cap)
  {}

  lemma UniqueSize(rs: seq<Reading>)
    requires IdsGrow(rs)
    ensures |Elems(rs)| == |rs|
  {
    GrowingIsUnique(rs);
    UniqueDistinct(rs);
    DistinctSize(rs);
  }

  lemma CutIsRest(rs: seq<Reading>, s: seq<Reading>, n: nat)
    requires Unique(s) && Elems(s) == Elems(rs) && n <= |s| && IdsGrow(rs)
    ensures Elems(Filter(IdNotIn(Ids(s[..n])), rs)) == Elems(s[n..])
  {
    var keep := IdNotIn(Ids(s[..n]));
    FilterIn(keep, rs);
    SameIdSameReading(rs);
    UniqueSplit(s, n);
    forall x ensures x in Elems(Filter(keep, rs)) <==> x in Elems(s[n..]) {
      InHalves(s, n, x);
      assert x in Elems(s) <==> x in Elems(rs);
      if x in s[n..] {
        forall y | y in s[..n] ensures y.id != x.id {
          InHalves(s, n, y);
          assert y in Elems(s);
          assert y in Elems(rs);
        }
      }
    }
  }

  lemma CappedIsRest(rs: seq<Reading>, cap: nat)
    requires IdsGrow(rs) && cap < |rs|
    ensures Elems(Capped(rs, cap)) == Elems(Sort(ByTimestamp(), rs)[|rs| - cap..])
  {
    SortedAscends(rs);
    CutIsRest(rs, Sort(ByTimestamp(), rs), |rs| - cap);
  }

  lemma RestIsNewest(all: set<Reading>, s: seq<Reading>, cap: nat, rest: set<Reading>)
    requires Unique(s) && Elems(s) == all && OldestFirst(s) && cap < |s| && rest == Elems(s[|s| - cap..])
    ensures Newest(rest, all, cap)
  {
    var n := |s| - cap;
    UniqueDistinct(s);
    DistinctSize(s);
    UniqueSplit(s, n);
    forall x, y | x in all && x !in rest && y in rest ensures Newer(y, x) {
      InHalves(s, n, x);
      LaterIsNewer(s, n, x, y);
    }
    forall x | x in rest ensures x in all {
      InHalves(s, n, x);
    }
  }

  lemma InHalves<T>(s: seq<T>, n: nat, x: T)
    requires n <= |s|
    ensures x in s <==> x in s[..n] || x in s[n..]
  {
    assert s == s[..n] + s[n..];
  }

  lemma UniqueSplit<T>(s: seq<T>, n: nat)
    requires Unique(s) && n <= |s|
    ensures Unique(s[n..]) && |Elems(s[n..])| == |s| - n
    ensures forall x | x in s[n..] :: x !in s[..n]
  {
    UniqueDistinct(s);
    UniqueDistinct(s[n..]);
    DistinctSize(s[n..]);
    forall x | x in s[n..] ensures x !in s[..n] {
      var j :| 0 <= j < |s| - n && s[n..][j] == x;
      assert s[n + j] == x;
    }
  }

  // ---- the store -------------------------------------------------------------------------

  class Readings {
    var readings: seq<Reading>
    var nextId: nat
    const cap: nat
    // Every reading added since the store was last cleared, but those out of age at a sweep.
    ghost var added: set<Reading>

    ghost predicate Valid()
      reads this
    {
      Numbered(readings, nextId) && Newest(Elems(readings), added, cap) && (forall r | r in added :: r.id < nextId)
    }

    constructor (cap: nat)
      requires cap >= 1
      ensures Valid() && readings == [] && nextId == 1 && added == {} && this.cap == cap
    {
      readings, nextId, added := [], 1, {};
      this.cap := cap;
    }

    method AddReadings(data: Option<seq<Draft>>) returns (r: Result<seq<Reading>, AddError>)
      requires Valid()
      modifies this
      ensures Valid()
      ensures data.None? ==> r == Err(NotReadings)
      ensures data.Some? && |data.value| > MAX_BATCH_SIZE ==> r == Err(BatchTooLarge(|data.value|))
      ensures r.Err? ==> readings == old(readings) && nextId == old(nextId) && added == old(added)
      ensures data.Some? && |data.value| <= MAX_BATCH_SIZE ==>
                && r == Ok(Stamp(data.value, old(nextId)))
                && readings == Capped(old(readings) + r.value, cap)
                && nextId == old(nextId) + |data.value|
                && added == old(added) + Elems(r.value)
    {
      if data.None? {
        return Err(NotReadings);
      }
      if |data.value| > MAX_BATCH_SIZE {
        return Err(BatchTooLarge(|data.value|));
      }
      ghost var before := readings;
      var stored := StoreAll(data.value);
      AddValid(before, data.value, old(nextId), added, cap);
      DropOldest();
      added := added + Elems(stored);
      return Ok(stored);
    }

    method DropOldest()
      modifies this
      ensures readings == Capped(old(readings), cap) && nextId == old(nextId) && added == old(added)
    {
      if |readings| > cap {
        var oldest := Sort(ByTimestamp(), readings)[..|readings| - cap];
        var evictIds := Ids(oldest);
        readings := Filter(IdNotIn(evictIds), readings);
      }
    }

    // Each draft gets the next id.
    method StoreAll(drafts: seq<Draft>) returns (stored: seq<Reading>)
      modifies this
      ensures stored == Stamp(drafts, old(nextId)) && readings == old(readings) + stored
      ensures nextId == old(nextId) + |drafts| && added == old(added)
    {
      stored := [];
      var i := 0;
      while i < |drafts|
        invariant 0 <= i <= |drafts| && readings == old(readings) && added == old(added)
        invariant stored == Stamp(drafts, old(nextId))[..i] && nextId == old(nextId) + i
      {
        stored := stored + [Reading(nextId, drafts[i].meterId, drafts[i].timestamp, drafts[i].value)];
        nextId := nextId + 1;
        i := i + 1;
      }
      readings := readings + stored;
    }

    // The sweep: what is out of age goes, and ids are not given out again.
    method PruneOldReadings(now: int, retentionMs: int) returns (pruned: nat)
      requires Valid()
      modifies this
      ensures Valid() && nextId == old(nextId)
      ensures readings == Filter(NotBefore(now - retentionMs), old(readings)) && pruned == |old(readings)| - |readings|
      ensures added == Aged(old(added), now - retentionMs)
    {
      var cutoff := now - retentionMs;
      var before := |readings|;
      PruneValid(readings, nextId, added, cutoff, cap);
      readings := Filter(NotBefore(cutoff), readings);
      added := Aged(added, cutoff);
      pruned := before - |readings|;
    }

    method ClearReadings()
      modifies this
      ensures Valid() && readings == [] && nextId == 1 && added == {}
    {
      readings, nextId, added := [], 1, {};
    }
  }

  // Adding keeps what the store promises.
  lemma AddValid(before: seq<Reading>, drafts: seq<Draft>, nextId: nat, added: set<Reading>, cap: nat)
    requires Numbered(before, nextId) && Newest(Elems(before), added, cap) && forall r | r in added :: r.id < nextId
    ensures var stored := Stamp(drafts, nextId);
            && Numbered(Capped(before + stored, cap), nextId + |drafts|)
            && Newest(Elems(Capped(before + stored, cap)), added + Elems(stored), cap)
            && (forall r | r in added + Elems(stored) :: r.id < nextId + |drafts|)
  {
    var stored := Stamp(drafts, nextId);
    NumberedStamp(before, drafts, nextId);
    CapNumbered(before + stored, nextId + |drafts|, cap);
    NumberedGrow(before + stored, nextId + |drafts|);
    AddKeepsNewest(before, stored, added, cap);
    StampBelow(drafts, nextId);
  }

  lemma StampBelow(drafts: seq<Draft>, nextId: nat)
    ensures forall r | r in Stamp(drafts, nextId) :: r.id < nextId + |drafts|
  {}

  lemma AddKeepsNewest(before: seq<Reading>, stored: seq<Reading>, added: set<Reading>, cap: nat)
    requires Newest(Elems(before), added, cap) && IdsGrow(before + stored)
    ensures Newest(Elems(Capped(before + stored, cap)), added + Elems(stored), cap)
  {
    CapKeepsNewest(before + stored, cap);
    ElemsOfBoth(before, stored);
    NewestOfNewest(Elems(before), added, Elems(stored), Elems(Capped(before + stored, cap)), cap);
  }

  lemma ElemsOfBoth<T>(a: seq<T>, b: seq<T>)
    ensures Elems(a + b) == Elems(a) + Elems(b)
  {}

  lemma PruneValid(rs: seq<Reading>, nextId: nat, added: set<Reading>, cutoff: int, cap: nat)
    requires Numbered(rs, nextId) && Newest(Elems(rs), added, cap)
    ensures Numbered(Filter(NotBefore(cutoff), rs), nextId)
    ensures Newest(Elems(Filter(NotBefore(cutoff), rs)), Aged(added, cutoff), cap)
  {
    NumberedFilter(NotBefore(cutoff), rs, nextId);
    NewestAged(Elems(rs), added, cutoff, cap);
    FilterIn(NotBefore(cutoff), rs);
    assert Elems(Filter(NotBefore(cutoff), rs)) == Aged(Elems(rs), cutoff);
  }

  // The store never outgrows its cap.
  lemma StoreWithinCap(rs: seq<Reading>, nextId: nat, added: set<Reading>, cap: nat)
    requires Numbered(rs, nextId) && Newest(Elems(rs), added, cap)
    ensures |rs| <= cap && (|added| <= cap ==> Elems(rs) == added)
  {
    NumberedGrow(rs, nextId);
    UniqueSize(rs);
    SubsetOfSize(Elems(rs), added);
  }
}
