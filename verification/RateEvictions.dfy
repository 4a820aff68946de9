/**
 When the cap of the counter store does not matter: no running counter is ever evicted if and only
 if there is room for the windows that run at once.
 */
module RateEvictions {
  import opened Common
  import opened OrderedMap
  import opened RateLimiter
  import opened RateLimits

  // The counters of a limiter without a cap.
  type Counters = map<string, Counter>

  function FindIn(m: Counters, key: string): Option<Counter>
  {
    if key in m then Some(m[key]) else None
  }

  function Counted(m: Counters, r: Request): Counters
  {
    m[r.key := Serve(FindIn(m, r.key), r)]
  }

  // The clients whose window runs.
  function Running(m: Counters, now: int): set<string>
  {
    set k | k in m && now < m[k].resetAt
  }

  // Whenever a window opens, those that run, the new one included, number no more than the cap.
  ghost predicate Roomy(m: Counters, reqs: seq<Request>, cap: nat)
    decreases |reqs|
  {
    reqs == [] || (RoomFor(m, reqs[0], cap) && Roomy(Counted(m, reqs[0]), reqs[1..], cap))
  }

  predicate RoomFor(m: Counters, r: Request, cap: nat)
  {
    Fresh(FindIn(m, r.key), r.now) ==> |Running(Counted(m, r), r.now)| <= cap
  }

  // ---- one enforcement -------------------------------------------------------------------

  lemma KeysSize(s: Store)
    requires Valid(s)
    ensures |s.keys| == |s.entries.Keys|
  {
    UniqueDistinct(s.keys);
    DistinctSize(s.keys);
    assert Elems(s.keys) == s.entries.Keys;
  }

  lemma PurgeLeavesRunning(s: Store, now: int)
    requires Valid(s)
    ensures Valid(Purge(s, now)) && Purge(s, now).entries.Keys == Running(s.entries, now)
    ensures |Purge(s, now).keys| == |Running(s.entries, now)|
  {
    var p := Purge(s, now);
    PurgeDropsExpired(s, now);
    WithoutValid(s, Filter(IsOver(s.entries, now), s.keys));
    KeysSize(p);
    assert p.entries.Keys == Running(s.entries, now);
  }

  lemma EnforceIsPurge(s: Store, cap: nat, now: int)
    requires |s.keys| > cap && |Purge(s, now).keys| <= cap
    ensures Enforce(s, cap, now) == Purge(s, now)
  {}

  // Enforcing the cap keeps every running counter exactly if they meet it.
  lemma EnforceKeepsIff(s: Store, cap: nat, now: int)
    requires Valid(s)
    ensures Running(s.entries, now) <= Enforce(s, cap, now).entries.Keys <==> |Running(s.entries, now)| <= cap
  {
    EnforceMeetsCap(s, cap, now);
    KeysSize(Enforce(s, cap, now));
    if Running(s.entries, now) <= Enforce(s, cap, now).entries.Keys {
      SubsetSize(Running(s.entries, now), Enforce(s, cap, now).entries.Keys);
    }
    if |Running(s.entries, now)| <= cap < |s.keys| {
      PurgeLeavesRunning(s, now);
      EnforceIsPurge(s, cap, now);
    }
  }

  lemma {:induction false} SubsetSize(a: set<string>, b: set<string>)
    requires a <= b
    ensures |a| <= |b|
  {
    if a != {} {
      var x :| x in a;
      SubsetSize(a - {x}, b - {x});
    }
  }

  // ---- one request -----------------------------------------------------------------------

  // The two limiters agree on every client.
  ghost predicate Agree(s: Store, m: Counters, now: int)
  {
    forall key :: Same(Find(s, key), FindIn(m, key), now)
  }

  predicate StaysNow(s: Store, t: Store, r: Request, key: string)
  {
    r.key == key || !Fresh(Find(s, key), r.now) ==> key in t.entries
  }

  ghost predicate AllStayNow(s: Store, t: Store, r: Request)
  {
    forall key :: StaysNow(s, t, r, key)
  }

  lemma AgreeLater(s: Store, m: Counters, now: int, later: int)
    requires Agree(s, m, now) && now <= later
    ensures Agree(s, m, later)
  {
    forall key ensures Same(Find(s, key), FindIn(m, key), later) {
      assert Same(Find(s, key), FindIn(m, key), now);
    }
  }

  lemma RunningAfterOpening(s: Store, m: Counters, r: Request)
    requires Agree(s, m, r.now) && Fresh(FindIn(m, r.key), r.now) && r.windowMs >= 1
    ensures Fresh(Find(s, r.key), r.now)
    ensures Running(Put(s, r.key, Opening(r)).entries, r.now) == Running(Counted(m, r), r.now)
  {
    var a, b := Running(Put(s, r.key, Opening(r)).entries, r.now), Running(Counted(m, r), r.now);
    forall key ensures key in a <==> key in b {
      assert Same(Find(s, key), FindIn(m, key), r.now);
    }
    assert Same(Find(s, r.key), FindIn(m, r.key), r.now);
  }

  lemma RecordedKeys(s: Store, key: string, c: Counter)
    ensures Recorded(s, key, c).entries.Keys == s.entries.Keys
  {}

  lemma HandleKeys(s: Store, r: Request, cap: nat)
    ensures Handle(s, r, cap).0.entries.Keys == Opened(s, r, cap).entries.Keys
  {
    RecordedKeys(Opened(s, r, cap), r.key, Serve(Find(s, r.key), r));
  }

  // One request evicts no running counter exactly if there is room for it.
  lemma AllStayNowIff(s: Store, m: Counters, r: Request, cap: nat)
    requires Valid(s) && Agree(s, m, r.now) && r.windowMs >= 1
    ensures AllStayNow(s, Handle(s, r, cap).0, r) <==> RoomFor(m, r, cap)
  {
    assert Same(Find(s, r.key), FindIn(m, r.key), r.now);
    HandleKeys(s, r, cap);
    if Fresh(FindIn(m, r.key), r.now) {
      var p := Put(s, r.key, Opening(r));
      RunningAfterOpening(s, m, r);
      PutValid(s, r.key, Opening(r));
      EnforceKeepsIff(p, cap, r.now);
      FreshOpens(s, r, cap);
      StayIsKept(s, Handle(s, r, cap).0, r);
    }
  }

  lemma StayIsKept(s: Store, t: Store, r: Request)
    requires r.windowMs >= 1
    ensures AllStayNow(s, t, r) <==>
            Running(Put(s, r.key, Opening(r)).entries, r.now) <= t.entries.Keys
  {
    var running := Running(Put(s, r.key, Opening(r)).entries, r.now);
    if AllStayNow(s, t, r) {
      forall key | key in running ensures key in t.entries { assert StaysNow(s, t, r, key); }
    }
    if running <= t.entries.Keys {
      forall key ensures StaysNow(s, t, r, key) {
        assert r.key == key || !Fresh(Find(s, key), r.now) ==> key in running;
      }
    }
  }

  lemma AgreeStep(s: Store, m: Counters, r: Request, cap: nat)
    requires Valid(s) && Agree(s, m, r.now) && AllStayNow(s, Handle(s, r, cap).0, r)
    ensures Valid(Handle(s, r, cap).0) && Agree(Handle(s, r, cap).0, Counted(m, r), r.now)
  {
    var t := Handle(s, r, cap).0;
    HandleIsServe(s, r, cap, r.key);
    forall key ensures Same(Find(t, key), FindIn(Counted(m, r), key), r.now) {
      assert Same(Find(s, key), FindIn(m, key), r.now) && StaysNow(s, t, r, key);
      StepSame(s, FindIn(m, key), r, cap, key);
    }
  }

  // ---- whole sequences -------------------------------------------------------------------

  // The cap never evicts a counter whose window runs.
  ghost predicate AllStay(step: (Store, Request) -> (Store, Reply), s: Store, reqs: seq<Request>)
  {
    forall key :: Stays(step, s, reqs, key)
  }

  lemma AllStaySteps(step: (Store, Request) -> (Store, Reply), s: Store, reqs: seq<Request>)
    requires reqs != []
    ensures var t := step(s, reqs[0]).0;
            AllStay(step, s, reqs) <==> AllStayNow(s, t, reqs[0]) && AllStay(step, t, reqs[1..])
  {
    var t := step(s, reqs[0]).0;
    if AllStay(step, s, reqs) {
      forall key ensures StaysNow(s, t, reqs[0], key) && Stays(step, t, reqs[1..], key) {
        assert Stays(step, s, reqs, key);
      }
    }
    if AllStayNow(s, t, reqs[0]) && AllStay(step, t, reqs[1..]) {
      forall key ensures Stays(step, s, reqs, key) {
        assert StaysNow(s, t, reqs[0], key) && Stays(step, t, reqs[1..], key);
      }
    }
  }

  // No running counter is ever evicted if and only if there is always room for the windows of a
  // limiter without a cap.
  lemma {:induction false} AllStayIffRoomy(s: Store, m: Counters, reqs: seq<Request>, cap: nat, now: int)
    requires Valid(s) && Agree(s, m, now) && Timely(reqs, now) && forall r | r in reqs :: r.windowMs >= 1
    ensures AllStay(Limiting(cap), s, reqs) <==> Roomy(m, reqs, cap)
    decreases |reqs|
  {
    if reqs != [] {
      var r := reqs[0];
      assert r in reqs;
      AgreeLater(s, m, now, r.now);
      AllStayNowIff(s, m, r, cap);
      AllStaySteps(Limiting(cap), s, reqs);
      if RoomFor(m, r, cap) {
        AgreeStep(s, m, r, cap);
        AllStayIffRoomy(Handle(s, r, cap).0, Counted(m, r), reqs[1..], cap, r.now);
      }
    }
  }

  // So with room for every window, the bound holds of every client with nothing more assumed.
  lemma RoomyBounded(reqs: seq<Request>, cap: nat, key: string, from: int, W: nat, M: nat, now: int)
    requires Timely(reqs, now) && (forall r | r in reqs :: r.windowMs >= 1) && Roomy(map[], reqs, cap)
    requires Conforms(reqs, key, W, M) && M >= 1 && W >= 1
    ensures Admissions(Limiting(cap), Store([], map[]), reqs, key, from, from + W) <= 2 * M - 1
  {
    AllStayIffRoomy(Store([], map[]), map[], reqs, cap, now);
    assert Stays(Limiting(cap), Store([], map[]), reqs, key);
    AnyStretchBounded(Store([], map[]), reqs, cap, key, from, W, M, now);
  }
}
