/**
 What the limiter promises: how many requests of one client any stretch of time can admit, and
 that the wait it asks for is the wait it takes.
 */
module RateLimits {
  import opened Common
  import opened OrderedMap
  import opened Sorting
  import opened RateLimiter

  // Requests in the order they arrive, on a clock that never goes back.
  ghost predicate Timely(reqs: seq<Request>, now: int)
  {
    reqs == [] || (now <= reqs[0].now && Timely(reqs[1..], reqs[0].now))
  }

  // A limit as the tier and the runtime ceiling set it: that of the tier, unless there is a lower
  // ceiling; one of zero or less is none.
  predicate Allows(r: Request, limit: int)
  {
    match r.ceiling
    case None => limit == r.max
    case Some(c) => limit == if 0 < c < r.max then c else r.max
  }

  lemma AllowsIs(r: Request, limit: int)
    ensures Allows(r, limit) <==> limit == Limit(r)
  {}

  // The tier's window is always W long, and the tier or a ceiling allows the client M at most.
  ghost predicate Conforms(reqs: seq<Request>, key: string, W: int, M: nat)
  {
    reqs == [] || ((reqs[0].key == key ==> reqs[0].windowMs == W && AtMost(reqs[0], M))
      && Conforms(reqs[1..], key, W, M))
  }

  predicate AtMost(r: Request, M: int)
  {
    r.max <= M || (r.ceiling.Some? && 0 < r.ceiling.value <= M)
  }

  // The client is always allowed the same.
  ghost predicate Constant(reqs: seq<Request>, key: string, limit: nat)
  {
    reqs == [] || ((reqs[0].key == key ==> Allows(reqs[0], limit)) && Constant(reqs[1..], key, limit))
  }

  predicate Within(r: Request, key: string, from: int, to: int)
  {
    r.key == key && from <= r.now < to
  }

  // A limiter with its cap, as a step from one store to the next.
  function Limiting(cap: nat): (Store, Request) -> (Store, Reply)
  {
    (s, r) => Handle(s, r, cap)
  }

  // How many of the client's requests in [from, to) the limiter lets through.
  function Admissions(
    step: (Store, Request) -> (Store, Reply), s: Store, reqs: seq<Request>, key: string, from: int, to: int): nat
    decreases |reqs|
  {
    if reqs == [] then 0
    else
      var (t, reply) := step(s, reqs[0]);
      (if Within(reqs[0], key, from, to) && reply.retryAfter.None? then 1 else 0)
        + Admissions(step, t, reqs[1..], key, from, to)
  }

  // The same for a counter no other client can disturb.
  function Alone(c: Option<Counter>, reqs: seq<Request>, key: string, from: int, to: int): nat
    decreases |reqs|
  {
    if reqs == [] then 0
    else if reqs[0].key != key then Alone(c, reqs[1..], key, from, to)
    else
      var e := Serve(c, reqs[0]);
      (if Within(reqs[0], key, from, to) && e.count <= Limit(reqs[0]) then 1 else 0)
        + Alone(Some(e), reqs[1..], key, from, to)
  }

  function Requests(reqs: seq<Request>, key: string, from: int, to: int): nat
  {
    if reqs == [] then 0 else (if Within(reqs[0], key, from, to) then 1 else 0) + Requests(reqs[1..], key, from, to)
  }

  // ---- a client among others -------------------------------------------------------------

  // The cap never evicts the client's counter while its window runs.
  ghost predicate Stays(step: (Store, Request) -> (Store, Reply), s: Store, reqs: seq<Request>, key: string)
    decreases |reqs|
  {
    reqs == [] ||
    var t := step(s, reqs[0]).0;
    (reqs[0].key == key || !Fresh(Find(s, key), reqs[0].now) ==> key in t.entries) && Stays(step, t, reqs[1..], key)
  }

  lemma EnforceKeeps(s: Store, cap: nat, now: int, key: string)
    requires Valid(s)
    ensures Find(Enforce(s, cap, now), key) == None || Find(Enforce(s, cap, now), key) == Find(s, key)
  {
    PurgeDropsExpired(s, now);
  }

  lemma PutValid(s: Store, key: string, c: Counter)
    requires Valid(s)
    ensures Valid(Put(s, key, c)) && |Put(s, key, c).keys| == if key in s.entries then |s.keys| else |s.keys| + 1
  {
    PairedPut(s.keys, s.entries, key, c);
  }

  lemma OpenedValid(s: Store, r: Request, cap: nat)
    requires Valid(s)
    ensures Valid(Opened(s, r, cap))
  {
    if Fresh(Find(s, r.key), r.now) {
      PutValid(s, r.key, Opening(r));
      EnforceValid(Put(s, r.key, Opening(r)), cap, r.now);
      FreshOpens(s, r, cap);
    }
  }

  lemma FreshOpens(s: Store, r: Request, cap: nat)
    requires Fresh(Find(s, r.key), r.now)
    ensures Opened(s, r, cap) == Enforce(Put(s, r.key, Opening(r)), cap, r.now)
  {}

  lemma OpenedKeeps(s: Store, r: Request, cap: nat, key: string)
    requires Valid(s) && key != r.key && key in Opened(s, r, cap).entries
    ensures Find(Opened(s, r, cap), key) == Find(s, key)
  {
    if Fresh(Find(s, r.key), r.now) {
      PutValid(s, r.key, Opening(r));
      EnforceKeeps(Put(s, r.key, Opening(r)), cap, r.now, key);
    }
  }

  lemma EnforceValid(s: Store, cap: nat, now: int)
    requires Valid(s)
    ensures Valid(Enforce(s, cap, now))
  {
    EnforceMeetsCap(s, cap, now);
  }

  lemma RecordedFinds(s: Store, key: string, c: Counter, other: string)
    requires Valid(s)
    ensures var t := Recorded(s, key, c);
            && Valid(t) && (other in t.entries <==> other in s.entries)
            && (other in t.entries ==> Find(t, other) == if other == key then Some(c) else Find(s, other))
  {
    PairedPut(s.keys, s.entries, key, c);
  }

  // A request moves its own counter on, and no other one.
  lemma HandleIsServe(s: Store, r: Request, cap: nat, key: string)
    requires Valid(s)
    ensures var t := Handle(s, r, cap).0;
            && Valid(t)
            && (key in t.entries ==>
               Find(t, key) == if r.key == key then Some(Serve(Find(s, key), r)) else Find(s, key))
  {
    OpenedValid(s, r, cap);
    if key != r.key && key in Opened(s, r, cap).entries {
      OpenedKeeps(s, r, cap, key);
    }
    RecordedFinds(Opened(s, r, cap), r.key, Serve(Find(s, r.key), r), key);
  }

  // A missing counter and one whose window is over are the same.
  predicate Same(c: Option<Counter>, d: Option<Counter>, now: int)
  {
    c == d || (Fresh(c, now) && Fresh(d, now))
  }

  // One step keeps the client's counter the same as if it were alone, and so is its answer.
  ghost predicate ActsAlone(result: (Store, Reply), c: Option<Counter>, r: Request, key: string)
  {
    && Valid(result.0)
    && Same(Find(result.0, key), if r.key == key then Some(Serve(c, r)) else c, r.now)
    && (r.key == key ==> result.1 == ReplyFor(Serve(c, r), r))
  }

  lemma StepSame(s: Store, c: Option<Counter>, r: Request, cap: nat, key: string)
    requires Valid(s) && Same(Find(s, key), c, r.now)
    requires r.key == key || !Fresh(Find(s, key), r.now) ==> key in Handle(s, r, cap).0.entries
    ensures ActsAlone(Handle(s, r, cap), c, r, key)
  {
    HandleIsServe(s, r, cap, key);
    SameAfter(s, Handle(s, r, cap).0, c, r, key);
    if r.key == key {
      ReplyIsServe(s, c, r, cap);
    }
  }

  lemma SameAfter(s: Store, t: Store, c: Option<Counter>, r: Request, key: string)
    requires Same(Find(s, key), c, r.now) && (r.key == key || !Fresh(Find(s, key), r.now) ==> key in t.entries)
    requires key in t.entries ==> Find(t, key) == if r.key == key then Some(Serve(Find(s, key), r)) else Find(s, key)
    ensures Same(Find(t, key), if r.key == key then Some(Serve(c, r)) else c, r.now)
  {}

  lemma ReplyIsServe(s: Store, c: Option<Counter>, r: Request, cap: nat)
    requires Same(Find(s, r.key), c, r.now)
    ensures Handle(s, r, cap).1 == ReplyFor(Serve(c, r), r)
  {}

  lemma {:induction false} OthersDoNotMatter(
    s: Store, c: Option<Counter>, reqs: seq<Request>, cap: nat, key: string, from: int, to: int, now: int)
    requires Valid(s) && Timely(reqs, now) && Stays(Limiting(cap), s, reqs, key) && Same(Find(s, key), c, now)
    ensures Admissions(Limiting(cap), s, reqs, key, from, to) == Alone(c, reqs, key, from, to)
    decreases |reqs|
  {
    if reqs != [] {
      var r := reqs[0];
      var t := Limiting(cap)(s, r).0;
      StepSame(s, c, r, cap, key);
      OthersDoNotMatter(t, if r.key == key then Some(Serve(c, r)) else c, reqs[1..], cap, key, from, to, r.now);
    }
  }

  // ---- one window ------------------------------------------------------------------------

  lemma {:induction false} NoneLater(c: Option<Counter>, reqs: seq<Request>, key: string, from: int, to: int, now: int)
    requires Timely(reqs, now) && now >= to
    ensures Alone(c, reqs, key, from, to) == 0 && Requests(reqs, key, from, to) == 0
    decreases |reqs|
  {
    if reqs != [] {
      NoneLater(if reqs[0].key == key then Some(Serve(c, reqs[0])) else c, reqs[1..], key, from, to, now);
    }
  }

  // At a constant limit, the rest of a window admits exactly what is left of the limit, or every
  // request if there are fewer.
  lemma {:induction false} RestOfWindow(c: Counter, reqs: seq<Request>, key: string, limit: nat, now: int)
    requires Timely(reqs, now)
    requires Constant(reqs, key, limit)
    ensures Alone(Some(c), reqs, key, now, c.resetAt)
            == Min(Requests(reqs, key, now, c.resetAt), Max(0, limit - c.count))
    decreases |reqs|
  {
    if reqs != [] {
      var r := reqs[0];
      if r.now >= c.resetAt {
        NoneLater(Some(c), reqs, key, now, c.resetAt, r.now);
      } else {
        RestOfWindow(if r.key == key then Serve(Some(c), r) else c, reqs[1..], key, limit, now);
      }
    }
  }

  lemma WindowAlone(c: Option<Counter>, reqs: seq<Request>, key: string, W: nat, limit: nat)
    requires reqs != [] && Timely(reqs, reqs[0].now) && reqs[0].key == key && reqs[0].windowMs == W && W >= 1
    requires Fresh(c, reqs[0].now) && Constant(reqs, key, limit)
    ensures var open := reqs[0].now;
            Alone(c, reqs, key, open, open + W) == Min(Requests(reqs, key, open, open + W), limit)
  {
    RestOfWindow(Serve(c, reqs[0]), reqs[1..], key, limit, reqs[0].now);
  }

  // However clients interleave, the window a client opens admits exactly the first `limit` of its
  // requests, as long as its counter is not evicted.
  lemma WindowAdmits(s: Store, reqs: seq<Request>, cap: nat, key: string, open: int, W: nat, limit: nat)
    requires reqs != [] && reqs[0].now == open && reqs[0].key == key && reqs[0].windowMs == W && W >= 1
    requires Timely(reqs, open) && Constant(reqs, key, limit)
    requires Valid(s) && Fresh(Find(s, key), open) && Stays(Limiting(cap), s, reqs, key)
    ensures Admissions(Limiting(cap), s, reqs, key, open, open + W) == Min(Requests(reqs, key, open, open + W), limit)
  {
    WindowAlone(None, reqs, key, W, limit);
    var to := open + W;
    OthersDoNotMatter(s, None, reqs, cap, key, open, to, open);
  }

  // The same by tier and ceiling: a positive ceiling below the tier's maximum is the limit, and any
  // other does nothing.
  lemma TierAndCeiling(
    s: Store, reqs: seq<Request>, cap: nat, key: string, open: int, W: nat, m: nat, ceiling: Option<int>)
    requires reqs != [] && reqs[0].now == open && reqs[0].key == key && reqs[0].windowMs == W && W >= 1
    requires Timely(reqs, open) && forall r | r in reqs && r.key == key :: r.max == m && r.ceiling == ceiling
    requires Valid(s) && Fresh(Find(s, key), open) && Stays(Limiting(cap), s, reqs, key)
    ensures var admitted, asked := Admissions(Limiting(cap), s, reqs, key, open, open + W),
                                   Requests(reqs, key, open, open + W);
            && (ceiling.None? || ceiling.value <= 0 ==> admitted == Min(asked, m))
            && (ceiling.Some? && ceiling.value > 0 ==> admitted == Min(asked, Min(m, ceiling.value)))
  {
    var limit := if ceiling.Some? && ceiling.value > 0 then Min(m, ceiling.value) else m;
    AlwaysAllows(reqs, key, limit);
    WindowAdmits(s, reqs, cap, key, open, W, limit);
  }

  lemma {:induction false} AlwaysAllows(reqs: seq<Request>, key: string, limit: nat)
    requires forall r | r in reqs && r.key == key :: Allows(r, limit)
    ensures Constant(reqs, key, limit)
  {
    if reqs != [] {
      assert reqs[0] in reqs;
      AlwaysAllows(reqs[1..], key, limit);
    }
  }

  // ---- what each request is told ---------------------------------------------------------

  // The answer to the i-th request.
  function ReplyTo(step: (Store, Request) -> (Store, Reply), s: Store, reqs: seq<Request>, i: nat): Reply
    requires i < |reqs|
    decreases i
  {
    if i == 0 then step(s, reqs[0]).1 else ReplyTo(step, step(s, reqs[0]).0, reqs[1..], i - 1)
  }

  // The counter of a client alone after the i-th request, which is its own.
  function CounterAt(c: Option<Counter>, reqs: seq<Request>, key: string, i: nat): Counter
    requires i < |reqs|
    decreases i
  {
    if i == 0 then Serve(c, reqs[0])
    else CounterAt(if reqs[0].key == key then Some(Serve(c, reqs[0])) else c, reqs[1..], key, i - 1)
  }

  lemma {:induction false} ReplyAsAlone(
    s: Store, c: Option<Counter>, reqs: seq<Request>, cap: nat, key: string, i: nat, now: int)
    requires Valid(s) && Timely(reqs, now) && Stays(Limiting(cap), s, reqs, key) && Same(Find(s, key), c, now)
    requires i < |reqs| && reqs[i].key == key
    ensures ReplyTo(Limiting(cap), s, reqs, i) == ReplyFor(CounterAt(c, reqs, key, i), reqs[i])
    decreases i
  {
    var r := reqs[0];
    StepSame(s, c, r, cap, key);
    if i > 0 {
      ReplyAsAlone(Limiting(cap)(s, r).0, if r.key == key then Some(Serve(c, r)) else c, reqs[1..], cap, key,
                   i - 1, r.now);
    }
  }

  lemma {:induction false} CountsOn(c: Counter, reqs: seq<Request>, key: string, i: nat, now: int)
    requires Timely(reqs, now) && i < |reqs| && reqs[i].key == key && reqs[i].now < c.resetAt
    ensures CounterAt(Some(c), reqs, key, i)
            == Counter(c.count + Requests(reqs[..i + 1], key, now, c.resetAt), c.resetAt)
    decreases i
  {
    InTurn(reqs, i, now);
    assert reqs[..i + 1][1..] == reqs[1..][..i];
    if i > 0 {
      var d := if reqs[0].key == key then Serve(Some(c), reqs[0]) else c;
      CountsOn(d, reqs[1..], key, i - 1, reqs[0].now);
      RequestsFrom(reqs[1..][..i], key, now, reqs[0].now, c.resetAt);
    }
  }

  lemma {:induction false} InTurn(reqs: seq<Request>, i: nat, now: int)
    requires Timely(reqs, now) && i < |reqs|
    ensures now <= reqs[0].now <= reqs[i].now && Timely(reqs[..i + 1], now)
    decreases i
  {
    if i > 0 {
      InTurn(reqs[1..], i - 1, reqs[0].now);
      assert reqs[..i + 1][1..] == reqs[1..][..i];
    }
  }

  lemma {:induction false} RequestsFrom(reqs: seq<Request>, key: string, from: int, later: int, to: int)
    requires Timely(reqs, later) && from <= later
    ensures Requests(reqs, key, from, to) == Requests(reqs, key, later, to)
    decreases |reqs|
  {
    if reqs != [] {
      RequestsFrom(reqs[1..], key, from, reqs[0].now, to);
      RequestsFrom(reqs[1..], key, later, reqs[0].now, to);
    }
  }

  // What the n-th request of a window is told: the limit, what is left of it, when the window ends
  // to the second, and if it is beyond the limit, and only then, how long to wait.
  predicate Tells(reply: Reply, limit: int, n: nat, now: int, end: int)
  {
    && reply.limit == limit && reply.remaining == Max(0, limit - n)
    && 1000 * (reply.resetSecs - 1) < end <= 1000 * reply.resetSecs
    && (reply.retryAfter.Some? <==> n > limit)
    && (reply.retryAfter.Some? ==> 1000 * (reply.retryAfter.value - 1) < end - now <= 1000 * reply.retryAfter.value)
  }

  lemma NthOfWindow(s: Store, reqs: seq<Request>, cap: nat, key: string, open: int, W: nat, i: nat, limit: int)
    requires reqs != [] && reqs[0].now == open && reqs[0].key == key && reqs[0].windowMs == W && W >= 1
    requires Timely(reqs, open) && Valid(s) && Fresh(Find(s, key), open) && Stays(Limiting(cap), s, reqs, key)
    requires i < |reqs| && reqs[i].key == key && reqs[i].now < open + W && Allows(reqs[i], limit)
    ensures Tells(ReplyTo(Limiting(cap), s, reqs, i), limit, Requests(reqs[..i + 1], key, open, open + W),
                  reqs[i].now, open + W)
  {
    AllowsIs(reqs[i], limit);
    ReplyAsAlone(s, None, reqs, cap, key, i, open);
    CounterInWindow(reqs, key, open, W, i);
  }

  lemma CounterInWindow(reqs: seq<Request>, key: string, open: int, W: nat, i: nat)
    requires reqs != [] && reqs[0].now == open && reqs[0].key == key && reqs[0].windowMs == W && W >= 1
    requires Timely(reqs, open) && i < |reqs| && reqs[i].key == key && reqs[i].now < open + W
    ensures CounterAt(None, reqs, key, i) == Counter(Requests(reqs[..i + 1], key, open, open + W), open + W)
  {
    assert reqs[..i + 1][1..] == reqs[1..][..i];
    if i > 0 {
      CountsOn(Counter(1, open + W), reqs[1..], key, i - 1, open);
    }
  }

  // ---- any stretch of time ---------------------------------------------------------------

  // What the window in progress and the next one can still admit within [from, from + W).
  function Budget(c: Option<Counter>, from: int, W: int, M: nat): int
  {
    if c.None? || c.value.resetAt <= from then 2 * M - 1
    else Max(0, M - c.value.count) + if c.value.resetAt < from + W then M else 0
  }

  lemma {:induction false} AloneWithinBudget(
    c: Option<Counter>, reqs: seq<Request>, key: string, from: int, W: nat, M: nat, now: int)
    requires Timely(reqs, now) && Conforms(reqs, key, W, M) && M >= 1 && W >= 1 && (c.Some? ==> c.value.count >= 1)
    ensures Alone(c, reqs, key, from, from + W) <= Budget(c, from, W, M)
    decreases |reqs|
  {
    if reqs != [] {
      var r := reqs[0];
      if r.now >= from + W {
        NoneLater(c, reqs, key, from, from + W, r.now);
      } else {
        AloneWithinBudget(if r.key == key then Some(Serve(c, r)) else c, reqs[1..], key, from, W, M, r.now);
      }
    }
  }

  // However clients interleave, from any point where the client has no window running: as long as
  // its counter is not evicted, any stretch as long as a window admits at most 2M - 1 of its
  // requests. (Not 2M: the request that opens a window lies before any stretch that reaches into
  // the next one.)
  lemma AnyStretchBounded(s: Store, reqs: seq<Request>, cap: nat, key: string, from: int, W: nat, M: nat, now: int)
    requires Timely(reqs, now) && Conforms(reqs, key, W, M) && M >= 1 && W >= 1
    requires Valid(s) && Stays(Limiting(cap), s, reqs, key) && Fresh(Find(s, key), now)
    ensures Admissions(Limiting(cap), s, reqs, key, from, from + W) <= 2 * M - 1
  {
    var to := from + W;
    OthersDoNotMatter(s, None, reqs, cap, key, from, to, now);
    AloneBounded(reqs, key, from, W, M, now);
  }

  lemma AloneBounded(reqs: seq<Request>, key: string, from: int, W: nat, M: nat, now: int)
    requires Timely(reqs, now) && Conforms(reqs, key, W, M) && M >= 1 && W >= 1
    ensures Alone(None, reqs, key, from, from + W) <= 2 * M - 1
  {
    AloneWithinBudget(None, reqs, key, from, W, M, now);
  }

  // ---- and no better bound holds ---------------------------------------------------------

  function Burst(key: string, W: int, M: nat, n: nat, at: int): seq<Request>
  {
    seq(n, i => Request(key, W, M, None, at))
  }

  lemma {:induction false} BurstAdmits(
    c: Counter, key: string, W: int, M: nat, n: nat, at: int, rest: seq<Request>, from: int, to: int)
    requires from <= at < to && at < c.resetAt && c.count + n <= M
    ensures Alone(Some(c), Burst(key, W, M, n, at) + rest, key, from, to)
            == n + Alone(Some(Counter(c.count + n, c.resetAt)), rest, key, from, to)
    decreases n
  {
    var reqs := Burst(key, W, M, n, at) + rest;
    if n == 0 {
      assert reqs == rest;
    } else {
      assert reqs[0] == Request(key, W, M, None, at);
      assert reqs[1..] == Burst(key, W, M, n - 1, at) + rest;
      BurstAdmits(Counter(c.count + 1, c.resetAt), key, W, M, n - 1, at, rest, from, to);
    }
  }

  // One request opens a window; the rest of its budget goes in the last millisecond, the next
  // window's in the first.
  function WorstCase(key: string, W: nat, M: nat): seq<Request>
    requires M >= 1 && W >= 2
  {
    [Request(key, W, M, None, 0)] + (Burst(key, W, M, M - 1, W - 1) + Burst(key, W, M, M, W))
  }

  // From an empty store of any cap, the limiter lets 2M - 1 of these requests through within W.
  lemma BoundIsReached(key: string, W: nat, M: nat, cap: nat)
    requires M >= 1 && W >= 2 && cap >= 1
    ensures var reqs := WorstCase(key, W, M);
            && Timely(reqs, 0) && Conforms(reqs, key, W, M) && Stays(Limiting(cap), Store([], map[]), reqs, key)
            && Admissions(Limiting(cap), Store([], map[]), reqs, key, W - 1, W - 1 + W) == 2 * M - 1
  {
    var reqs, s := WorstCase(key, W, M), Store([], map[]);
    WorstCaseTimely(key, W, M);
    WorstCaseAlone(key, W, M);
    assert OneKey(s, key);
    OneClientStays(s, reqs, cap, key);
    OthersDoNotMatter(s, None, reqs, cap, key, W - 1, W - 1 + W, 0);
  }

  // The only counter stored, if any, is the client's.
  ghost predicate OneKey(s: Store, key: string)
  {
    Valid(s) && |s.keys| <= 1 && forall k | k in s.keys :: k == key
  }

  lemma OneKeyStep(s: Store, r: Request, cap: nat)
    requires OneKey(s, r.key) && cap >= 1
    ensures OneKey(Handle(s, r, cap).0, r.key) && r.key in Handle(s, r, cap).0.entries
  {
    assert r.key in Elems(s.keys) <==> r.key in s.entries;
    PutValid(s, r.key, Opening(r));
    var t := Opened(s, r, cap);
    assert r.key in t.entries && t.keys == [r.key];
    PutValid(t, r.key, Serve(Find(s, r.key), r));
  }

  ghost predicate OneClient(reqs: seq<Request>, key: string)
  {
    reqs == [] || (reqs[0].key == key && OneClient(reqs[1..], key))
  }

  lemma {:induction false} OneClientStays(s: Store, reqs: seq<Request>, cap: nat, key: string)
    requires OneKey(s, key) && OneClient(reqs, key) && cap >= 1
    ensures Stays(Limiting(cap), s, reqs, key)
    decreases |reqs|
  {
    if reqs != [] {
      OneKeyStep(s, reqs[0], cap);
      OneClientStays(Limiting(cap)(s, reqs[0]).0, reqs[1..], cap, key);
    }
  }

  lemma WorstCaseAlone(key: string, W: nat, M: nat)
    requires M >= 1 && W >= 2
    ensures Alone(None, WorstCase(key, W, M), key, W - 1, W - 1 + W) == 2 * M - 1
  {
    var first, second := Burst(key, W, M, M - 1, W - 1), Burst(key, W, M, M, W);
    assert WorstCase(key, W, M)[1..] == first + second;
    BurstAdmits(Counter(1, W), key, W, M, M - 1, W - 1, second, W - 1, W - 1 + W);
    SecondBurst(key, W, M);
  }

  lemma WorstCaseTimely(key: string, W: nat, M: nat)
    requires M >= 1 && W >= 2
    ensures Timely(WorstCase(key, W, M), 0) && Conforms(WorstCase(key, W, M), key, W, M)
            && OneClient(WorstCase(key, W, M), key)
  {
    var first, second := Burst(key, W, M, M - 1, W - 1), Burst(key, W, M, M, W);
    BurstTimely(key, W, M, M, W, [], W - 1);
    assert second + [] == second;
    BurstTimely(key, W, M, M - 1, W - 1, second, 0);
    assert WorstCase(key, W, M)[1..] == first + second;
  }

  lemma {:induction false} BurstTimely(key: string, W: nat, M: nat, n: nat, at: int, rest: seq<Request>, now: int)
    requires now <= at && Timely(rest, at) && Conforms(rest, key, W, M) && OneClient(rest, key)
    ensures var reqs := Burst(key, W, M, n, at) + rest;
            Timely(reqs, now) && Conforms(reqs, key, W, M) && OneClient(reqs, key)
    decreases n
  {
    var reqs := Burst(key, W, M, n, at) + rest;
    if n == 0 {
      assert reqs == rest;
    } else {
      BurstTimely(key, W, M, n - 1, at, rest, at);
      assert reqs[1..] == Burst(key, W, M, n - 1, at) + rest;
    }
  }

  lemma SecondBurst(key: string, W: nat, M: nat)
    requires M >= 1 && W >= 2
    ensures Alone(Some(Counter(M, W)), Burst(key, W, M, M, W), key, W - 1, W - 1 + W) == M
  {
    var burst, rest := Burst(key, W, M, M, W), Burst(key, W, M, M - 1, W);
    assert burst[0] == Request(key, W, M, None, W);
    assert burst[1..] == rest + [];
    BurstAdmits(Counter(1, W + W), key, W, M, M - 1, W, [], W - 1, W - 1 + W);
  }

  // ---- the wait that is asked for --------------------------------------------------------

  // A client refused at `now` is still refused one second short of the wait it was sent, and
  // after the wait is in a fresh window, which admits it if its limit admits anyone.
  lemma RetryAfterIsExact(c: Option<Counter>, r: Request, later: Request, limit: int)
    requires ReplyFor(Serve(c, r), r).retryAfter.Some? && later.now >= r.now
    requires later.windowMs == r.windowMs && r.windowMs >= 1 && Allows(r, limit) && Allows(later, limit)
    ensures var e := Serve(c, r);
            var wait := ReplyFor(e, r).retryAfter.value;
            && wait >= 1
            && (later.now <= r.now + 1000 * (wait - 1) ==> ReplyFor(Serve(Some(e), later), later).retryAfter.Some?)
            && (later.now >= r.now + 1000 * wait ==>
                  Serve(Some(e), later) == Counter(1, later.now + later.windowMs)
                  && (limit >= 1 ==> ReplyFor(Serve(Some(e), later), later).retryAfter.None?))
  {}

  // ---- what a full store does ------------------------------------------------------------

  // The soonest to expire of s + [key] is the new key exactly if every other one ends later.
  lemma {:induction false} SoonestIsLast(cmp: (string, string) -> int, others: seq<string>, key: string)
    requires key !in others
    ensures Sort(cmp, others + [key])[0] == key <==> forall k | k in others :: cmp(k, key) > 0
  {
    if others != [] {
      var rest := others[1..] + [key];
      assert (others + [key])[1..] == rest;
      SoonestIsLast(cmp, others[1..], key);
      var head := Sort(cmp, rest)[0];
      assert Sort(cmp, others + [key])[0] == if cmp(others[0], head) <= 0 then others[0] else head;
      assert others[0] in others;
      forall k | k in others ensures k == others[0] || k in others[1..] {}
    }
  }

  // At a full store with nothing expired, a newcomer is evicted at birth if and only if its
  // window ends before every other. It is then let through whatever its limit, and the store is
  // as before: such a client is not limited at all.
  lemma NewcomerAtFullStore(s: Store, r: Request, cap: nat)
    requires Valid(s) && |s.keys| == cap && r.key !in s.entries && r.windowMs >= 1
    requires forall k | k in s.entries :: r.now < s.entries[k].resetAt
    ensures r.key !in Handle(s, r, cap).0.entries <==>
            forall k | k in s.entries :: r.now + r.windowMs < s.entries[k].resetAt
    ensures r.key !in Handle(s, r, cap).0.entries ==> Handle(s, r, cap).0 == s
    ensures !AtMost(r, 0) ==> Handle(s, r, cap).1.retryAfter.None?
  {
    OpenedByTrim(s, r, cap);
    NewcomerEvicted(s, r.key, Opening(r));
  }

  lemma OpenedByTrim(s: Store, r: Request, cap: nat)
    requires Valid(s) && |s.keys| == cap && r.key !in s.entries && r.windowMs >= 1
    requires forall k | k in s.entries :: r.now < s.entries[k].resetAt
    ensures Opened(s, r, cap) == Trim(Put(s, r.key, Opening(r)), cap)
  {
    var t := Put(s, r.key, Opening(r));
    NothingToPurge(t, r.now);
    EnforceIsTrim(t, cap, r.now);
    FreshOpens(s, r, cap);
  }

  lemma EnforceIsTrim(s: Store, cap: nat, now: int)
    requires |s.keys| > cap && Purge(s, now) == s
    ensures Enforce(s, cap, now) == Trim(s, cap)
  {}

  lemma NothingToPurge(s: Store, now: int)
    requires forall k | k in s.entries :: now < s.entries[k].resetAt
    ensures Purge(s, now) == s
  {
    FilterNone(IsOver(s.entries, now), s.keys);
    WithoutNone(s);
  }

  lemma NewcomerEvicted(s: Store, key: string, c: Counter)
    requires Valid(s) && key !in s.entries
    ensures var t := Trim(Put(s, key, c), |s.keys|);
            && (key !in t.entries <==> forall k | k in s.entries :: c.resetAt < s.entries[k].resetAt)
            && (key !in t.entries ==> t == s)
  {
    var t := Put(s, key, c);
    SoonestIsLast(ByReset(t.entries), s.keys, key);
    PutValid(s, key, c);
    OneTooMany(t);
    LaterThanAll(s, key, c);
    if Sort(ByReset(t.entries), t.keys)[0] == key {
      LastDropped(s, key, c);
    }
  }

  lemma OneTooMany(s: Store)
    requires Valid(s) && s.keys != []
    ensures var head := Sort(ByReset(s.entries), s.keys)[0];
            Trim(s, |s.keys| - 1) == Without(s, [head])
              && (forall k | k in s.entries :: k !in Trim(s, |s.keys| - 1).entries <==> k == head)
  {
    assert Soonest(s, 1) == [Sort(ByReset(s.entries), s.keys)[0]];
  }

  lemma LaterThanAll(s: Store, key: string, c: Counter)
    requires Valid(s) && key !in s.entries
    ensures (forall k | k in s.keys :: ByReset(Put(s, key, c).entries)(k, key) > 0) <==>
            forall k | k in s.entries :: c.resetAt < s.entries[k].resetAt
    ensures key !in s.keys
  {
    forall k ensures k in s.keys <==> k in s.entries {
      assert k in Elems(s.keys) <==> k in s.entries.Keys;
    }
  }

  lemma LastDropped(s: Store, key: string, c: Counter)
    requires Valid(s) && key !in s.entries
    ensures Without(Put(s, key, c), [key]) == s
  {
    assert key !in Elems(s.keys);
    FilterAppend(NotIn([key]), s.keys, [key]);
    FilterAll(NotIn([key]), s.keys);
    FilterOne(NotIn([key]), key);
    assert s.keys + [] == s.keys;
    assert s.entries[key := c] - Elems([key]) == s.entries;
  }
}
