/**
 Stampede protection: the cache-aside protocol of getOrSet as a state machine. A caller looks
 the key up, and goes on in a later turn of the event loop; a load settles in a turn of its own;
 the turns of all callers and loads interleave freely.
 */
module SingleFlight {
  import opened Common
  import opened Cache

  datatype Outcome<V> = Value(value: Option<V>) | Failed

  // A flight is over once it has taken itself off the table of loads in flight.
  datatype Phase<V> = Loading | Storing(value: Option<V>) | Done(outcome: Outcome<V>)

  // One execution of load; `threw` when it threw before it returned a promise.
  datatype Flight<V> = Flight(key: string, ttl: int, phase: Phase<V>, threw: bool)

  datatype Caller<V> =
    | Checking(key: string, ttl: int, cached: Option<V>)
    | Waiting(key: string, flight: nat)
    | Answered(key: string, outcome: Outcome<V>, via: Option<nat>)

  datatype State<V> = State(
    store: Store<V>, callers: seq<Caller<V>>, flights: seq<Flight<V>>, inFlight: map<string, nat>)

  datatype Event<V> =
    | Ask(key: string, ttl: int)                 // getOrSet up to its first await
    | Resume(caller: nat, throws: bool)          // the check for a flight; load itself may throw
    | Settle(flight: nat, outcome: Outcome<V>)   // the promise of load settles
    | Stored(flight: nat)                        // the write to the cache returns
    | Deliver(caller: nat)                       // a caller learns how its flight ended
    | Elsewhere(store: Store<V>)                 // other calls on the cache have left this in it

  // When the event happens and the cap in force.
  datatype Turn<V> = Turn(event: Event<V>, now: int, cap: nat)

  datatype Config = Config(enabled: bool, defaultTtl: int)

  function Initial<V>(store: Store<V>): State<V>
  {
    State(store, [], [], map[])
  }

  predicate Running<V>(f: Flight<V>)
  {
    !f.phase.Done?
  }

  predicate Enabled<V>(s: State<V>, t: Turn<V>)
  {
    && t.cap >= 1
    && match t.event
       case Ask(key, ttl) => true
       case Resume(c, throws) => c < |s.callers| && s.callers[c].Checking?
       case Settle(f, outcome) => f < |s.flights| && s.flights[f].phase.Loading?
       case Stored(f) => f < |s.flights| && s.flights[f].phase.Storing?
       case Deliver(c) => c < |s.callers| && s.callers[c].Waiting? && s.callers[c].flight < |s.flights|
         && s.flights[s.callers[c].flight].phase.Done?
       case Elsewhere(store) => true
  }

  // A load that throws at once runs its clean-up before the flight is put on the table.
  function Launch<V>(s: State<V>, c: nat, throws: bool): State<V>
    requires c < |s.callers| && s.callers[c].Checking?
  {
    var Checking(key, ttl, cached) := s.callers[c];
    var phase := if throws then Done(Failed) else Loading;
    s.(flights := s.flights + [Flight(key, ttl, phase, throws)],
       inFlight := s.inFlight[key := |s.flights|],
       callers := s.callers[c := Waiting(key, |s.flights|)])
  }

  function Finish<V>(s: State<V>, f: nat, outcome: Outcome<V>): State<V>
    requires f < |s.flights|
  {
    s.(flights := s.flights[f := s.flights[f].(phase := Done(outcome))], inFlight := s.inFlight - {s.flights[f].key})
  }

  function Save<V>(cfg: Config, store: Store<V>, f: Flight<V>, value: Option<V>, t: Turn<V>): Store<V>
    requires t.cap >= 1
  {
    if cfg.enabled then MemorySet(store, f.key, MakeEntry(value, f.ttl, cfg.defaultTtl, t.now), t.cap, t.now) else store
  }

  function Step<V>(cfg: Config, s: State<V>, t: Turn<V>): State<V>
    requires Enabled(s, t)
  {
    match t.event
    case Ask(key, ttl) =>
      var (store, cached) := if cfg.enabled then Lookup(s.store, key, t.now) else (s.store, None);
      s.(store := store, callers := s.callers + [Checking(key, ttl, cached)])
    case Resume(c, throws) =>
      var Checking(key, ttl, cached) := s.callers[c];
      if cached.Some? then s.(callers := s.callers[c := Answered(key, Value(cached), None)])
      else if key in s.inFlight then s.(callers := s.callers[c := Waiting(key, s.inFlight[key])])
      else Launch(s, c, throws)
    case Settle(f, outcome) =>
      if outcome.Value? && outcome.value.Some? then
        s.(store := Save(cfg, s.store, s.flights[f], outcome.value, t),
           flights := s.flights[f := s.flights[f].(phase := Storing(outcome.value))])
      else Finish(s, f, outcome)
    case Stored(f) => Finish(s, f, Value(s.flights[f].phase.value))
    case Deliver(c) =>
      var Waiting(key, f) := s.callers[c];
      s.(callers := s.callers[c := Answered(key, s.flights[f].phase.outcome, Some(f))])
    case Elsewhere(store) => s.(store := store)
  }

  predicate Feasible<V>(cfg: Config, s: State<V>, turns: seq<Turn<V>>)
    decreases |turns|
  {
    turns == [] || (Enabled(s, turns[0]) && Feasible(cfg, Step(cfg, s, turns[0]), turns[1..]))
  }

  function Run<V>(cfg: Config, s: State<V>, turns: seq<Turn<V>>): State<V>
    requires Feasible(cfg, s, turns)
    decreases |turns|
  {
    if turns == [] then s else Run(cfg, Step(cfg, s, turns[0]), turns[1..])
  }

  // ---- one load in flight per key --------------------------------------------------------

  // A running flight is the one on the table under its key; what is on the table runs, or threw.
  ghost predicate Table<V>(flights: seq<Flight<V>>, inFlight: map<string, nat>)
  {
    && (forall f :: 0 <= f < |flights| && (Running(flights[f]) || flights[f].threw) ==>
          flights[f].key in inFlight && inFlight[flights[f].key] == f)
    && (forall k | k in inFlight ::
          inFlight[k] < |flights| && flights[inFlight[k]].key == k
          && (Running(flights[inFlight[k]]) || flights[inFlight[k]].threw))
    && (forall f :: 0 <= f < |flights| && flights[f].threw ==> flights[f].phase == Done(Failed))
  }

  ghost predicate Joined<V>(callers: seq<Caller<V>>, flights: seq<Flight<V>>)
  {
    forall c :: 0 <= c < |callers| ==> JoinedOne(callers[c], flights)
  }

  ghost predicate JoinedOne<V>(caller: Caller<V>, flights: seq<Flight<V>>)
  {
    match caller
    case Checking(key, ttl, cached) => true
    case Waiting(key, f) => f < |flights| && flights[f].key == key
    case Answered(key, outcome, None) => outcome.Value? && outcome.value.Some?
    case Answered(key, outcome, Some(f)) => f < |flights| && flights[f].key == key && flights[f].phase == Done(outcome)
  }

  ghost predicate Inv<V>(s: State<V>)
  {
    Table(s.flights, s.inFlight) && Joined(s.callers, s.flights)
  }

  lemma StepInv<V>(cfg: Config, s: State<V>, t: Turn<V>)
    requires Inv(s) && Enabled(s, t)
    ensures Inv(Step(cfg, s, t))
  {
    StepTable(cfg, s, t);
    StepJoined(cfg, s, t);
  }

  lemma StepTable<V>(cfg: Config, s: State<V>, t: Turn<V>)
    requires Table(s.flights, s.inFlight) && Enabled(s, t)
    ensures Table(Step(cfg, s, t).flights, Step(cfg, s, t).inFlight)
  {
    match t.event
    case Ask(key, ttl) => {}
    case Resume(c, throws) =>
      if s.callers[c].cached.None? && s.callers[c].key !in s.inFlight {
        LaunchTable(s, c, throws);
      }
    case Settle(f, outcome) =>
      if !(outcome.Value? && outcome.value.Some?) {
        FinishTable(s, f, outcome);
      }
    case Stored(f) => FinishTable(s, f, Value(s.flights[f].phase.value));
    case Deliver(c) => {}
    case Elsewhere(store) => {}
  }

  lemma LaunchTable<V>(s: State<V>, c: nat, throws: bool)
    requires Table(s.flights, s.inFlight) && c < |s.callers| && s.callers[c].Checking?
             && s.callers[c].key !in s.inFlight
    ensures Table(Launch(s, c, throws).flights, Launch(s, c, throws).inFlight)
  {}

  lemma FinishTable<V>(s: State<V>, f: nat, outcome: Outcome<V>)
    requires Table(s.flights, s.inFlight) && f < |s.flights| && Running(s.flights[f])
    ensures Table(Finish(s, f, outcome).flights, Finish(s, f, outcome).inFlight)
  {}

  lemma StepJoined<V>(cfg: Config, s: State<V>, t: Turn<V>)
    requires Inv(s) && Enabled(s, t)
    ensures Joined(Step(cfg, s, t).callers, Step(cfg, s, t).flights)
  {
    var r := Step(cfg, s, t);
    StepKeepsKeys(cfg, s, t);
    forall c | 0 <= c < |r.callers| ensures JoinedOne(r.callers[c], r.flights) {
      assert c < |s.callers| ==> JoinedOne(s.callers[c], s.flights);
    }
  }

  lemma {:induction false} RunInv<V>(cfg: Config, s: State<V>, turns: seq<Turn<V>>)
    requires Inv(s) && Feasible(cfg, s, turns)
    ensures Inv(Run(cfg, s, turns))
    decreases |turns|
  {
    if turns != [] {
      StepInv(cfg, s, turns[0]);
      RunInv(cfg, Step(cfg, s, turns[0]), turns[1..]);
    }
  }

  // However the turns interleave, no two loads of one key are ever in flight.
  lemma OneLoadPerKey<V>(cfg: Config, store: Store<V>, turns: seq<Turn<V>>, f: nat, g: nat)
    requires Feasible(cfg, Initial(store), turns)
    requires var s := Run(cfg, Initial(store), turns);
             f < |s.flights| && g < |s.flights| && Running(s.flights[f]) && Running(s.flights[g])
             && s.flights[f].key == s.flights[g].key
    ensures f == g
  {
    RunInv(cfg, Initial(store), turns);
  }

  // Every caller that joined a flight is answered with how that flight ended.
  lemma JoinersShareTheOutcome<V>(cfg: Config, store: Store<V>, turns: seq<Turn<V>>, c: nat, d: nat)
    requires Feasible(cfg, Initial(store), turns)
    requires var s := Run(cfg, Initial(store), turns);
             && c < |s.callers| && d < |s.callers| && s.callers[c].Answered? && s.callers[d].Answered?
             && s.callers[c].via.Some? && s.callers[c].via == s.callers[d].via
    ensures var s := Run(cfg, Initial(store), turns);
            s.callers[c].outcome == s.callers[d].outcome && s.callers[c].key == s.callers[d].key
  {
    RunInv(cfg, Initial(store), turns);
  }

  // ---- when the table holds exactly the loads in flight ----------------------------------

  ghost predicate InTheAir<V>(flights: seq<Flight<V>>, k: string)
  {
    exists f :: 0 <= f < |flights| && Running(flights[f]) && flights[f].key == k
  }

  // The table is exact in every state if and only if no load threw synchronously.
  lemma TableExactIffNoneThrew<V>(s: State<V>)
    requires Inv(s)
    ensures (forall k :: k in s.inFlight <==> InTheAir(s.flights, k)) <==>
            (forall f :: 0 <= f < |s.flights| ==> !s.flights[f].threw)
  {
    forall k | InTheAir(s.flights, k) ensures k in s.inFlight {}
    if forall f :: 0 <= f < |s.flights| ==> !s.flights[f].threw {
      forall k | k in s.inFlight ensures InTheAir(s.flights, k) {
        assert Running(s.flights[s.inFlight[k]]);
      }
    } else {
      var f :| 0 <= f < |s.flights| && s.flights[f].threw;
      assert s.flights[f].key in s.inFlight;
      assert !InTheAir(s.flights, s.flights[f].key);
    }
  }

  predicate Throws<V>(t: Turn<V>)
  {
    t.event.Resume? && t.event.throws
  }

  lemma {:induction false} AsyncLoadsNeverThrow<V>(cfg: Config, s: State<V>, turns: seq<Turn<V>>)
    requires Feasible(cfg, s, turns) && forall f :: 0 <= f < |s.flights| ==> !s.flights[f].threw
    requires forall i :: 0 <= i < |turns| ==> !Throws(turns[i])
    ensures forall f :: 0 <= f < |Run(cfg, s, turns).flights| ==> !Run(cfg, s, turns).flights[f].threw
    decreases |turns|
  {
    if turns != [] {
      assert !Throws(turns[0]);
      AsyncLoadsNeverThrow(cfg, Step(cfg, s, turns[0]), turns[1..]);
    }
  }

  // With asynchronous loads the table holds a key exactly while its load is in flight.
  lemma TableIsExact<V>(cfg: Config, store: Store<V>, turns: seq<Turn<V>>, k: string)
    requires Feasible(cfg, Initial(store), turns) && forall i :: 0 <= i < |turns| ==> !Throws(turns[i])
    ensures var s := Run(cfg, Initial(store), turns); k in s.inFlight <==> InTheAir(s.flights, k)
  {
    RunInv(cfg, Initial(store), turns);
    AsyncLoadsNeverThrow(cfg, Initial(store), turns);
    TableExactIffNoneThrew(Run(cfg, Initial(store), turns));
  }

  // ---- a load that throws at once --------------------------------------------------------

  // The table holds a flight that is over, and that nothing will take off again.
  predicate Stuck<V>(s: State<V>, k: string)
  {
    k in s.inFlight && s.inFlight[k] < |s.flights| && s.flights[s.inFlight[k]].threw
  }

  lemma StuckStep<V>(cfg: Config, s: State<V>, t: Turn<V>, k: string)
    requires Inv(s) && Enabled(s, t) && Stuck(s, k)
    ensures var r := Step(cfg, s, t);
            && Stuck(r, k) && r.inFlight[k] == s.inFlight[k] && |s.flights| <= |r.flights|
            && forall f :: |s.flights| <= f < |r.flights| ==> r.flights[f].key != k
  {}

  // From then on the key is never loaded again, although a failed load is meant to be retried.
  lemma {:induction false} StuckForGood<V>(cfg: Config, s: State<V>, turns: seq<Turn<V>>, k: string)
    requires Inv(s) && Feasible(cfg, s, turns) && Stuck(s, k)
    ensures var r := Run(cfg, s, turns);
            && Stuck(r, k) && r.inFlight[k] == s.inFlight[k] && |s.flights| <= |r.flights|
            && forall f :: |s.flights| <= f < |r.flights| ==> r.flights[f].key != k
    decreases |turns|
  {
    if turns != [] {
      StuckStep(cfg, s, turns[0], k);
      StepKeepsKeys(cfg, s, turns[0]);
      StepInv(cfg, s, turns[0]);
      StuckForGood(cfg, Step(cfg, s, turns[0]), turns[1..], k);
      RunKeepsKeys(cfg, Step(cfg, s, turns[0]), turns[1..]);
    }
  }

  lemma StepKeepsKeys<V>(cfg: Config, s: State<V>, t: Turn<V>)
    requires Enabled(s, t)
    ensures var r := Step(cfg, s, t);
            |s.flights| <= |r.flights| && forall f :: 0 <= f < |s.flights| ==> r.flights[f].key == s.flights[f].key
  {}

  lemma {:induction false} RunKeepsKeys<V>(cfg: Config, s: State<V>, turns: seq<Turn<V>>)
    requires Feasible(cfg, s, turns)
    ensures var r := Run(cfg, s, turns);
            |s.flights| <= |r.flights| && forall f :: 0 <= f < |s.flights| ==> r.flights[f].key == s.flights[f].key
    decreases |turns|
  {
    if turns != [] {
      StepKeepsKeys(cfg, s, turns[0]);
      RunKeepsKeys(cfg, Step(cfg, s, turns[0]), turns[1..]);
    }
  }

  // A caller that misses a stuck key is sent to the flight that failed.
  lemma StuckFails<V>(cfg: Config, s: State<V>, c: nat, t: Turn<V>)
    requires Inv(s) && t.event.Resume? && t.event.caller == c && Enabled(s, t)
    requires s.callers[c].cached.None? && Stuck(s, s.callers[c].key)
    ensures var r := Step(cfg, s, t);
            && r.flights == s.flights && r.callers[c].Waiting? && r.callers[c].flight < |r.flights|
            && r.flights[r.callers[c].flight].phase == Done(Failed)
  {}

  // A miss starts a load if and only if none of its key is in flight and the key is not stuck.
  lemma MissLoads<V>(cfg: Config, s: State<V>, c: nat, t: Turn<V>)
    requires Inv(s) && t.event.Resume? && t.event.caller == c && Enabled(s, t) && s.callers[c].cached.None?
    ensures |Step(cfg, s, t).flights| == |s.flights| + 1 <==>
            !InTheAir(s.flights, s.callers[c].key) && !Stuck(s, s.callers[c].key)
  {
    var k := s.callers[c].key;
    if k in s.inFlight && !Stuck(s, k) {
      assert Running(s.flights[s.inFlight[k]]);
    }
  }

  // One synchronous throw is enough to get stuck.
  lemma ThrowingLoadSticks<V>(cfg: Config, s: State<V>, c: nat, t: Turn<V>)
    requires Inv(s) && t.event == Resume(c, true) && Enabled(s, t)
    requires s.callers[c].cached.None? && s.callers[c].key !in s.inFlight
    ensures Stuck(Step(cfg, s, t), s.callers[c].key)
  {}

  // ---- where answers and stored values come from -----------------------------------------

  // Some load of k has produced v.
  ghost predicate Loaded<V>(flights: seq<Flight<V>>, k: string, v: Option<V>)
  {
    exists f :: 0 <= f < |flights| && flights[f].key == k && v.Some?
      && (flights[f].phase == Storing(v) || flights[f].phase == Done(Value(v)))
  }

  ghost predicate StoreLoaded<V>(entries: map<string, Entry<V>>, flights: seq<Flight<V>>)
  {
    forall k | k in entries :: Loaded(flights, k, entries[k].value)
  }

  ghost predicate HitsLoaded<V>(callers: seq<Caller<V>>, flights: seq<Flight<V>>)
  {
    forall c :: 0 <= c < |callers| ==>
      match callers[c]
      case Checking(key, ttl, cached) => cached.Some? ==> Loaded(flights, key, cached)
      case Waiting(key, f) => true
      case Answered(key, outcome, via) => outcome.Value? && outcome.value.Some? ==> Loaded(flights, key, outcome.value)
  }

  lemma StepKeepsLoaded<V>(cfg: Config, s: State<V>, t: Turn<V>, k: string, v: Option<V>)
    requires Enabled(s, t) && Loaded(s.flights, k, v)
    ensures Loaded(Step(cfg, s, t).flights, k, v)
  {
    var f :| 0 <= f < |s.flights| && s.flights[f].key == k && v.Some?
      && (s.flights[f].phase == Storing(v) || s.flights[f].phase == Done(Value(v)));
    var r := Step(cfg, s, t);
    assert f < |r.flights| && r.flights[f].key == k
           && (r.flights[f].phase == Storing(v) || r.flights[f].phase == Done(Value(v)));
  }

  // A load that fails or comes back with nothing leaves the store as it is.
  lemma OnlyValuesAreStored<V>(cfg: Config, s: State<V>, t: Turn<V>)
    requires Enabled(s, t) && !t.event.Elsewhere?
    ensures var r := Step(cfg, s, t);
            forall k | k in r.store.entries ::
              || (k in s.store.entries && r.store.entries[k] == s.store.entries[k])
              || (t.event.Settle? && t.event.outcome.Value? && t.event.outcome.value.Some?
                  && k == s.flights[t.event.flight].key && r.store.entries[k].value == t.event.outcome.value)
  {}

  lemma StepStoreLoaded<V>(cfg: Config, s: State<V>, t: Turn<V>)
    requires Enabled(s, t) && !t.event.Elsewhere? && StoreLoaded(s.store.entries, s.flights)
    ensures StoreLoaded(Step(cfg, s, t).store.entries, Step(cfg, s, t).flights)
  {
    var r := Step(cfg, s, t);
    OnlyValuesAreStored(cfg, s, t);
    forall k | k in r.store.entries ensures Loaded(r.flights, k, r.store.entries[k].value) {
      if k in s.store.entries && r.store.entries[k] == s.store.entries[k] {
        StepKeepsLoaded(cfg, s, t, k, s.store.entries[k].value);
      } else {
        assert r.flights[t.event.flight].phase == Storing(r.store.entries[k].value);
      }
    }
  }

  lemma StepHitsLoaded<V>(cfg: Config, s: State<V>, t: Turn<V>)
    requires Inv(s) && Enabled(s, t) && StoreLoaded(s.store.entries, s.flights) && HitsLoaded(s.callers, s.flights)
    ensures HitsLoaded(Step(cfg, s, t).callers, Step(cfg, s, t).flights)
  {
    var r := Step(cfg, s, t);
    forall k, v | Loaded(s.flights, k, v) ensures Loaded(r.flights, k, v) {
      StepKeepsLoaded(cfg, s, t, k, v);
    }
  }

  lemma {:induction false} RunLoaded<V>(cfg: Config, s: State<V>, turns: seq<Turn<V>>)
    requires Inv(s) && Feasible(cfg, s, turns) && StoreLoaded(s.store.entries, s.flights)
             && HitsLoaded(s.callers, s.flights)
    requires forall i :: 0 <= i < |turns| ==> !turns[i].event.Elsewhere?
    ensures var r := Run(cfg, s, turns); StoreLoaded(r.store.entries, r.flights) && HitsLoaded(r.callers, r.flights)
    decreases |turns|
  {
    if turns != [] {
      StepInv(cfg, s, turns[0]);
      StepStoreLoaded(cfg, s, turns[0]);
      StepHitsLoaded(cfg, s, turns[0]);
      RunLoaded(cfg, Step(cfg, s, turns[0]), turns[1..]);
    }
  }

  // The caller was answered with a value.
  predicate IsValue<V>(c: Caller<V>)
  {
    c.Answered? && c.outcome.Value? && c.outcome.value.Some?
  }

  // Starting from an empty cache that nothing else writes to, whatever a caller is answered and whatever is stored is a
  // value some load of that very key has produced; a missing value is never stored.
  lemma AnswersWereLoaded<V>(cfg: Config, turns: seq<Turn<V>>, c: nat, k: string)
    requires Feasible(cfg, Initial(Empty<V>()), turns) && forall i :: 0 <= i < |turns| ==> !turns[i].event.Elsewhere?
    ensures var s := Run(cfg, Initial(Empty<V>()), turns);
            && (c < |s.callers| && IsValue(s.callers[c]) ==>
                  Loaded(s.flights, s.callers[c].key, s.callers[c].outcome.value))
            && (k in s.store.entries ==>
                  s.store.entries[k].value.Some? && Loaded(s.flights, k, s.store.entries[k].value))
  {
    RunLoaded(cfg, Initial(Empty<V>()), turns);
  }
}
