/**
 What callers of getOrSet are answered: a value that is stored and still lasts, at once and without a
 load; otherwise whatever the load they wait for comes to, which is stored for as long as was asked.
 */
module SingleFlightAnswers {
  import opened Common
  import opened Cache
  import opened SingleFlight
  import CacheRefinement

  // The store holds what was asked for under the key, a value that still lasts.
  predicate Serves<V(==)>(cfg: Config, store: Store<V>, key: string, w: CacheRefinement.Write<V>, now: int)
  {
    && cfg.enabled && w.value.Some? && key in store.entries
    && CacheRefinement.Holds(store.entries[key], w, cfg.defaultTtl) && CacheRefinement.Lasts(w, cfg.defaultTtl, now)
  }

  // A hit is answered with the stored value, and nothing is loaded.
  lemma HitIsAnswered<V>(cfg: Config, s: State<V>, ask: Turn<V>, resume: Turn<V>, w: CacheRefinement.Write<V>)
    requires ask.event.Ask? && Enabled(s, ask) && Serves(cfg, s.store, ask.event.key, w, ask.now)
    requires resume.event.Resume? && resume.event.caller == |s.callers| && resume.cap >= 1
    ensures var u := Step(cfg, s, ask);
            && Enabled(u, resume)
            && var r := Step(cfg, u, resume);
               && r.callers == s.callers + [Answered(ask.event.key, Value(w.value), None)]
               && r.flights == s.flights && r.inFlight == s.inFlight && r.store == s.store
  {
    var key := ask.event.key;
    CacheRefinement.HoldsWhileItLasts(s.store.entries[key], w, cfg.defaultTtl, ask.now);
    var u := Step(cfg, s, ask);
    assert u.callers == s.callers + [Checking(key, ask.event.ttl, w.value)];
  }

  // A caller that finds nothing waits for the load of its key, its own if there was none.
  lemma MissWaits<V>(cfg: Config, s: State<V>, c: nat, t: Turn<V>)
    requires Inv(s) && t.event.Resume? && t.event.caller == c && Enabled(s, t) && s.callers[c].cached.None?
    ensures var r, key := Step(cfg, s, t), s.callers[c].key;
            && r.callers[c].Waiting? && r.callers[c].key == key
            && var f := r.callers[c].flight;
               && f < |r.flights| && r.flights[f].key == key
               && (key in s.inFlight ==> f == s.inFlight[key] && r.flights == s.flights)
               && (key !in s.inFlight ==> f == |s.flights| && r.flights[f].ttl == s.callers[c].ttl)
               && (key !in s.inFlight && !t.event.throws ==> r.flights[f].phase.Loading?)
  {}

  // A load that comes back with a value stores it for the ttl it was asked with.
  lemma LoadedIsStored<V>(cfg: Config, s: State<V>, f: nat, v: Option<V>, t: Turn<V>)
    requires t.event == Settle(f, Value(v)) && v.Some? && Enabled(s, t) && t.now >= 0
    ensures var r, x := Step(cfg, s, t), s.flights[f];
            && r.flights[f].phase == Storing(v) && r.callers == s.callers
            && (!cfg.enabled ==> r.store == s.store)
            && (cfg.enabled ==>
                  && x.key in r.store.entries
                  && CacheRefinement.Holds(r.store.entries[x.key], CacheRefinement.Write(v, x.ttl, t.now),
                                           cfg.defaultTtl))
  {}

  // One that fails or finds nothing is over at once.
  lemma EmptyLoadEnds<V>(cfg: Config, s: State<V>, f: nat, outcome: Outcome<V>, t: Turn<V>)
    requires t.event == Settle(f, outcome) && Enabled(s, t) && (outcome.Value? ==> outcome.value.None?)
    ensures var r := Step(cfg, s, t);
            && r.flights[f].phase == Done(outcome) && s.flights[f].key !in r.inFlight
            && r.store == s.store && r.callers == s.callers
  {}

  // Whatever a load comes to, everyone who waits for it can be answered with just that.
  lemma WaiterIsAnswered<V>(cfg: Config, s: State<V>, c: nat, outcome: Outcome<V>, now: int, cap: nat)
    returns (turns: seq<Turn<V>>)
    requires Inv(s) && c < |s.callers| && s.callers[c].Waiting? && cap >= 1
    requires s.callers[c].flight < |s.flights| && s.flights[s.callers[c].flight].phase.Loading?
    ensures turns != [] && turns[0].event == Settle(s.callers[c].flight, outcome) && Feasible(cfg, s, turns)
    ensures var r := Run(cfg, s, turns);
            c < |r.callers| && r.callers[c] == Answered(s.callers[c].key, outcome, Some(s.callers[c].flight))
  {
    var f := s.callers[c].flight;
    var settle, stored := Turn(Settle(f, outcome), now, cap), Turn(Event<V>.Stored(f), now, cap);
    var deliver := Turn(Event<V>.Deliver(c), now, cap);
    var u := Step(cfg, s, settle);
    assert u.callers == s.callers;
    if outcome.Value? && outcome.value.Some? {
      var w := Step(cfg, u, stored);
      assert w.callers == s.callers && w.flights[f].phase == Done(outcome);
      Then(cfg, w, deliver, []);
      Then(cfg, u, stored, [deliver]);
      Then(cfg, s, settle, [stored, deliver]);
      turns := [settle, stored, deliver];
    } else {
      Then(cfg, u, deliver, []);
      Then(cfg, s, settle, [deliver]);
      turns := [settle, deliver];
    }
  }

  lemma Then<V>(cfg: Config, s: State<V>, t: Turn<V>, rest: seq<Turn<V>>)
    requires Enabled(s, t) && Feasible(cfg, Step(cfg, s, t), rest)
    ensures Feasible(cfg, s, [t] + rest) && Run(cfg, s, [t] + rest) == Run(cfg, Step(cfg, s, t), rest)
  {
    assert ([t] + rest)[1..] == rest;
  }
}
