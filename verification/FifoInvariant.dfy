/** What the scheduler keeps: compatible swaps, quiet evictees, balanced slots and
    every admitted request in exactly one place. */
module FifoInvariant {
  import opened Names
  import opened FifoSpec

  // ------------------------------------------------------------ reading the log

  /** Each admitted request and its model. */
  ghost function AdmittedIn(log: seq<Effect>): map<nat, string>
  {
    if log == [] then map[]
    else
      var before, e := AdmittedIn(log[..|log| - 1]), log[|log| - 1];
      if e.Admitted? then before[e.id := e.model] else before
  }

  predicate Closes(e: Effect) { e.Served? || e.Undelivered? || e.Refused? || e.Errored? || e.Cancelled? }

  /** The requests that got their one answer or went away, with repetitions. */
  ghost function Closed(log: seq<Effect>): multiset<nat>
  {
    if log == [] then multiset{}
    else
      var before, e := Closed(log[..|log| - 1]), log[|log| - 1];
      if Closes(e) then before + multiset{e.id} else before
  }

  lemma LogStep(log: seq<Effect>, e: Effect)
    ensures AdmittedIn(log + [e]) == if e.Admitted? then AdmittedIn(log)[e.id := e.model] else AdmittedIn(log)
    ensures Closed(log + [e]) == if Closes(e) then Closed(log) + multiset{e.id} else Closed(log)
  {
    assert (log + [e])[..|log|] == log;
  }

  // ------------------------------------------------------------------ invariants

  /** No swap stops another's target, and no model is being stopped by two swaps. */
  ghost predicate Compatible(active: map<string, Swap>)
  {
    forall a, b :: a in active && b in active && a != b ==>
      a !in active[b].evict && !Overlap(active[a].evict, active[b].evict)
  }

  /** No model that an active swap stops has a request in flight. */
  ghost predicate Quiet(active: map<string, Swap>, inFlight: map<string, int>)
  {
    forall a, m :: a in active && m in active[a].evict ==> m !in inFlight
  }

  ghost predicate Positive(counts: map<string, int>)
  {
    forall m :: m in counts ==> counts[m] > 0
  }

  /** Every handler was granted for a model no active swap was stopping. */
  ghost predicate GrantsSafe(log: seq<Effect>)
  {
    forall i :: 0 <= i < |log| && log[i].Served? ==> log[i].evictors == {}
  }

  ghost predicate Safe(s: State)
  {
    Compatible(s.active) && Quiet(s.active, s.inFlight) && GrantsSafe(s.log)
  }

  function Waiters(active: map<string, Swap>, m: string): seq<Req>
  {
    if m in active then active[m].waiters else []
  }

  ghost function OfModel(held: set<Req>, m: string): set<Req>
  {
    set r | r in held && r.model == m
  }

  /** A model's reserved slots are its requests in flight, held and waiting on its
      swap; never more than its limit. */
  ghost predicate Balanced(cfg: Config, s: State, held: set<Req>)
  {
    && !s.panicked && Positive(s.reserved) && Positive(s.inFlight)
    && forall m :: BalancedFor(cfg, s, held, m)
  }

  ghost predicate BalancedFor(cfg: Config, s: State, held: set<Req>, m: string)
  {
    && Get(s.reserved, m) == Get(s.inFlight, m) + |OfModel(held, m)| + |Waiters(s.active, m)|
    && Get(s.reserved, m) <= cfg.Limit(m)
  }

  /** An open request is admitted under its own model and has no answer yet. */
  ghost predicate Open(log: seq<Effect>, r: Req)
  {
    r.id in AdmittedIn(log) && AdmittedIn(log)[r.id] == r.model && Closed(log)[r.id] == 0
  }

  ghost predicate DistinctIds(reqs: seq<Req>)
  {
    forall i, j :: 0 <= i < j < |reqs| ==> reqs[i].id != reqs[j].id
  }

  ghost predicate HasRequest(reqs: set<Req>, id: nat)
  {
    exists r :: r in reqs && r.id == id
  }

  ghost predicate WaitingOk(log: seq<Effect>, held: set<Req>, m: string, ws: seq<Req>)
  {
    && DistinctIds(ws)
    && forall w :: w in ws ==> w.model == m && Open(log, w) && !HasRequest(held, w.id)
  }

  ghost predicate Somewhere(active: map<string, Swap>, held: set<Req>, id: nat, m: string)
  {
    HasRequest(held, id) || HasRequest(Elements(Waiters(active, m)), id)
  }

  /** Every admitted request is in exactly one place: held, waiting on the swap of
      its model, or closed by exactly one answer. */
  ghost predicate Placed(s: State, held: set<Req>)
  {
    && (forall r :: r in held ==> Open(s.log, r))
    && (forall r, t :: r in held && t in held && r.id == t.id ==> r == t)
    && (forall m :: m in s.active ==> WaitingOk(s.log, held, m, s.active[m].waiters))
    && (forall id :: id in AdmittedIn(s.log) && Closed(s.log)[id] == 0 ==>
          Somewhere(s.active, held, id, AdmittedIn(s.log)[id]))
    && (forall id :: Closed(s.log)[id] <= 1)
    && (forall id :: id in Closed(s.log) ==> id in AdmittedIn(s.log))
  }

  /** Requests in flight are the handlers that run and those that returned and have
      not reported; the leases held are one for every handler that runs. */
  ghost predicate Metered(cfg: Config, s: State)
  {
    forall m :: MeteredFor(cfg, s, m)
  }

  ghost predicate MeteredFor(cfg: Config, s: State, m: string)
  {
    && Get(s.serving, m) >= 0 && Get(s.finishing, m) >= 0
    && Get(s.inFlight, m) == Get(s.serving, m) + Get(s.finishing, m)
    && Get(s.leases, m) == if m in cfg.leaseAware then Get(s.serving, m) else 0
  }

  /** The invariant while the requests `held` are outside every swap: the queue
      between events, the queue being drained or in hand during one. */
  ghost predicate Holds(cfg: Config, s: State, held: set<Req>)
  {
    Safe(s) && Balanced(cfg, s, held) && Placed(s, held) && Metered(cfg, s)
  }

  ghost predicate Busy(s: State) { s.active != map[] || s.inFlight != map[] }

  ghost predicate Inv(cfg: Config, s: State)
  {
    && Holds(cfg, s, Elements(s.queued)) && DistinctIds(s.queued)
    && (s.queued != [] ==> Busy(s))
  }

  // ------------------------------------------------------------- small facts

  lemma OfModelChanges(held: set<Req>, r: Req)
    ensures r in held ==> forall m :: |OfModel(held - {r}, m)| == |OfModel(held, m)| - (if r.model == m then 1 else 0)
    ensures r !in held ==> forall m :: |OfModel(held + {r}, m)| == |OfModel(held, m)| + (if r.model == m then 1 else 0)
  {
    if r in held {
      forall m
        ensures |OfModel(held - {r}, m)| == |OfModel(held, m)| - (if r.model == m then 1 else 0)
      {
        assert OfModel(held - {r}, m) == OfModel(held, m) - {r};
      }
    } else {
      forall m
        ensures |OfModel(held + {r}, m)| == |OfModel(held, m)| + (if r.model == m then 1 else 0)
      {
        assert OfModel(held + {r}, m) == OfModel(held, m) + if r.model == m then {r} else {};
      }
    }
  }

  lemma {:induction false} DistinctSize(reqs: seq<Req>, m: string)
    requires DistinctIds(reqs) && forall r :: r in reqs ==> r.model == m
    ensures |Elements(reqs)| == |reqs|
  {
    if reqs != [] {
      var k := |reqs| - 1;
      assert reqs == reqs[..k] + [reqs[k]];
      DistinctSize(reqs[..k], m);
      assert Elements(reqs) == Elements(reqs[..k]) + {reqs[k]};
      assert reqs[k] !in reqs[..k];
    }
  }

  lemma NoEvictors(active: map<string, Swap>, model: string, evict: seq<string>)
    requires !Collides(model, evict, active) && model !in active
    ensures Evictors(active, model) == {}
  {
    forall id | id in active
      ensures model !in active[id].evict
    {
      assert !CollidesWithOne(model, evict, id, active[id]);
    }
  }

  // ----------------------------------------------------- one request at a time

  predicate Neutral(e: Effect)
  {
    e.Rejected? || e.FastPath? || e.SwapStarted? || e.LeaseAsked? || e.LeaseReturned?
  }

  /** An effect that neither admits nor closes anything. */
  lemma NeutralLog(cfg: Config, s: State, held: set<Req>, e: Effect)
    requires Holds(cfg, s, held) && Neutral(e)
    ensures Holds(cfg, Log(s, e), held)
  {
    LogStep(s.log, e);
    forall m
      ensures BalancedFor(cfg, Log(s, e), held, m) && MeteredFor(cfg, Log(s, e), m)
    {
      assert BalancedFor(cfg, s, held, m) && MeteredFor(cfg, s, m);
    }
  }

  /** The bursts, the queue while its requests are held, and how the leases are written
      down are nothing the invariant reads. */
  lemma AsideFree(cfg: Config, s: State, held: set<Req>, t: State)
    requires Holds(cfg, s, held) && t == s.(bursts := t.bursts, queued := t.queued, leases := t.leases)
    requires forall m :: Get(t.leases, m) == Get(s.leases, m)
    ensures Holds(cfg, t, held)
  {
    forall m
      ensures BalancedFor(cfg, t, held, m) && MeteredFor(cfg, t, m)
    {
      assert BalancedFor(cfg, s, held, m) && MeteredFor(cfg, s, m);
    }
  }

  /** Giving back a reserved slot takes one off the model's count. */
  lemma ReleaseCounts(s: State, model: string)
    requires Get(s.reserved, model) > 0
    ensures
      var t := Release(s, model);
      && t == s.(reserved := t.reserved) && t.reserved.Keys <= s.reserved.Keys
      && forall m :: Get(t.reserved, m) == Get(s.reserved, m) - (if m == model then 1 else 0)
  {
  }

  lemma ReleaseSlot(cfg: Config, s: State, held: set<Req>, r: Req)
    requires Balanced(cfg, s, held) && r in held
    ensures
      var t := Release(s, r.model);
      && t == s.(reserved := t.reserved) && Balanced(cfg, t, held - {r})
  {
    OfModelChanges(held, r);
    assert BalancedFor(cfg, s, held, r.model);
    assert r in OfModel(held, r.model);
    ReleaseCounts(s, r.model);
    var t := Release(s, r.model);
    assert Positive(t.reserved);
    forall m
      ensures BalancedFor(cfg, t, held - {r}, m)
    {
      assert BalancedFor(cfg, s, held, m);
    }
  }

  lemma ClosePlaced(s: State, held: set<Req>, r: Req, e: Effect)
    requires Placed(s, held) && r in held && Closes(e) && e.id == r.id
    ensures Placed(Log(s, e), held - {r})
  {
    LogStep(s.log, e);
    var t, rest := Log(s, e), held - {r};
    forall x | Open(s.log, x) && x.id != r.id
      ensures Open(t.log, x)
    {}
    forall id | HasRequest(held, id) && id != r.id
      ensures HasRequest(rest, id)
    {
      var x :| x in held && x.id == id;
      assert x in rest;
    }
    forall m | m in t.active
      ensures WaitingOk(t.log, rest, m, t.active[m].waiters)
    {
      assert WaitingOk(s.log, held, m, s.active[m].waiters) && HasRequest(held, r.id);
    }
  }

  /** A held request leaves without being served: its slot is given back. */
  lemma CloseHeld(cfg: Config, s: State, held: set<Req>, r: Req, e: Effect)
    requires Holds(cfg, s, held) && r in held
    requires Closes(e) && !e.Served? && e.id == r.id
    ensures
      var t := Dismissed(s, r, e);
      && Holds(cfg, t, held - {r})
      && t.active == s.active && t.inFlight == s.inFlight && t.queued == s.queued && t.bursts == s.bursts
  {
    ReleaseSlot(cfg, s, held, r);
    var mid := Release(s, r.model);
    var t := Log(mid, e);
    ClosePlaced(mid, held, r, e);
    LogStep(s.log, e);
    forall m
      ensures BalancedFor(cfg, t, held - {r}, m) && MeteredFor(cfg, t, m)
    {
      assert BalancedFor(cfg, mid, held - {r}, m) && MeteredFor(cfg, s, m);
    }
  }

  /** The state once a caller was handed its handler and counted, the leases being as given. */
  ghost function Counted(s: State, r: Req, leases: map<string, int>): State
  {
    Handed(s.(leases := leases), r, r.model).(inFlight := s.inFlight[r.model := Get(s.inFlight, r.model) + 1])
  }

  /** A grant whose handler nobody received leaves no lease behind. */
  lemma MissedHolds(cfg: Config, env: Env, s: State, held: set<Req>, r: Req)
    requires Holds(cfg, s, held) && GrantServe(cfg, env, s, r, r.model).Missed?
    ensures
      var g := GrantServe(cfg, env, s, r, r.model);
      && Holds(cfg, g.s, held) && Closes(g.answer) && !g.answer.Served? && g.answer.id == r.id
      && g.s.active == s.active && g.s.inFlight == s.inFlight && g.s.queued == s.queued
  {
    if r.model in cfg.leaseAware {
      NeutralLog(cfg, s, held, LeaseAsked(r.model, env.lends(r.id)));
      if env.lends(r.id) {
        assert MeteredFor(cfg, s, r.model);
        GivenBackHolds(cfg, env, s, held, r);
      }
    }
  }

  lemma GivenBackHolds(cfg: Config, env: Env, s: State, held: set<Req>, r: Req)
    requires Holds(cfg, Log(s, LeaseAsked(r.model, true)), held) && Get(s.leases, r.model) >= 0 && env.lends(r.id)
    ensures Holds(cfg, LeaseGivenBack(LeaseAskedFor(env, s, r.id, r.model), r.model), held)
  {
    var asked := Log(s, LeaseAsked(r.model, true));
    NeutralLog(cfg, asked, held, LeaseReturned(r.model));
    var back := LeaseGivenBack(LeaseAskedFor(env, s, r.id, r.model), r.model);
    AsideFree(cfg, Log(asked, LeaseReturned(r.model)), held, back);
  }

  /** A held request is granted a handler for a model nobody is stopping. */
  lemma GrantHeld(cfg: Config, env: Env, s: State, held: set<Req>, r: Req)
    requires Holds(cfg, s, held) && r in held && Evictors(s.active, r.model) == {}
    ensures
      var t := GrantHandler(cfg, env, s, r, r.model);
      && Holds(cfg, t, held - {r})
      && t.active == s.active && s.inFlight.Keys <= t.inFlight.Keys && t.queued == s.queued
  {
    var g := GrantServe(cfg, env, s, r, r.model);
    if g.Missed? {
      MissedHolds(cfg, env, s, held, r);
      CloseHeld(cfg, g.s, held, r, g.answer);
    } else {
      ReceivedHeld(cfg, env, s, held, r);
    }
  }

  lemma LeasedGrant(cfg: Config, env: Env, s: State, r: Req)
    requires r.model in cfg.leaseAware && GrantServe(cfg, env, s, r, r.model).Received?
    ensures GrantHandler(cfg, env, s, r, r.model) ==
      Counted(Log(s, LeaseAsked(r.model, true)), r, s.leases[r.model := Get(s.leases, r.model) + 1])
  {
  }

  lemma PlainGrant(cfg: Config, env: Env, s: State, r: Req)
    requires r.model !in cfg.leaseAware && GrantServe(cfg, env, s, r, r.model).Received?
    ensures GrantHandler(cfg, env, s, r, r.model) == Counted(s, r, s.leases)
  {
  }

  lemma ReceivedHeld(cfg: Config, env: Env, s: State, held: set<Req>, r: Req)
    requires Holds(cfg, s, held) && r in held && Evictors(s.active, r.model) == {}
    requires GrantServe(cfg, env, s, r, r.model).Received?
    ensures
      var t := GrantHandler(cfg, env, s, r, r.model);
      && Holds(cfg, t, held - {r})
      && t.active == s.active && s.inFlight.Keys <= t.inFlight.Keys && t.queued == s.queued
  {
    if r.model in cfg.leaseAware {
      NeutralLog(cfg, s, held, LeaseAsked(r.model, true));
      ServeHeld(cfg, Log(s, LeaseAsked(r.model, true)), held, r, s.leases[r.model := Get(s.leases, r.model) + 1]);
      LeasedGrant(cfg, env, s, r);
    } else {
      ServeHeld(cfg, s, held, r, s.leases);
      PlainGrant(cfg, env, s, r);
    }
  }

  /** The request is handed its handler and counted, under its lease if it has one. */
  lemma ServeHeld(cfg: Config, s: State, held: set<Req>, r: Req, leases: map<string, int>)
    requires Holds(cfg, s, held) && r in held && Evictors(s.active, r.model) == {}
    requires leases == if r.model in cfg.leaseAware then s.leases[r.model := Get(s.leases, r.model) + 1] else s.leases
    ensures Holds(cfg, Counted(s, r, leases), held - {r})
  {
    var e := Served(r.id, r.model, {});
    var counted := s.(leases := leases, serving := s.serving[r.model := Get(s.serving, r.model) + 1],
                      inFlight := s.inFlight[r.model := Get(s.inFlight, r.model) + 1]);
    var t := Counted(s, r, leases);
    assert t == Log(counted, e);
    PlacedReads(s, counted, held);
    ClosePlaced(counted, held, r, e);
    ServeBalanced(cfg, s, held, r, t);
    ServeMetered(cfg, s, t, r.model);
    ServeSafe(s, counted, e);
  }

  lemma PlacedReads(s: State, t: State, held: set<Req>)
    requires Placed(s, held) && t.active == s.active && t.log == s.log
    ensures Placed(t, held)
  {}

  lemma ServeMetered(cfg: Config, s: State, t: State, model: string)
    requires Metered(cfg, s) && t.finishing == s.finishing
    requires t.inFlight == s.inFlight[model := Get(s.inFlight, model) + 1]
    requires t.serving == s.serving[model := Get(s.serving, model) + 1]
    requires t.leases == if model in cfg.leaseAware then s.leases[model := Get(s.leases, model) + 1] else s.leases
    ensures Metered(cfg, t)
  {
    forall m
      ensures MeteredFor(cfg, t, m)
    {
      assert MeteredFor(cfg, s, m);
    }
  }

  lemma ServeSafe(s: State, counted: State, e: Effect)
    requires Safe(s) && e.Served? && e.evictors == {} && Evictors(s.active, e.model) == {}
    requires counted.active == s.active && counted.log == s.log && counted.inFlight.Keys == s.inFlight.Keys + {e.model}
    ensures Safe(Log(counted, e))
  {
    forall a, m | a in s.active && m in s.active[a].evict
      ensures m !in counted.inFlight
    {
      assert a in Evictors(s.active, m);
    }
  }

  lemma ServeBalanced(cfg: Config, s: State, held: set<Req>, r: Req, t: State)
    requires Balanced(cfg, s, held) && r in held
    requires t.active == s.active && t.reserved == s.reserved && t.panicked == s.panicked
    requires t.inFlight == s.inFlight[r.model := Get(s.inFlight, r.model) + 1]
    ensures Balanced(cfg, t, held - {r})
  {
    OfModelChanges(held, r);
    forall m
      ensures BalancedFor(cfg, t, held - {r}, m)
    {
      assert BalancedFor(cfg, s, held, m);
    }
  }

  /** A held request starts a swap that neither collides nor stops a busy model. */
  lemma StartHeld(cfg: Config, s: State, held: set<Req>, r: Req, evict: seq<string>)
    requires Holds(cfg, s, held) && r in held && r.model !in s.active
    requires !Collides(r.model, evict, s.active) && !Conflicts(evict, s.inFlight)
    ensures
      var t := StartSwap(cfg, s, r, evict);
      && Holds(cfg, t, held - {r}) && t.active != map[] && t.inFlight == s.inFlight && t.queued == s.queued
  {
    var e := SwapStarted(r.model, evict);
    var mid := s.(active := s.active[r.model := Swap(evict, [r])]);
    var t := StartSwap(cfg, s, r, evict);
    OfModelChanges(held, r);
    forall m
      ensures BalancedFor(cfg, mid, held - {r}, m) && MeteredFor(cfg, mid, m)
    {
      assert BalancedFor(cfg, s, held, m) && MeteredFor(cfg, s, m);
    }
    StartIsSafe(s, r.model, Swap(evict, [r]));
    WaitPlaced(s, held, r, Swap(evict, [r]));
    NeutralLog(cfg, mid, held - {r}, e);
    AsideFree(cfg, Log(mid, e), held - {r}, t);
    assert r.model in t.active;
  }

  lemma OverlapSymmetric(xs: seq<string>, ys: seq<string>)
    ensures Overlap(xs, ys) ==> Overlap(ys, xs)
  {
    if Overlap(xs, ys) {
      var i :| 0 <= i < |xs| && xs[i] in ys;
      var j :| 0 <= j < |ys| && ys[j] == xs[i];
      assert ys[j] in xs;
    }
  }

  lemma StartIsSafe(s: State, model: string, swap: Swap)
    requires Safe(s) && Positive(s.inFlight) && model !in s.active
    requires !Collides(model, swap.evict, s.active) && !Conflicts(swap.evict, s.inFlight)
    ensures Safe(s.(active := s.active[model := swap]))
  {
    forall id | id in s.active
      ensures id !in swap.evict && model !in s.active[id].evict
      ensures !Overlap(swap.evict, s.active[id].evict) && !Overlap(s.active[id].evict, swap.evict)
    {
      assert !CollidesWithOne(model, swap.evict, id, s.active[id]);
      OverlapSymmetric(s.active[id].evict, swap.evict);
    }
    forall m | m in swap.evict
      ensures m !in s.inFlight
    {
      var i :| 0 <= i < |swap.evict| && swap.evict[i] == m;
      assert !(Get(s.inFlight, swap.evict[i]) > 0);
    }
  }

  /** Moving a held request to the waiters of its model's swap. */
  lemma WaitPlaced(s: State, held: set<Req>, r: Req, swap: Swap)
    requires Placed(s, held) && r in held
    requires swap.waiters == Waiters(s.active, r.model) + [r]
    ensures Placed(s.(active := s.active[r.model := swap]), held - {r})
  {
    var before, rest := Waiters(s.active, r.model), held - {r};
    var t := s.(active := s.active[r.model := swap]);
    assert HasRequest(held, r.id);
    HeldWithout(held, r);
    assert WaitingOk(s.log, held, r.model, before);
    assert forall i :: 0 <= i < |before| ==> before[i] in before && swap.waiters[i] == before[i];
    assert WaitingOk(t.log, rest, r.model, swap.waiters);
    forall m | m in s.active && m != r.model
      ensures WaitingOk(t.log, rest, m, t.active[m].waiters)
    {
      assert WaitingOk(s.log, held, m, s.active[m].waiters);
    }
    forall id, m | Somewhere(s.active, held, id, m) && (id == r.id ==> m == r.model)
      ensures Somewhere(t.active, rest, id, m)
    {
      WaitSomewhere(s, held, r, swap, id, m);
    }
    assert Open(s.log, r);
  }

  lemma HeldWithout(held: set<Req>, r: Req)
    requires r in held && forall x, y :: x in held && y in held && x.id == y.id ==> x == y
    ensures forall id :: HasRequest(held, id) <==> HasRequest(held - {r}, id) || id == r.id
  {
    assert HasRequest(held, r.id);
    forall id | HasRequest(held, id) && id != r.id
      ensures HasRequest(held - {r}, id)
    {
      var x :| x in held && x.id == id;
      assert x in held - {r};
    }
  }

  lemma WaitSomewhere(s: State, held: set<Req>, r: Req, swap: Swap, id: nat, m: string)
    requires r in held && swap.waiters == Waiters(s.active, r.model) + [r]
    requires Somewhere(s.active, held, id, m) && (id == r.id ==> m == r.model)
    ensures Somewhere(s.active[r.model := swap], held - {r}, id, m)
  {
    var active := s.active[r.model := swap];
    if id == r.id {
      assert r in Elements(Waiters(active, m));
    } else if HasRequest(held, id) {
      var x :| x in held && x.id == id;
      assert x in held - {r};
    } else {
      var x :| x in Elements(Waiters(s.active, m)) && x.id == id;
      assert x in Elements(Waiters(active, m));
    }
  }

  lemma JoinHeld(cfg: Config, s: State, held: set<Req>, r: Req)
    requires Holds(cfg, s, held) && r in held && r.model in s.active
    ensures
      var t := Join(s, r);
      && Holds(cfg, t, held - {r})
      && t.active.Keys == s.active.Keys && t.inFlight == s.inFlight && t.queued == s.queued
  {
    var t := Join(s, r);
    OfModelChanges(held, r);
    WaitPlaced(s, held, r, t.active[r.model]);
    forall m
      ensures BalancedFor(cfg, t, held - {r}, m) && MeteredFor(cfg, t, m)
    {
      assert BalancedFor(cfg, s, held, m) && MeteredFor(cfg, s, m);
    }
    SameEvictsSafe(s, t);
  }

  lemma SameEvictsSafe(s: State, t: State)
    requires Safe(s) && t.active.Keys == s.active.Keys && t.inFlight == s.inFlight && t.log == s.log
    requires forall m :: m in s.active ==> t.active[m].evict == s.active[m].evict
    ensures Safe(t)
  {}

  lemma AdmitHeld(cfg: Config, s: State, held: set<Req>, r: Req)
    requires Holds(cfg, s, held) && Get(s.reserved, r.model) < cfg.Limit(r.model)
    requires r.id !in AdmittedIn(s.log)
    ensures Holds(cfg, Admit(s, r), held + {r}) && r !in held
  {
    assert r !in held;
    AdmitBalanced(cfg, s, held, r);
    AdmitPlaced(s, held, r);
    forall m
      ensures MeteredFor(cfg, Admit(s, r), m)
    {
      assert MeteredFor(cfg, s, m);
      LogStep(s.log, Admitted(r.id, r.model));
    }
  }

  lemma AdmitBalanced(cfg: Config, s: State, held: set<Req>, r: Req)
    requires Balanced(cfg, s, held) && r !in held && Get(s.reserved, r.model) < cfg.Limit(r.model)
    ensures Balanced(cfg, Admit(s, r), held + {r})
  {
    OfModelChanges(held, r);
    forall m
      ensures BalancedFor(cfg, Admit(s, r), held + {r}, m)
    {
      assert BalancedFor(cfg, s, held, m);
    }
  }

  lemma AdmitPlaced(s: State, held: set<Req>, r: Req)
    requires Placed(s, held) && r.id !in AdmittedIn(s.log)
    ensures Placed(Admit(s, r), held + {r})
  {
    var t := Admit(s, r);
    LogStep(s.log, Admitted(r.id, r.model));
    forall x | Open(s.log, x)
      ensures Open(t.log, x) && x.id != r.id
    {}
    assert r in held + {r};
    forall id
      ensures HasRequest(held + {r}, id) <==> HasRequest(held, id) || id == r.id
    {
      if HasRequest(held, id) {
        var x :| x in held && x.id == id;
        assert x in held + {r};
      }
    }
    forall m | m in t.active
      ensures WaitingOk(t.log, held + {r}, m, t.active[m].waiters)
    {
      assert WaitingOk(s.log, held, m, s.active[m].waiters);
    }
    forall id, m | Somewhere(s.active, held, id, m)
      ensures Somewhere(t.active, held + {r}, id, m)
    {}
  }

  /** Stamping the queueing time changes neither a request's identity nor its model. */
  lemma StampHeld(cfg: Config, s: State, held: set<Req>, r: Req, stamped: Req)
    requires Holds(cfg, s, held) && r in held && stamped.id == r.id && stamped.model == r.model
    ensures Holds(cfg, s, held - {r} + {stamped})
    ensures stamped !in held - {r}
  {
    var swapped := held - {r} + {stamped};
    assert stamped !in held - {r};
    OfModelChanges(held, r);
    OfModelChanges(held - {r}, stamped);
    forall m
      ensures BalancedFor(cfg, s, swapped, m)
    {
      assert BalancedFor(cfg, s, held, m);
    }
    forall id
      ensures HasRequest(swapped, id) <==> HasRequest(held, id)
    {
      if HasRequest(held, id) {
        var x :| x in held && x.id == id;
        assert x == r || x in swapped;
      }
      if HasRequest(swapped, id) {
        var x :| x in swapped && x.id == id;
        assert x == stamped || x in held;
      }
    }
    forall m | m in s.active
      ensures WaitingOk(s.log, swapped, m, s.active[m].waiters)
    {
      assert WaitingOk(s.log, held, m, s.active[m].waiters);
    }
    forall id, m | Somewhere(s.active, held, id, m)
      ensures Somewhere(s.active, swapped, id, m)
    {}
  }

  /** Taking a swap out puts its waiters in hand. */
  lemma DetachHeld(cfg: Config, s: State, held: set<Req>, model: string)
    requires Holds(cfg, s, held) && model in s.active
    ensures
      var ws := s.active[model].waiters;
      && Holds(cfg, s.(active := s.active - {model}), held + Elements(ws))
      && Elements(ws) !! held && DistinctIds(ws) && Evictors(s.active - {model}, model) == {}
      && forall w :: w in ws ==> w.model == model
  {
    var ws, t := s.active[model].waiters, s.(active := s.active - {model});
    assert WaitingOk(s.log, held, model, ws);
    forall w | w in Elements(ws)
      ensures w !in held
    {
      assert !HasRequest(held, w.id);
    }
    DetachBalanced(cfg, s, held, model);
    DetachPlaced(s, held, model);
    assert Metered(cfg, t) by {
      assert forall m :: MeteredFor(cfg, s, m) ==> MeteredFor(cfg, t, m);
    }
  }

  lemma DetachBalanced(cfg: Config, s: State, held: set<Req>, model: string)
    requires Balanced(cfg, s, held) && model in s.active
    requires DistinctIds(s.active[model].waiters) && Elements(s.active[model].waiters) !! held
    requires forall w :: w in s.active[model].waiters ==> w.model == model
    ensures Balanced(cfg, s.(active := s.active - {model}), held + Elements(s.active[model].waiters))
  {
    var ws, t := s.active[model].waiters, s.(active := s.active - {model});
    var all := held + Elements(ws);
    DistinctSize(ws, model);
    forall m
      ensures BalancedFor(cfg, t, all, m)
    {
      assert BalancedFor(cfg, s, held, m);
      if m == model {
        assert OfModel(all, m) == OfModel(held, m) + Elements(ws) && OfModel(held, m) !! Elements(ws);
      } else {
        assert OfModel(all, m) == OfModel(held, m);
      }
    }
  }

  lemma DetachPlaced(s: State, held: set<Req>, model: string)
    requires Placed(s, held) && model in s.active
    ensures Placed(s.(active := s.active - {model}), held + Elements(s.active[model].waiters))
  {
    var ws, t := s.active[model].waiters, s.(active := s.active - {model});
    var all := held + Elements(ws);
    assert WaitingOk(s.log, held, model, ws);
    forall r, x | r in all && x in all && r.id == x.id
      ensures r == x
    {
      if r in ws && x in ws {
        var i :| 0 <= i < |ws| && ws[i] == r;
        var j :| 0 <= j < |ws| && ws[j] == x;
        assert i == j;
      }
    }
    forall m | m in t.active
      ensures WaitingOk(t.log, all, m, t.active[m].waiters)
    {
      assert WaitingOk(s.log, held, m, s.active[m].waiters);
      forall w, x | w in t.active[m].waiters && x in all
        ensures x.id != w.id
      {
        assert Open(s.log, w) && !HasRequest(held, w.id);
      }
    }
    forall id, m | Somewhere(s.active, held, id, m)
      ensures Somewhere(t.active, all, id, m)
    {
      if HasRequest(held, id) {
        var x :| x in held && x.id == id;
        assert x in all;
      } else {
        var x :| x in Elements(Waiters(s.active, m)) && x.id == id;
        if m == model {
          assert x in all;
        }
      }
    }
  }
}
