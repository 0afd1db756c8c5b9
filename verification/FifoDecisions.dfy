/** What the scheduler decides about a new request, and why a drain leaves a request
    queued, said of the configuration, the processes and the planner alone. */
module FifoDecisions {
  import opened Names
  import opened FifoSpec
  import opened FifoInvariant
  import opened FifoOrder
  import opened FifoQueue
  import opened FifoRuns
  import opened FifoPromotion
  import opened FifoAnswers

  // ------------------------------------------------------------------ holding back

  /** The request is queued in the pool, and to serve it its model would have to be
      started or others stopped. */
  ghost predicate ColdHere(cfg: Config, env: Env, s: State, pool: string, q: Req)
  {
    && q in s.queued && pool == (if q.model in cfg.poolOf then cfg.poolOf[q.model] else "")
    && (q.model !in env.states || env.states[q.model] != Ready || Planned(env, q.model, s.active.Keys) != [])
  }

  /** A cold request of the pool waits, and the pool has served enough residents past it,
      or one has waited long enough. */
  ghost predicate HeldBack(cfg: Config, env: Env, s: State, pool: string)
  {
    && pool in cfg.pools && cfg.pools[pool].residentFirst
    && var policy := cfg.pools[pool];
    exists q :: ColdHere(cfg, env, s, pool, q) &&
      (|| (policy.maxResidentBurst > 0 && (if pool in s.bursts then s.bursts[pool] else 0) >= policy.maxResidentBurst)
       || (policy.maxResidentWait > 0 && env.now - q.queuedAt >= policy.maxResidentWait))
  }

  lemma ColdAre(cfg: Config, env: Env, s: State, pool: string)
    ensures forall q :: q in Filter(s.queued, ColdIn(cfg, env, s.active, pool)) <==> ColdHere(cfg, env, s, pool, q)
  {
    FilterMembers(s.queued, ColdIn(cfg, env, s.active, pool));
    forall m
      ensures Evictions(env, s.active, m) == Planned(env, m, s.active.Keys)
    {
      PlannedIs(env, s.active, m);
    }
  }

  /** A cold request waits exactly when one is found, and the one found waited longest. */
  lemma ColdFound(cfg: Config, env: Env, s: State, pool: string)
    ensures
      var oldest := OldestCold(cfg, env, s.active, s.queued, pool);
      && (oldest.Some? <==> exists q :: ColdHere(cfg, env, s, pool, q))
      && (oldest.Some? ==>
            && ColdHere(cfg, env, s, pool, oldest.value)
            && forall q :: ColdHere(cfg, env, s, pool, q) ==> oldest.value.queuedAt <= q.queuedAt)
  {
    var cold := Filter(s.queued, ColdIn(cfg, env, s.active, pool));
    OldestColdIsOldest(cfg, env, s.active, s.queued, pool);
    ColdAre(cfg, env, s, pool);
    if cold != [] {
      assert cold[0] in cold;
      var k: nat :| ChosenAt(cold, k, OldestCold(cfg, env, s.active, s.queued, pool).value);
      assert cold[k] in cold;
      forall q | q in cold
        ensures cold[k].queuedAt <= q.queuedAt
      {
        var j :| 0 <= j < |cold| && cold[j] == q;
      }
    }
  }

  lemma HeldBackIs(cfg: Config, env: Env, s: State, m: string)
    ensures ShouldYield(cfg, env, s, m) <==> HeldBack(cfg, env, s, if m in cfg.poolOf then cfg.poolOf[m] else "")
  {
    var pool := cfg.PoolFor(m);
    ColdFound(cfg, env, s, pool);
    if pool in cfg.pools && cfg.pools[pool].residentFirst {
      BoundIs(cfg, env, s, pool);
    }
  }

  lemma BoundIs(cfg: Config, env: Env, s: State, pool: string)
    requires pool in cfg.pools && cfg.pools[pool].residentFirst
    ensures HeldBack(cfg, env, s, pool) <==>
      var oldest := OldestCold(cfg, env, s.active, s.queued, pool);
      oldest.Some? && BoundReached(cfg.pools[pool], Get(s.bursts, pool), env.now, oldest.value)
  {
    ColdFound(cfg, env, s, pool);
    var oldest := OldestCold(cfg, env, s.active, s.queued, pool);
    if HeldBack(cfg, env, s, pool) {
      var q :| ColdHere(cfg, env, s, pool, q) &&
        (|| (cfg.pools[pool].maxResidentBurst > 0 && Get(s.bursts, pool) >= cfg.pools[pool].maxResidentBurst)
         || (cfg.pools[pool].maxResidentWait > 0 && env.now - q.queuedAt >= cfg.pools[pool].maxResidentWait));
      assert oldest.value.queuedAt <= q.queuedAt;
    }
    if oldest.Some? && BoundReached(cfg.pools[pool], Get(s.bursts, pool), env.now, oldest.value) {
      assert ColdHere(cfg, env, s, pool, oldest.value);
    }
  }

  // ------------------------------------------------------------- the order of a drain

  /** In a resident-first pool with a cold request waiting, a drain considers the resident
      requests first and then the cold ones, each in queue order; if the pool is held
      back, the first cold one goes before all of them, and no other. */
  lemma DrainOrderIs(cfg: Config, env: Env, s: State, pool: string, here: Req -> bool, cold: Req -> bool, resident: Req -> bool)
    requires cfg.Valid() && |s.queued| >= 2 && pool in cfg.pools && cfg.pools[pool].residentFirst
    requires exists q :: ColdHere(cfg, env, s, pool, q)
    requires forall r: Req :: here(r) <==> pool == (if r.model in cfg.poolOf then cfg.poolOf[r.model] else "")
    requires forall r: Req :: r in s.queued ==> (cold(r) <==> ColdHere(cfg, env, s, pool, r))
    requires forall r: Req :: r in s.queued ==> (resident(r) <==> here(r) && !cold(r))
    ensures
      var first, rest := Filter(s.queued, cold), Filter(s.queued, resident);
      && first != []
      && Filter(FairOrder(cfg, env, s), here) ==
           if HeldBack(cfg, env, s, pool) then [first[0]] + rest + first[1..] else rest + first
  {
    var isCold, isResident := ColdIn(cfg, env, s.active, pool), ResidentIn(cfg, env, s.active, pool);
    var queue, out := s.queued, FairOrder(cfg, env, s);
    DrainOrderOf(cfg, env, s, pool);
    ColdAre(cfg, env, s, pool);
    FilterMembers(queue, isCold);
    assert forall i :: 0 <= i < |queue| ==> queue[i] in queue;
    FilterAgrees(queue, cold, isCold);
    FilterAgrees(queue, resident, isResident);
    FilterAgrees(out, here, InPool(cfg, pool));
  }

  lemma DrainOrderOf(cfg: Config, env: Env, s: State, pool: string)
    requires cfg.Valid() && |s.queued| >= 2 && pool in cfg.pools && cfg.pools[pool].residentFirst
    requires exists q :: ColdHere(cfg, env, s, pool, q)
    ensures
      var first, rest := Filter(s.queued, ColdIn(cfg, env, s.active, pool)), Filter(s.queued, ResidentIn(cfg, env, s.active, pool));
      && first != []
      && Filter(FairOrder(cfg, env, s), InPool(cfg, pool)) ==
           if HeldBack(cfg, env, s, pool) then [first[0]] + rest + first[1..] else rest + first
  {
    FairOrderIsFair(cfg, env, s);
    BoundIs(cfg, env, s, pool);
    ColdFound(cfg, env, s, pool);
    ColdAre(cfg, env, s, pool);
    assert pool in Elements(cfg.poolNames) && Managed(cfg, env, s, pool);
  }

  // ---------------------------------------------------------------- a new request

  /** The request stands behind all of no lower priority and before the first of lower. */
  ghost predicate PlacedIn(cfg: Config, env: Env, was: seq<Req>, queue: seq<Req>, req: Req)
  {
    exists i :: PlacedAt(cfg, env, was, queue, req, i)
  }

  ghost predicate PlacedAt(cfg: Config, env: Env, was: seq<Req>, queue: seq<Req>, req: Req, i: int)
  {
    var mine := if req.model in cfg.priority then cfg.priority[req.model] else 0;
    && 0 <= i <= |was| && queue == was[..i] + [Req(req.id, req.model, env.now)] + was[i..]
    && (forall j :: 0 <= j < i ==> (if was[j].model in cfg.priority then cfg.priority[was[j].model] else 0) >= mine)
    && (i < |was| ==> (if was[i].model in cfg.priority then cfg.priority[was[i].model] else 0) < mine)
  }

  lemma EnqueuePlaces(cfg: Config, env: Env, s: State, req: Req)
    requires req.queuedAt == 0
    ensures PlacedIn(cfg, env, s.queued, Enqueue(cfg, env, s, req).queued, req)
  {
    var i := QueuePlace(cfg, s.queued, cfg.Priority(req.model));
    QueuePlaceIsFirstLower(cfg, s.queued, cfg.Priority(req.model));
    assert PlacedAt(cfg, env, s.queued, Enqueue(cfg, env, s, req).queued, req, i);
  }

  /** Only the places of requests change. */
  ghost predicate SameCounts(s: State, t: State)
  {
    t.inFlight == s.inFlight && t.serving == s.serving && t.leases == s.leases
  }

  /** The request waits for the swap of its model that is under way. */
  ghost predicate Joined(s: State, t: State, req: Req)
  {
    && req.model in s.active && SameCounts(s, t) && t.queued == s.queued && t.bursts == s.bursts
    && t.active == s.active[req.model := Swap(s.active[req.model].evict, s.active[req.model].waiters + [req])]
  }

  ghost predicate Queued(cfg: Config, env: Env, s: State, t: State, req: Req)
  {
    t.active == s.active && SameCounts(s, t) && t.bursts == s.bursts && PlacedIn(cfg, env, s.queued, t.queued, req)
  }

  /** A swap for its model was started, with the planner's answer, and its pool's count of
      overtaking residents begins anew. */
  ghost predicate Started(cfg: Config, env: Env, s: State, t: State, req: Req)
  {
    var m, evict := req.model, Planned(env, req.model, s.active.Keys);
    && m !in s.active && t.active == s.active[m := Swap(evict, [req])] && SameCounts(s, t) && t.queued == s.queued
    && SwapStarted(m, evict) in t.log
    && t.bursts == if m in cfg.poolOf && cfg.poolOf[m] != "" then s.bursts[cfg.poolOf[m] := 0] else s.bursts
  }

  /** Its handler was offered at once; it counts as overtaking if a cold request of its
      pool waits. */
  ghost predicate Offered(cfg: Config, env: Env, s: State, t: State, req: Req)
  {
    var m := req.model;
    && t.active == s.active && t.queued == s.queued
    && Get(t.inFlight, m) == Get(s.inFlight, m) + (if env.receives(req.id) && (m in cfg.leaseAware ==> env.lends(req.id)) then 1 else 0)
    && t.bursts ==
         if m in cfg.poolOf && cfg.poolOf[m] != "" && exists q :: ColdHere(cfg, env, s, cfg.poolOf[m], q)
         then s.bursts[cfg.poolOf[m] := (if cfg.poolOf[m] in s.bursts then s.bursts[cfg.poolOf[m]] else 0) + 1]
         else s.bursts
  }

  lemma OfferedIs(cfg: Config, env: Env, s: State, req: Req)
    ensures Offered(cfg, env, s, ServedAtOnce(cfg, env, s, req), req)
  {
    var m := req.model;
    var noted := Log(s, FastPath(req.id, m, ColdWaits(cfg, env, s, m)));
    var recorded := RecordResident(cfg, env, noted, m);
    ColdFound(cfg, env, s, cfg.PoolFor(m));
    GrantFrames(cfg, env, recorded, req, m);
    assert OldestCold(cfg, env, noted.active, noted.queued, cfg.PoolFor(m)) == OldestCold(cfg, env, s.active, s.queued, cfg.PoolFor(m));
  }

  lemma GrantFrames(cfg: Config, env: Env, s: State, r: Req, m: string)
    ensures
      var t := GrantHandler(cfg, env, s, r, m);
      && t.active == s.active && t.queued == s.queued && t.bursts == s.bursts
      && Get(t.inFlight, m) == Get(s.inFlight, m) + if env.receives(r.id) && (m in cfg.leaseAware ==> env.lends(r.id)) then 1 else 0
  {
    assert Framed(s, GrantHandler(cfg, env, s, r, m));
  }

  lemma StartedIs(cfg: Config, env: Env, s: State, req: Req)
    requires req.model !in s.active
    ensures Started(cfg, env, s, StartSwap(cfg, s, req, Evictions(env, s.active, req.model)), req)
  {
    var evict := Evictions(env, s.active, req.model);
    PlannedIs(env, s.active, req.model);
    assert StartSwap(cfg, s, req, evict).log[|s.log|] == SwapStarted(req.model, evict);
  }

  /** What an admitted request comes to. It joins the swap under way for its model; it is
      queued when serving it would clash with another swap or with requests in flight, or
      when its model is ready and others of its pool come first; if its model is ready
      with nobody to stop it is offered its handler, and otherwise its swap starts. */
  lemma AdmittedRequestIs(cfg: Config, env: Env, s: State, req: Req)
    requires req.queuedAt == 0 && env.listening(req.id) && req.model in env.states
    requires Get(s.reserved, req.model) < if req.model in cfg.concurrency && cfg.concurrency[req.model] > 0 then cfg.concurrency[req.model] else 10
    ensures
      var m, t := req.model, OnRequest(cfg, env, s, req);
      var evict := Planned(env, m, s.active.Keys);
      var resident := env.states[m] == Ready && evict == [];
      if m in s.active then Joined(s, t, req)
      else if Blocked(s, m, evict) || (resident && HeldBack(cfg, env, s, if m in cfg.poolOf then cfg.poolOf[m] else "")) then
        Queued(cfg, env, s, t, req)
      else if resident then Offered(cfg, env, s, t, req)
      else Started(cfg, env, s, t, req)
  {
    var admitted := Admit(s, req);
    if req.model !in s.active {
      UnjoinedIs(cfg, env, admitted, req);
      SameHeldBack(cfg, env, s, admitted, if req.model in cfg.poolOf then cfg.poolOf[req.model] else "");
      AdmittedAlike(cfg, env, s, admitted, Decide(cfg, env, admitted, req), req);
    }
  }

  /** Holding a slot changes none of what is decided from. */
  lemma SameHeldBack(cfg: Config, env: Env, s: State, admitted: State, pool: string)
    requires admitted.active == s.active && admitted.queued == s.queued && admitted.bursts == s.bursts
    ensures HeldBack(cfg, env, s, pool) <==> HeldBack(cfg, env, admitted, pool)
    ensures forall q :: ColdHere(cfg, env, s, pool, q) <==> ColdHere(cfg, env, admitted, pool, q)
  {
    assert forall q :: ColdHere(cfg, env, s, pool, q) <==> ColdHere(cfg, env, admitted, pool, q);
  }

  lemma AdmittedAlike(cfg: Config, env: Env, s: State, admitted: State, t: State, req: Req)
    requires admitted == Admit(s, req)
    ensures Queued(cfg, env, admitted, t, req) ==> Queued(cfg, env, s, t, req)
    ensures Started(cfg, env, admitted, t, req) ==> Started(cfg, env, s, t, req)
    ensures Offered(cfg, env, admitted, t, req) ==> Offered(cfg, env, s, t, req)
  {
    SameHeldBack(cfg, env, s, admitted, if req.model in cfg.poolOf then cfg.poolOf[req.model] else "");
  }

  lemma UnjoinedIs(cfg: Config, env: Env, s: State, req: Req)
    requires req.queuedAt == 0 && req.model in env.states && req.model !in s.active
    ensures
      var m, t := req.model, Decide(cfg, env, s, req);
      var evict := Planned(env, m, s.active.Keys);
      var resident := env.states[m] == Ready && evict == [];
      if Blocked(s, m, evict) || (resident && HeldBack(cfg, env, s, if m in cfg.poolOf then cfg.poolOf[m] else "")) then
        Queued(cfg, env, s, t, req)
      else if resident then Offered(cfg, env, s, t, req)
      else Started(cfg, env, s, t, req)
  {
    var t, evict := Decide(cfg, env, s, req), Evictions(env, s.active, req.model);
    PlannedIs(env, s.active, req.model);
    BlockedIs(s, req.model, evict);
    HeldBackIs(cfg, env, s, req.model);
    if Blocked(s, req.model, evict) || (env.states[req.model] == Ready && evict == [] && ShouldYield(cfg, env, s, req.model)) {
      assert t == Enqueue(cfg, env, s, req);
      EnqueuePlaces(cfg, env, s, req);
    } else if env.states[req.model] == Ready && evict == [] {
      assert t == ServedAtOnce(cfg, env, s, req);
      OfferedIs(cfg, env, s, req);
    } else {
      assert t == StartSwap(cfg, s, req, evict);
      StartedIs(cfg, env, s, req);
    }
  }

  // -------------------------------------------------------------- whoever stays queued

  /** With some of the swaps under way, and given what the planner answers then, the
      request is blocked. */
  ghost predicate StillBlocked(env: Env, s: State, base: set<string>, r: Req)
  {
    exists swaps :: base <= swaps <= s.active.Keys && Blocked(s, r.model, Planned(env, r.model, swaps))
  }

  /** Swaps under way go on and requests in flight stay so. */
  ghost predicate GoesOn(s: State, t: State)
  {
    && SwapsGoOn(s, t)
    && forall v :: v in s.inFlight && s.inFlight[v] > 0 ==> v in t.inFlight && t.inFlight[v] > 0
  }

  lemma BlockedGoesOn(s: State, t: State, m: string, evict: seq<string>)
    requires Blocked(s, m, evict) && GoesOn(s, t)
    ensures Blocked(t, m, evict)
  {
    if a :| a in s.active && a != m
            && (a in evict || m in s.active[a].evict || exists v :: v in evict && v in s.active[a].evict) {
      assert a in t.active && t.active[a].evict == s.active[a].evict;
    }
    if v :| v in evict && v in s.inFlight && s.inFlight[v] > 0 {
      assert v in t.inFlight && t.inFlight[v] > 0;
    }
  }

  lemma StillGoesOn(env: Env, s: State, t: State, base: set<string>, r: Req)
    requires StillBlocked(env, s, base, r) && GoesOn(s, t)
    ensures StillBlocked(env, t, base, r)
  {
    var swaps :| base <= swaps <= s.active.Keys && Blocked(s, r.model, Planned(env, r.model, swaps));
    BlockedGoesOn(s, t, r.model, Planned(env, r.model, swaps));
    assert swaps <= t.active.Keys;
  }

  lemma ServedInFlight(cfg: Config, env: Env, s: State, r: Req)
    ensures forall v :: v in s.inFlight && s.inFlight[v] > 0 ==>
      v in ResidentServed(cfg, env, s, r).inFlight && ResidentServed(cfg, env, s, r).inFlight[v] > 0
  {
    RecordSilent(cfg, env, s, r.model);
  }

  lemma DrainOneInFlight(cfg: Config, env: Env, p: Pass, req: Req)
    ensures GoesOn(p.s, DrainOne(cfg, env, p, req).s)
  {
    DrainOneGoesOn(cfg, env, p, req);
    DrainOneCases(cfg, env, p, req);
    ServedInFlight(cfg, env, p.s, req);
  }

  lemma DrainOneBlocks(cfg: Config, env: Env, p: Pass, req: Req, base: set<string>)
    requires base <= p.s.active.Keys && DrainOne(cfg, env, p, req).remaining != p.remaining
    ensures DrainOne(cfg, env, p, req) == Pass(p.s, p.remaining + [req])
    ensures StillBlocked(env, p.s, base, req) && req.model in env.states
  {
    PlannedIs(env, p.s.active, req.model);
    BlockedIs(p.s, req.model, Evictions(env, p.s.active, req.model));
  }

  lemma {:induction false} DrainAllBlocks(cfg: Config, env: Env, s: State, pending: seq<Req>, base: set<string>)
    requires base <= s.active.Keys
    ensures
      var p := DrainAll(cfg, env, s, pending);
      && base <= p.s.active.Keys
      && forall r :: r in p.remaining ==> StillBlocked(env, p.s, base, r) && r.model in env.states
  {
    if pending != [] {
      var k := |pending| - 1;
      DrainAllBlocks(cfg, env, s, pending[..k], base);
      var p, n := DrainAll(cfg, env, s, pending[..k]), DrainAll(cfg, env, s, pending);
      DrainOneInFlight(cfg, env, p, pending[k]);
      if n.remaining != p.remaining {
        DrainOneBlocks(cfg, env, p, pending[k], base);
      }
      forall r | r in p.remaining
        ensures StillBlocked(env, n.s, base, r)
      {
        StillGoesOn(env, p.s, n.s, base, r);
      }
    }
  }

  /** No drain leaves a request queued without a reason: whoever stays is, at the end, in
      the way of a swap under way or of requests in flight, by what the planner answered
      for it given the swaps at the start of the drain and some of those it started. */
  lemma RemainsOnlyWhenBlocked(cfg: Config, env: Env, s: State, r: Req)
    requires cfg.Valid() && r in Drain(cfg, env, s).queued
    ensures r in s.queued && r.model in env.states && StillBlocked(env, Drain(cfg, env, s), s.active.Keys, r)
  {
    var pending := FairOrder(cfg, env, s);
    FairOrderWithin(cfg, env, s);
    DrainAllBlocks(cfg, env, s, pending, s.active.Keys);
    DrainAllLeaves(cfg, env, s, pending);
    var p, t := DrainAll(cfg, env, s, pending), Drain(cfg, env, s);
    StillGoesOn(env, p.s, t, s.active.Keys, r);
  }
}
