/** Which cold request a fairness promotion moves: the first queued one, and when that
    is the one that waited longest. */
module FifoPromotion {
  import opened Names
  import opened FifoSpec
  import opened FifoInvariant
  import opened FifoOrder
  import opened FifoQueue
  import opened FifoRuns

  // -------------------------------------------------------------- what is moved

  /** When a bound of the pool is reached, the drain puts the request that waited
      longest in front of the pool's requests. */
  ghost predicate PromotesOldest(cfg: Config, env: Env, s: State, pool: string)
  {
    Managed(cfg, env, s, pool) && Promotes(cfg, env, s, pool) ==>
      var mine := Filter(FairOrder(cfg, env, s), InPool(cfg, pool));
      mine != [] && OldestCold(cfg, env, s.active, s.queued, pool) == Some(mine[0])
  }

  /** What it puts there is the first queued cold one. */
  lemma FirstIsPromoted(cfg: Config, env: Env, s: State, pool: string)
    requires cfg.Valid() && Managed(cfg, env, s, pool) && Promotes(cfg, env, s, pool)
    ensures
      var mine, cold := Filter(FairOrder(cfg, env, s), InPool(cfg, pool)), Filter(s.queued, ColdIn(cfg, env, s.active, pool));
      mine != [] && cold != [] && mine[0] == cold[0]
  {
    OldestColdIsOldest(cfg, env, s.active, s.queued, pool);
    if |s.queued| >= 2 {
      FairOrderIsFair(cfg, env, s);
      assert pool in Elements(cfg.poolNames);
    } else {
      var cold := Filter(s.queued, ColdIn(cfg, env, s.active, pool));
      FilterMembers(s.queued, ColdIn(cfg, env, s.active, pool));
      assert cold[0] in cold && s.queued == [cold[0]];
      FilterUniform(s.queued, InPool(cfg, pool), true);
    }
  }

  /** Later requests of the list have waited no longer. */
  ghost predicate ByAge(reqs: seq<Req>)
  {
    forall i, j :: 0 <= i < j < |reqs| ==> reqs[i].queuedAt <= reqs[j].queuedAt
  }

  /** If the pool's cold requests are queued by age, the first is the oldest. */
  lemma AgedPromotesOldest(cfg: Config, env: Env, s: State, pool: string)
    requires cfg.Valid() && ByAge(Filter(s.queued, ColdIn(cfg, env, s.active, pool)))
    ensures PromotesOldest(cfg, env, s, pool)
  {
    if Managed(cfg, env, s, pool) && Promotes(cfg, env, s, pool) {
      FirstIsPromoted(cfg, env, s, pool);
      var cold := Filter(s.queued, ColdIn(cfg, env, s.active, pool));
      OldestColdIsOldest(cfg, env, s.active, s.queued, pool);
      var k: nat :| ChosenAt(cold, k, OldestCold(cfg, env, s.active, s.queued, pool).value);
      assert cold[0].queuedAt <= cold[k].queuedAt;
    }
  }

  // ------------------------------------------------------------- the configurations

  /** Two models belong to the pool. */
  ghost predicate Shared(cfg: Config, pool: string)
  {
    exists a, b :: a != b && cfg.PoolFor(a) == pool && cfg.PoolFor(b) == pool
  }

  /** Another resident-first pool has models below `m` and not below `m` in priority. */
  ghost predicate Straddles(cfg: Config, m: string, low: string, high: string)
  {
    && cfg.PoolFor(low) == cfg.PoolFor(high) != cfg.PoolFor(m)
    && cfg.PoolFor(low) in cfg.pools && cfg.pools[cfg.PoolFor(low)].residentFirst
    && cfg.Priority(low) < cfg.Priority(m) <= cfg.Priority(high)
  }

  /** A model of the pool may have two requests waiting, with others reordered past them. */
  ghost predicate Overtakable(cfg: Config, pool: string)
  {
    exists m, low, high :: cfg.PoolFor(m) == pool && cfg.Limit(m) >= 2 && Straddles(cfg, m, low, high)
  }

  /** The configurations under which a promotion can move the wrong request. */
  ghost predicate Misplaces(cfg: Config, pool: string)
    requires pool in cfg.pools
  {
    var policy := cfg.pools[pool];
    || ((policy.maxResidentBurst > 0 || policy.maxResidentWait > 0) && Shared(cfg, pool))
    || (policy.maxResidentWait > 0 && Overtakable(cfg, pool))
  }

  // -------------------------------------------------------------------------- time

  /** Times are past the zero time and never go back; `now` is no earlier. */
  ghost predicate Timely(run: seq<Turn>, now: int)
  {
    now > 0 && (run == [] || (run[|run| - 1].env.now <= now && Timely(run[..|run| - 1], run[|run| - 1].env.now)))
  }

  ghost predicate QueuedBy(queue: seq<Req>, now: int)
  {
    forall r :: r in queue ==> 0 < r.queuedAt <= now
  }

  // ---------------------------------------------------------- one model in the pool

  /** No model but `m` belongs to its pool. */
  ghost predicate Alone(cfg: Config, m: string)
  {
    forall q :: cfg.PoolFor(q) == cfg.PoolFor(m) ==> q == m
  }

  /** Nothing of lower priority is ahead of a request for `m`, and those are by age. */
  function InTurn(cfg: Config, m: string): (Req, Req) -> bool
  {
    (a: Req, b: Req) =>
      b.model == m ==> cfg.Priority(a.model) >= cfg.Priority(m) && (a.model == m ==> a.queuedAt <= b.queuedAt)
  }

  lemma {:induction false} QueuePlaceIsFirstLower(cfg: Config, queue: seq<Req>, priority: int)
    ensures
      var i := QueuePlace(cfg, queue, priority);
      && (forall j :: 0 <= j < i ==> cfg.Priority(queue[j].model) >= priority)
      && (i < |queue| ==> cfg.Priority(queue[i].model) < priority)
  {
    if queue != [] && cfg.Priority(queue[0].model) >= priority {
      QueuePlaceIsFirstLower(cfg, queue[1..], priority);
      var i := QueuePlace(cfg, queue[1..], priority);
      assert forall j :: 0 < j <= i ==> queue[j] == queue[1..][j - 1];
    }
  }

  lemma EnqueueInTurn(cfg: Config, env: Env, s: State, req: Req, m: string)
    requires Arranged(s.queued, InTurn(cfg, m)) && QueuedBy(s.queued, env.now) && req.queuedAt == 0
    ensures Arranged(Enqueue(cfg, env, s, req).queued, InTurn(cfg, m))
  {
    var rel, queue := InTurn(cfg, m), s.queued;
    var i, r := QueuePlace(cfg, queue, cfg.Priority(req.model)), Stamped(env, req);
    QueuePlaceIsFirstLower(cfg, queue, cfg.Priority(req.model));
    var out := Enqueue(cfg, env, s, req).queued;
    forall a, b | 0 <= a < b < |out|
      ensures rel(out[a], out[b])
    {
      InsertedPlace(queue, i, r, a);
      InsertedPlace(queue, i, r, b);
      if b == i {
        assert queue[a] in queue;
      } else if a == i {
        assert i < b - 1 ==> rel(queue[i], queue[b - 1]);
      } else {
        assert rel(queue[if a < i then a else a - 1], queue[if b < i then b else b - 1]);
      }
    }
  }

  lemma {:induction false} FilterAgrees(reqs: seq<Req>, f: Req -> bool, g: Req -> bool)
    requires forall i :: 0 <= i < |reqs| ==> f(reqs[i]) == g(reqs[i])
    ensures Filter(reqs, f) == Filter(reqs, g)
  {
    if reqs != [] {
      FilterAgrees(reqs[..|reqs| - 1], f, g);
    }
  }

  /** Lists with the same selected requests at the same places. */
  lemma {:induction false} FilterPins(a: seq<Req>, b: seq<Req>, keep: Req -> bool)
    requires |a| == |b| && (forall i :: 0 <= i < |a| ==> keep(a[i]) == keep(b[i])) && Filter(a, keep) == Filter(b, keep)
    ensures forall i :: 0 <= i < |a| && keep(a[i]) ==> a[i] == b[i]
  {
    if a != [] {
      var k := |a| - 1;
      var fa, fb := Filter(a[..k], keep), Filter(b[..k], keep);
      if keep(a[k]) {
        assert (fa + [a[k]])[..|fa|] == fa && (fb + [b[k]])[..|fb|] == fb;
        assert (fa + [a[k]])[|fa|] == a[k] && (fb + [b[k]])[|fb|] == b[k];
      } else {
        assert Filter(a, keep) == fa && Filter(b, keep) == fb;
      }
      FilterPins(a[..k], b[..k], keep);
      assert forall i :: 0 <= i < k ==> a[..k][i] == a[i] && b[..k][i] == b[i];
    }
  }

  /** Reordering leaves the requests of a lone model where they are. */
  lemma LoneStay(cfg: Config, env: Env, s: State, m: string)
    requires cfg.Valid() && Alone(cfg, m) && |s.queued| >= 2
    ensures
      var out := FairOrder(cfg, env, s);
      |out| == |s.queued| && forall i :: 0 <= i < |out| && out[i].model == m ==> out[i] == s.queued[i]
  {
    var pool, queue, out := cfg.PoolFor(m), s.queued, FairOrder(cfg, env, s);
    FairOrderIsFair(cfg, env, s);
    if Managed(cfg, env, s, pool) {
      assert pool in Elements(cfg.poolNames);
      LoneClasses(cfg, env, s, m);
      var cold := Filter(queue, InPool(cfg, pool));
      assert Ordered([], cold, Promotes(cfg, env, s, pool)) == cold;
      FilterPins(out, queue, InPool(cfg, pool));
    }
  }

  /** They are all cold if one is. */
  lemma LoneClasses(cfg: Config, env: Env, s: State, m: string)
    requires Alone(cfg, m) && Managed(cfg, env, s, cfg.PoolFor(m))
    ensures
      var pool := cfg.PoolFor(m);
      && Filter(s.queued, ResidentIn(cfg, env, s.active, pool)) == []
      && Filter(s.queued, ColdIn(cfg, env, s.active, pool)) == Filter(s.queued, InPool(cfg, pool))
  {
    var pool := cfg.PoolFor(m);
    OldestColdIsOldest(cfg, env, s.active, s.queued, pool);
    FilterMembers(s.queued, ColdIn(cfg, env, s.active, pool));
    var cold := Filter(s.queued, ColdIn(cfg, env, s.active, pool));
    assert cold[0] in cold && IsCold(env, s.active, m);
    FilterAgrees(s.queued, ColdIn(cfg, env, s.active, pool), InPool(cfg, pool));
    FilterUniform(s.queued, ResidentIn(cfg, env, s.active, pool), false);
  }

  /** Nor does it bring anything of lower priority before them, unless some pool
      straddles their priority. */
  lemma InTurnKept(cfg: Config, env: Env, m: string)
    requires cfg.Valid() && Alone(cfg, m) && forall low, high :: !Straddles(cfg, m, low, high)
    ensures OrderKept(cfg, env, InTurn(cfg, m))
  {
    forall s: State | Arranged(s.queued, InTurn(cfg, m))
      ensures Arranged(FairOrder(cfg, env, s), InTurn(cfg, m))
    {
      if |s.queued| >= 2 {
        LoneStay(cfg, env, s, m);
        FairOrderIsFair(cfg, env, s);
        var out := FairOrder(cfg, env, s);
        forall i, j | 0 <= i < j < |out|
          ensures InTurn(cfg, m)(out[i], out[j])
        {
          assert InTurn(cfg, m)(s.queued[i], s.queued[j]);
          if out[j].model == m && out[i] != s.queued[i] {
            assert Managed(cfg, env, s, cfg.PoolFor(s.queued[i].model));
            assert !Straddles(cfg, m, out[i].model, s.queued[i].model);
          }
        }
      }
    }
  }

  /** A lone model that nothing straddles has its requests queued by age. */
  lemma {:induction false} LoneByAge(cfg: Config, run: seq<Turn>, now: int, m: string)
    requires cfg.Valid() && Legal(cfg, run) && Timely(run, now)
    requires Alone(cfg, m) && forall low, high :: !Straddles(cfg, m, low, high)
    ensures var queue := After(cfg, run).queued; Arranged(queue, InTurn(cfg, m)) && QueuedBy(queue, now)
  {
    if run != [] {
      var before, turn := run[..|run| - 1], run[|run| - 1];
      var s := After(cfg, before);
      LoneByAge(cfg, before, turn.env.now, m);
      if turn.event.Request? {
        EnqueueInTurn(cfg, turn.env, s, turn.event.req, m);
      }
      InTurnKept(cfg, turn.env, m);
      StepArranged(cfg, turn.env, s, turn.event, InTurn(cfg, m));
      var queue := After(cfg, run).queued;
      forall r | r in queue
        ensures 0 < r.queuedAt <= now
      {
        assert r in s.queued || (turn.event.Request? && r == Stamped(turn.env, turn.event.req));
      }
    }
  }

  /** Picking the requests of one model out of a queue in turn gives them by age. */
  lemma {:induction false} PickedByAge(cfg: Config, queue: seq<Req>, m: string, keep: Req -> bool)
    requires Arranged(queue, InTurn(cfg, m)) && forall r :: keep(r) ==> r.model == m
    ensures ByAge(Filter(queue, keep))
  {
    FilterArranged(queue, InTurn(cfg, m), keep);
    FilterMembers(queue, keep);
    var picked := Filter(queue, keep);
    forall i, j | 0 <= i < j < |picked|
      ensures picked[i].queuedAt <= picked[j].queuedAt
    {
      assert picked[i] in picked && picked[j] in picked;
      assert InTurn(cfg, m)(picked[i], picked[j]);
    }
  }

  lemma {:induction false} PickedFewer(queue: seq<Req>, keep: Req -> bool, wide: Req -> bool)
    requires forall r :: keep(r) ==> wide(r)
    ensures |Filter(queue, keep)| <= |Filter(queue, wide)|
  {
    if queue != [] {
      PickedFewer(queue[..|queue| - 1], keep, wide);
    }
  }

  // ------------------------------------------------------ bursts of a lone model

  /** While a lone model is resident no request of its pool is cold. */
  lemma NoneCold(cfg: Config, env: Env, s: State, m: string)
    requires Alone(cfg, m) && !IsCold(env, s.active, m)
    ensures !ColdWaits(cfg, env, s, m)
  {
    var pool := cfg.PoolFor(m);
    FilterUniform(s.queued, ColdIn(cfg, env, s.active, pool), false);
    OldestColdIsOldest(cfg, env, s.active, s.queued, pool);
  }

  /** So serving it counts nothing as overtaken. */
  lemma LoneCountsNothing(cfg: Config, env: Env, s: State, req: Req, m: string)
    requires Alone(cfg, m) && Get(s.bursts, cfg.PoolFor(m)) == 0 && !IsCold(env, s.active, req.model)
    ensures Get(ResidentServed(cfg, env, s, req).bursts, cfg.PoolFor(m)) == 0
  {
    var noted := RecordResident(cfg, env, s, req.model);
    if cfg.PoolFor(req.model) == cfg.PoolFor(m) {
      NoneCold(cfg, env, s, m);
    }
    assert Get(noted.bursts, cfg.PoolFor(m)) == 0;
    assert Framed(noted, ResidentServed(cfg, env, s, req));
  }

  lemma StartLone(cfg: Config, s: State, req: Req, evict: seq<string>, m: string)
    requires Get(s.bursts, cfg.PoolFor(m)) == 0
    ensures Get(StartSwap(cfg, s, req, evict).bursts, cfg.PoolFor(m)) == 0
  {
  }

  lemma DrainOneLone(cfg: Config, env: Env, p: Pass, req: Req, m: string)
    requires Alone(cfg, m) && Get(p.s.bursts, cfg.PoolFor(m)) == 0
    ensures Get(DrainOne(cfg, env, p, req).s.bursts, cfg.PoolFor(m)) == 0
  {
    var s, evict := p.s, Evictions(env, p.s.active, req.model);
    if req.model !in env.states {
      assert GrantError(s, req, ModelNotFound).bursts == s.bursts;
    } else if req.model in s.active {
      assert Join(s, req).bursts == s.bursts;
    } else if env.IsReady(req.model) && evict == [] && !Collides(req.model, evict, s.active) {
      LoneCountsNothing(cfg, env, s, req, m);
    } else {
      StartLone(cfg, s, req, evict, m);
    }
  }

  lemma {:induction false} DrainAllLone(cfg: Config, env: Env, s: State, pending: seq<Req>, m: string)
    requires Alone(cfg, m) && Get(s.bursts, cfg.PoolFor(m)) == 0
    ensures Get(DrainAll(cfg, env, s, pending).s.bursts, cfg.PoolFor(m)) == 0
  {
    if pending != [] {
      DrainAllLone(cfg, env, s, pending[..|pending| - 1], m);
      DrainOneLone(cfg, env, DrainAll(cfg, env, s, pending[..|pending| - 1]), pending[|pending| - 1], m);
    }
  }

  lemma DrainLone(cfg: Config, env: Env, s: State, m: string)
    requires Alone(cfg, m) && Get(s.bursts, cfg.PoolFor(m)) == 0
    ensures Get(Drain(cfg, env, s).bursts, cfg.PoolFor(m)) == 0
  {
    DrainAllLone(cfg, env, s, FairOrder(cfg, env, s), m);
  }

  lemma ServedLone(cfg: Config, env: Env, s: State, req: Req, m: string)
    requires Alone(cfg, m) && Get(s.bursts, cfg.PoolFor(m)) == 0 && !IsCold(env, s.active, req.model)
    ensures Get(ServedAtOnce(cfg, env, s, req).bursts, cfg.PoolFor(m)) == 0
  {
    LoneCountsNothing(cfg, env, Log(s, FastPath(req.id, req.model, ColdWaits(cfg, env, s, req.model))), req, m);
  }

  lemma DecideLone(cfg: Config, env: Env, s: State, req: Req, m: string)
    requires Alone(cfg, m) && Get(s.bursts, cfg.PoolFor(m)) == 0
    ensures Get(Decide(cfg, env, s, req).bursts, cfg.PoolFor(m)) == 0
  {
    var evict := Evictions(env, s.active, req.model);
    if req.model in s.active {
      assert Join(s, req).bursts == s.bursts;
    } else {
      assert Enqueue(cfg, env, s, req).bursts == s.bursts;
      StartLone(cfg, s, req, evict, m);
      if !IsCold(env, s.active, req.model) {
        ServedLone(cfg, env, s, req, m);
      }
      assert Decide(cfg, env, s, req) in {Enqueue(cfg, env, s, req), StartSwap(cfg, s, req, evict)} ||
             (!IsCold(env, s.active, req.model) && Decide(cfg, env, s, req) == ServedAtOnce(cfg, env, s, req));
    }
  }

  lemma CancelLone(s: State, req: Req)
    ensures OnCancel(s, req).bursts == s.bursts
  {
    CancelEachFrame(s, Filter(s.queued, HasId(req.id)));
    var mid := CancelQueued(s, req.id);
    if req.model in mid.active {
      CancelEachFrame(mid, Filter(mid.active[req.model].waiters, HasId(req.id)));
    }
  }

  lemma SwapDoneLone(cfg: Config, env: Env, s: State, model: string, failed: bool, m: string)
    requires Alone(cfg, m) && Get(s.bursts, cfg.PoolFor(m)) == 0
    ensures Get(OnSwapDone(cfg, env, s, model, failed).bursts, cfg.PoolFor(m)) == 0
  {
    if model in s.active {
      var t := s.(active := s.active - {model});
      GrantEachFrame(cfg, env, t, s.active[model].waiters, model, failed);
      DrainLone(cfg, env, GrantEach(cfg, env, t, s.active[model].waiters, model, failed), m);
    }
  }

  lemma StepLone(cfg: Config, env: Env, s: State, e: Event, m: string)
    requires Alone(cfg, m) && Get(s.bursts, cfg.PoolFor(m)) == 0
    ensures Get(Step(cfg, env, s, e).bursts, cfg.PoolFor(m)) == 0
  {
    match e {
      case Request(req) => DecideLone(cfg, env, Admit(s, req), req, m);
      case Cancel(req) => CancelLone(s, req);
      case SwapDone(model, failed) => SwapDoneLone(cfg, env, s, model, failed, m);
      case HandlerReturns(_) =>
      case ServeDone(model) => DrainLone(cfg, env, Release(Reported(s, model), model).(inFlight := s.inFlight - {model}), m);
      case Unload(targets, order) =>
        var mid := DropSwaps(s, order);
        DropSwapsFrame(s, order);
        ErrorEachFrame(mid, Filter(mid.queued, Targeted(targets)), Unloaded);
        DrainLone(cfg, env, DropQueued(mid, targets), m);
    }
  }

  lemma {:induction false} LoneNeverCounted(cfg: Config, run: seq<Turn>, m: string)
    requires Legal(cfg, run) && Alone(cfg, m)
    ensures Get(After(cfg, run).bursts, cfg.PoolFor(m)) == 0
  {
    if run != [] {
      LoneNeverCounted(cfg, run[..|run| - 1], m);
      StepLone(cfg, run[|run| - 1].env, After(cfg, run[..|run| - 1]), run[|run| - 1].event, m);
    }
  }

  // -------------------------------------------------------------- the good configurations

  lemma {:induction false} PickedTwice(queue: seq<Req>, first: Req -> bool, keep: Req -> bool, wide: Req -> bool)
    requires forall r :: keep(r) ==> wide(r)
    ensures |Filter(Filter(queue, first), keep)| <= |Filter(queue, wide)|
  {
    if queue != [] {
      var before, last := queue[..|queue| - 1], queue[|queue| - 1];
      PickedTwice(before, first, keep, wide);
      if first(last) {
        assert (Filter(before, first) + [last])[..|Filter(before, first)|] == Filter(before, first);
      } else {
        assert Filter(queue, first) == Filter(before, first);
      }
    }
  }

  /** What of the queue an event drains. */
  function Spares(e: Event): Req -> bool { if e.Unload? then Untargeted(e.targets) else (r: Req) => true }

  lemma DrainedPart(cfg: Config, env: Env, s: State, e: Event)
    requires Drained(cfg, env, s, e).Some?
    ensures Drained(cfg, env, s, e).value.queued == Filter(s.queued, Spares(e))
  {
    DrainedFrame(cfg, env, s, e);
    if !e.Unload? {
      FilterUniform(s.queued, Spares(e), true);
    }
  }

  lemma AtMostOneWaits(cfg: Config, run: seq<Turn>, first: Req -> bool, keep: Req -> bool, m: string)
    requires cfg.Valid() && Legal(cfg, run) && cfg.Limit(m) <= 1 && forall r :: keep(r) ==> r.model == m
    ensures |Filter(Filter(After(cfg, run).queued, first), keep)| <= 1
  {
    var s := After(cfg, run);
    SlotsAreConserved(cfg, run, m);
    RunsKeepInvariant(cfg, run);
    assert MeteredFor(cfg, s, m);
    PickedTwice(s.queued, first, keep, (r: Req) => r.model == m);
  }

  /** Where an event drains the queue, the cold requests of a lone model are by age. */
  lemma LoneDrainsByAge(cfg: Config, run: seq<Turn>, turn: Turn, m: string)
    requires cfg.Valid() && Alone(cfg, m) && (cfg.Limit(m) <= 1 || forall low, high :: !Straddles(cfg, m, low, high))
    requires Legal(cfg, run) && Timely(run, turn.env.now) && Drained(cfg, turn.env, After(cfg, run), turn.event).Some?
    ensures
      var t := Drained(cfg, turn.env, After(cfg, run), turn.event).value;
      ByAge(Filter(t.queued, ColdIn(cfg, turn.env, t.active, cfg.PoolFor(m))))
  {
    var s := After(cfg, run);
    var t := Drained(cfg, turn.env, s, turn.event).value;
    var keep := ColdIn(cfg, turn.env, t.active, cfg.PoolFor(m));
    var first := Spares(turn.event);
    DrainedPart(cfg, turn.env, s, turn.event);
    if cfg.Limit(m) <= 1 {
      AtMostOneWaits(cfg, run, first, keep, m);
    } else {
      LoneByAge(cfg, run, turn.env.now, m);
      FilterArranged(s.queued, InTurn(cfg, m), first);
      PickedByAge(cfg, t.queued, m, keep);
    }
  }

  /** In every configuration that leaves no other way, every drain of every run that
      promotes a request promotes the oldest. */
  lemma GoodConfigurations(cfg: Config, run: seq<Turn>, turn: Turn, pool: string)
    requires cfg.Valid() && pool in cfg.pools && !Misplaces(cfg, pool)
    requires Legal(cfg, run) && Timely(run, turn.env.now) && Drained(cfg, turn.env, After(cfg, run), turn.event).Some?
    ensures PromotesOldest(cfg, turn.env, Drained(cfg, turn.env, After(cfg, run), turn.event).value, pool)
  {
    var env, t := turn.env, Drained(cfg, turn.env, After(cfg, run), turn.event).value;
    if Managed(cfg, env, t, pool) && Promotes(cfg, env, t, pool) {
      var cold := Filter(t.queued, ColdIn(cfg, env, t.active, pool));
      FirstIsPromoted(cfg, env, t, pool);
      FilterMembers(t.queued, ColdIn(cfg, env, t.active, pool));
      var m := cold[0].model;
      assert cold[0] in cold;
      assert Alone(cfg, m);
      DrainedFrame(cfg, env, After(cfg, run), turn.event);
      LoneNeverCounted(cfg, run, m);
      assert cfg.pools[pool].maxResidentWait > 0;
      LoneDrainsByAge(cfg, run, turn, m);
      AgedPromotesOldest(cfg, env, t, pool);
    }
  }
}
