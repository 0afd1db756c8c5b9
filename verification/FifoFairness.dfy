/** Queue order without resident-first pools, and the bound on overtaking with them. */
module FifoFairness {
  import opened Names
  import opened FifoSpec
  import opened FifoInvariant
  import opened FifoOrder
  import opened FifoQueue
  import opened FifoRuns

  // ------------------------------------------------------------------ queue order

  predicate Precedes(cfg: Config, a: Req, b: Req)
  {
    || cfg.Priority(a.model) > cfg.Priority(b.model)
    || (cfg.Priority(a.model) == cfg.Priority(b.model) && a.id < b.id)
  }

  function ByPriority(cfg: Config): (Req, Req) -> bool { (a: Req, b: Req) => Precedes(cfg, a, b) }

  ghost predicate Sorted(cfg: Config, queue: seq<Req>) { Arranged(queue, ByPriority(cfg)) }

  lemma {:induction false} QueuePlaceSplits(cfg: Config, queue: seq<Req>, priority: int)
    requires Sorted(cfg, queue)
    ensures
      var i := QueuePlace(cfg, queue, priority);
      && (forall j :: 0 <= j < i ==> cfg.Priority(queue[j].model) >= priority)
      && (forall j :: i <= j < |queue| ==> cfg.Priority(queue[j].model) < priority)
  {
    if queue != [] {
      if cfg.Priority(queue[0].model) < priority {
        forall j | 0 < j < |queue|
          ensures cfg.Priority(queue[j].model) < priority
        {
          assert ByPriority(cfg)(queue[0], queue[j]);
        }
      } else {
        assert forall i, j :: 0 <= i < j < |queue[1..]| ==> queue[1..][i] == queue[i + 1] && queue[1..][j] == queue[j + 1];
        QueuePlaceSplits(cfg, queue[1..], priority);
      }
    }
  }

  lemma EnqueueSorted(cfg: Config, env: Env, s: State, req: Req)
    requires Sorted(cfg, s.queued) && forall q :: q in s.queued ==> q.id < req.id
    ensures Sorted(cfg, Enqueue(cfg, env, s, req).queued)
  {
    var i := QueuePlace(cfg, s.queued, cfg.Priority(req.model));
    var q := Enqueue(cfg, env, s, req).queued;
    QueuePlaceSplits(cfg, s.queued, cfg.Priority(req.model));
    forall a, b | 0 <= a < b < |q|
      ensures ByPriority(cfg)(q[a], q[b])
    {
      InsertedPlace(s.queued, i, Stamped(env, req), a);
      InsertedPlace(s.queued, i, Stamped(env, req), b);
      if a < i {
        assert s.queued[a] in s.queued;
      }
      if a < i < b {
        assert ByPriority(cfg)(s.queued[a], s.queued[b - 1]);
      }
    }
  }

  lemma OlderQueued(cfg: Config, s: State, req: Req)
    requires Inv(cfg, s) && Newest(s.log, req.id)
    ensures forall q :: q in s.queued ==> q.id < req.id
  {
    forall q | q in s.queued
      ensures q.id < req.id
    {
      assert q in Elements(s.queued) && Open(s.log, q);
    }
  }

  /** With no resident-first pool, the queue is always in order of priority, then arrival. */
  lemma {:induction false} QueueStaysSorted(cfg: Config, run: seq<Turn>)
    requires cfg.Valid() && Legal(cfg, run)
    requires forall p :: p in cfg.pools ==> !cfg.pools[p].residentFirst
    ensures Sorted(cfg, After(cfg, run).queued)
  {
    if run != [] {
      var before, turn := run[..|run| - 1], run[|run| - 1];
      var s := After(cfg, before);
      QueueStaysSorted(cfg, before);
      RunsKeepInvariant(cfg, before);
      if turn.event.Request? {
        OlderQueued(cfg, s, turn.event.req);
        EnqueueSorted(cfg, turn.env, s, turn.event.req);
      }
      forall t: State
        ensures FairOrder(cfg, turn.env, t) == t.queued
      {
        NoResidentFirstKeepsOrder(cfg, turn.env, t, t.queued, cfg.poolNames);
      }
      StepArranged(cfg, turn.env, s, turn.event, ByPriority(cfg));
    }
  }

  // ------------------------------------------------------------------- overtaking

  /** New requests of the pool served past a queued cold one since its last swap start. */
  ghost function Overtakes(cfg: Config, log: seq<Effect>, pool: string): nat
  {
    if log == [] then 0
    else
      var before, e := Overtakes(cfg, log[..|log| - 1], pool), log[|log| - 1];
      if e.SwapStarted? && cfg.PoolFor(e.model) == pool then 0
      else if e.FastPath? && e.overtakes && cfg.PoolFor(e.model) == pool then before + 1
      else before
  }

  lemma OvertakesStep(cfg: Config, log: seq<Effect>, e: Effect, pool: string)
    ensures Overtakes(cfg, log + [e], pool) ==
      if e.SwapStarted? && cfg.PoolFor(e.model) == pool then 0
      else if e.FastPath? && e.overtakes && cfg.PoolFor(e.model) == pool then Overtakes(cfg, log, pool) + 1
      else Overtakes(cfg, log, pool)
  {
    assert (log + [e])[..|log|] == log;
  }

  ghost predicate Bounded(cfg: Config, pool: string)
  {
    pool != "" && pool in cfg.pools && cfg.pools[pool].residentFirst && cfg.pools[pool].maxResidentBurst > 0
  }

  /** The burst counter covers every overtaking request, and overtaking stops at the bound. */
  ghost predicate BurstOk(cfg: Config, s: State, pool: string)
  {
    && pool in cfg.pools
    && Overtakes(cfg, s.log, pool) <= Get(s.bursts, pool)
    && Overtakes(cfg, s.log, pool) <= cfg.pools[pool].maxResidentBurst
  }

  /** An effect that is neither an overtaking nor a swap start of the pool. */
  lemma PlainBurst(cfg: Config, s: State, t: State, e: Effect, pool: string)
    requires Bounded(cfg, pool) && BurstOk(cfg, s, pool)
    requires t.log == s.log + [e] && Get(t.bursts, pool) >= Get(s.bursts, pool)
    requires !e.SwapStarted? && (e.FastPath? ==> !(e.overtakes && cfg.PoolFor(e.model) == pool))
    ensures BurstOk(cfg, t, pool)
  {
    OvertakesStep(cfg, s.log, e, pool);
  }

  /** An overtaking is recorded, and happens only below the bound. */
  lemma PastBurst(cfg: Config, s: State, t: State, e: Effect, pool: string)
    requires Bounded(cfg, pool) && BurstOk(cfg, s, pool)
    requires e.FastPath? && e.overtakes && cfg.PoolFor(e.model) == pool && t.log == s.log + [e]
    requires Get(s.bursts, pool) < cfg.pools[pool].maxResidentBurst && Get(t.bursts, pool) == Get(s.bursts, pool) + 1
    ensures BurstOk(cfg, t, pool)
  {
    OvertakesStep(cfg, s.log, e, pool);
  }

  lemma {:induction false} CancelEachBurst(cfg: Config, s: State, reqs: seq<Req>, pool: string)
    requires Bounded(cfg, pool) && BurstOk(cfg, s, pool)
    ensures BurstOk(cfg, CancelEach(s, reqs), pool)
  {
    if reqs != [] {
      var before := CancelEach(s, reqs[..|reqs| - 1]);
      CancelEachBurst(cfg, s, reqs[..|reqs| - 1], pool);
      OvertakesStep(cfg, before.log, Cancelled(reqs[|reqs| - 1].id), pool);
    }
  }

  lemma {:induction false} ErrorEachBurst(cfg: Config, s: State, reqs: seq<Req>, failure: Failure, pool: string)
    requires Bounded(cfg, pool) && BurstOk(cfg, s, pool)
    ensures BurstOk(cfg, ErrorEach(s, reqs, failure), pool)
  {
    if reqs != [] {
      var before := ErrorEach(s, reqs[..|reqs| - 1], failure);
      ErrorEachBurst(cfg, s, reqs[..|reqs| - 1], failure, pool);
      OvertakesStep(cfg, before.log, Errored(reqs[|reqs| - 1].id, failure), pool);
    }
  }

  lemma AskBurst(cfg: Config, env: Env, s: State, req: Req, model: string, pool: string)
    requires Bounded(cfg, pool) && BurstOk(cfg, s, pool)
    ensures BurstOk(cfg, LeaseAskedFor(env, s, req.id, model), pool)
  {
    PlainBurst(cfg, s, LeaseAskedFor(env, s, req.id, model), LeaseAsked(model, env.lends(req.id)), pool);
  }

  lemma HandBurst(cfg: Config, s: State, req: Req, model: string, pool: string)
    requires Bounded(cfg, pool) && BurstOk(cfg, s, pool)
    ensures BurstOk(cfg, Handed(s, req, model), pool) && BurstOk(cfg, LeaseGivenBack(s, model), pool)
  {
    PlainBurst(cfg, s, Handed(s, req, model), Served(req.id, model, Evictors(s.active, model)), pool);
    PlainBurst(cfg, s, LeaseGivenBack(s, model), LeaseReturned(model), pool);
  }

  lemma ServeBurst(cfg: Config, env: Env, s: State, req: Req, model: string, pool: string)
    requires Bounded(cfg, pool) && BurstOk(cfg, s, pool)
    ensures BurstOk(cfg, GrantServe(cfg, env, s, req, model).s, pool)
  {
    if model in cfg.leaseAware {
      AskBurst(cfg, env, s, req, model, pool);
      HandBurst(cfg, LeaseAskedFor(env, s, req.id, model), req, model, pool);
    } else {
      HandBurst(cfg, s, req, model, pool);
    }
  }

  lemma GrantBurst(cfg: Config, env: Env, s: State, req: Req, model: string, pool: string)
    requires Bounded(cfg, pool) && BurstOk(cfg, s, pool)
    ensures BurstOk(cfg, GrantHandler(cfg, env, s, req, model), pool)
  {
    ServeBurst(cfg, env, s, req, model, pool);
    var g := GrantServe(cfg, env, s, req, model);
    if g.Missed? {
      PlainBurst(cfg, g.s, Log(Release(g.s, model), g.answer), g.answer, pool);
    }
  }

  lemma {:induction false} GrantEachBurst(cfg: Config, env: Env, s: State, reqs: seq<Req>,
      model: string, failed: bool, pool: string)
    requires Bounded(cfg, pool) && BurstOk(cfg, s, pool)
    ensures BurstOk(cfg, GrantEach(cfg, env, s, reqs, model, failed), pool)
  {
    if reqs != [] {
      var before, w := GrantEach(cfg, env, s, reqs[..|reqs| - 1], model, failed), reqs[|reqs| - 1];
      GrantEachBurst(cfg, env, s, reqs[..|reqs| - 1], model, failed, pool);
      GrantBurst(cfg, env, before, w, model, pool);
      OvertakesStep(cfg, before.log, Errored(w.id, SwapFailed), pool);
    }
  }

  lemma StartBurst(cfg: Config, s: State, req: Req, evict: seq<string>, pool: string)
    requires Bounded(cfg, pool) && BurstOk(cfg, s, pool)
    ensures BurstOk(cfg, StartSwap(cfg, s, req, evict), pool)
  {
    OvertakesStep(cfg, s.log, SwapStarted(req.model, evict), pool);
  }

  lemma {:induction false} DropSwapsBurst(cfg: Config, s: State, targets: seq<string>, pool: string)
    requires Bounded(cfg, pool) && BurstOk(cfg, s, pool)
    ensures BurstOk(cfg, DropSwaps(s, targets), pool)
  {
    if targets != [] {
      var before, model := DropSwaps(s, targets[..|targets| - 1]), targets[|targets| - 1];
      DropSwapsBurst(cfg, s, targets[..|targets| - 1], pool);
      if model in before.active {
        ErrorEachBurst(cfg, before.(active := before.active - {model}), before.active[model].waiters, Unloaded, pool);
      }
    }
  }

  lemma RecordBurst(cfg: Config, env: Env, s: State, model: string, pool: string)
    requires Bounded(cfg, pool) && BurstOk(cfg, s, pool)
    ensures BurstOk(cfg, RecordResident(cfg, env, s, model), pool)
  {}

  lemma DrainOneBurst(cfg: Config, env: Env, p: Pass, req: Req, pool: string)
    requires Bounded(cfg, pool) && BurstOk(cfg, p.s, pool)
    ensures BurstOk(cfg, DrainOne(cfg, env, p, req).s, pool)
  {
    var evict := Evictions(env, p.s.active, req.model);
    if req.model !in env.states {
      OvertakesStep(cfg, p.s.log, Errored(req.id, ModelNotFound), pool);
    } else if req.model in p.s.active {
    } else if env.IsReady(req.model) && evict == [] && !Collides(req.model, evict, p.s.active) {
      RecordBurst(cfg, env, p.s, req.model, pool);
      GrantBurst(cfg, env, RecordResident(cfg, env, p.s, req.model), req, req.model, pool);
    } else {
      StartBurst(cfg, p.s, req, evict, pool);
    }
  }

  lemma {:induction false} DrainAllBurst(cfg: Config, env: Env, s: State, pending: seq<Req>, pool: string)
    requires Bounded(cfg, pool) && BurstOk(cfg, s, pool)
    ensures BurstOk(cfg, DrainAll(cfg, env, s, pending).s, pool)
  {
    if pending != [] {
      DrainAllBurst(cfg, env, s, pending[..|pending| - 1], pool);
      DrainOneBurst(cfg, env, DrainAll(cfg, env, s, pending[..|pending| - 1]), pending[|pending| - 1], pool);
    }
  }

  lemma DrainBurst(cfg: Config, env: Env, s: State, pool: string)
    requires Bounded(cfg, pool) && BurstOk(cfg, s, pool)
    ensures BurstOk(cfg, Drain(cfg, env, s), pool)
  {
    DrainAllBurst(cfg, env, s, FairOrder(cfg, env, s), pool);
  }

  /** A new request is served past a cold one only while the bound is not reached. */
  lemma NotedBurst(cfg: Config, env: Env, s: State, req: Req, pool: string)
    requires Bounded(cfg, pool) && BurstOk(cfg, s, pool) && !ShouldYield(cfg, env, s, req.model)
    ensures
      var noted := Log(s, FastPath(req.id, req.model, ColdWaits(cfg, env, s, req.model)));
      BurstOk(cfg, RecordResident(cfg, env, noted, req.model), pool)
  {
    var past := ColdWaits(cfg, env, s, req.model);
    var e := FastPath(req.id, req.model, past);
    var noted := Log(s, e);
    assert ColdWaits(cfg, env, noted, req.model) == past;
    var t := RecordResident(cfg, env, noted, req.model);
    assert t.log == s.log + [e];
    if past && cfg.PoolFor(req.model) == pool {
      BelowBound(cfg, env, s, req.model);
      PastBurst(cfg, s, t, e, pool);
    } else {
      PlainBurst(cfg, s, t, e, pool);
    }
  }

  lemma BelowBound(cfg: Config, env: Env, s: State, model: string)
    requires Bounded(cfg, cfg.PoolFor(model)) && ColdWaits(cfg, env, s, model) && !ShouldYield(cfg, env, s, model)
    ensures Get(s.bursts, cfg.PoolFor(model)) < cfg.pools[cfg.PoolFor(model)].maxResidentBurst
  {}

  lemma FastPathBurst(cfg: Config, env: Env, s: State, req: Req, pool: string)
    requires Bounded(cfg, pool) && BurstOk(cfg, s, pool) && !ShouldYield(cfg, env, s, req.model)
    ensures BurstOk(cfg, ServedAtOnce(cfg, env, s, req), pool)
  {
    NotedBurst(cfg, env, s, req, pool);
    var noted := Log(s, FastPath(req.id, req.model, ColdWaits(cfg, env, s, req.model)));
    GrantBurst(cfg, env, RecordResident(cfg, env, noted, req.model), req, req.model, pool);
  }

  lemma QueuedBurst(cfg: Config, env: Env, s: State, req: Req, pool: string)
    requires Bounded(cfg, pool) && BurstOk(cfg, s, pool)
    ensures BurstOk(cfg, Enqueue(cfg, env, s, req), pool)
    ensures req.model in s.active ==> BurstOk(cfg, Join(s, req), pool)
  {
  }

  lemma DecideBurst(cfg: Config, env: Env, s: State, req: Req, pool: string)
    requires Bounded(cfg, pool) && BurstOk(cfg, s, pool)
    ensures BurstOk(cfg, Decide(cfg, env, s, req), pool)
  {
    var evict := Evictions(env, s.active, req.model);
    QueuedBurst(cfg, env, s, req, pool);
    if req.model in s.active {
    } else if env.IsReady(req.model) && evict == [] && !Collides(req.model, evict, s.active) {
      if !ShouldYield(cfg, env, s, req.model) {
        FastPathBurst(cfg, env, s, req, pool);
      }
    } else if Collides(req.model, evict, s.active) || Conflicts(evict, s.inFlight) {
    } else {
      StartBurst(cfg, s, req, evict, pool);
    }
  }

  lemma RequestBurst(cfg: Config, env: Env, s: State, req: Req, pool: string)
    requires Bounded(cfg, pool) && BurstOk(cfg, s, pool)
    ensures BurstOk(cfg, OnRequest(cfg, env, s, req), pool)
  {
    OvertakesStep(cfg, s.log, Rejected(req.id, ModelNotFound), pool);
    OvertakesStep(cfg, s.log, Rejected(req.id, LimitReached), pool);
    OvertakesStep(cfg, s.log, Admitted(req.id, req.model), pool);
    if req.model in env.states && Get(s.reserved, req.model) < cfg.Limit(req.model) && env.listening(req.id) {
      DecideBurst(cfg, env, Admit(s, req), req, pool);
    }
  }

  lemma CancelBurst(cfg: Config, s: State, req: Req, pool: string)
    requires Bounded(cfg, pool) && BurstOk(cfg, s, pool)
    ensures BurstOk(cfg, OnCancel(s, req), pool)
  {
    CancelEachBurst(cfg, s, Filter(s.queued, HasId(req.id)), pool);
    var mid := CancelQueued(s, req.id);
    if req.model in mid.active {
      CancelEachBurst(cfg, mid, Filter(mid.active[req.model].waiters, HasId(req.id)), pool);
    }
  }

  lemma SwapDoneBurst(cfg: Config, env: Env, s: State, model: string, failed: bool, pool: string)
    requires Bounded(cfg, pool) && BurstOk(cfg, s, pool)
    ensures BurstOk(cfg, OnSwapDone(cfg, env, s, model, failed), pool)
  {
    if model in s.active {
      var t := s.(active := s.active - {model});
      GrantEachBurst(cfg, env, t, s.active[model].waiters, model, failed, pool);
      DrainBurst(cfg, env, GrantEach(cfg, env, t, s.active[model].waiters, model, failed), pool);
    }
  }

  lemma ServeDoneBurst(cfg: Config, env: Env, s: State, model: string, pool: string)
    requires Bounded(cfg, pool) && BurstOk(cfg, s, pool)
    ensures BurstOk(cfg, OnServeDone(cfg, env, Reported(s, model), model), pool)
  {
    DrainBurst(cfg, env, Release(Reported(s, model), model).(inFlight := s.inFlight - {model}), pool);
  }

  lemma UnloadBurst(cfg: Config, env: Env, s: State, targets: seq<string>, order: seq<string>, pool: string)
    requires Bounded(cfg, pool) && BurstOk(cfg, s, pool)
    ensures BurstOk(cfg, OnUnload(cfg, env, s, targets, order), pool)
  {
    var mid := DropSwaps(s, order);
    DropSwapsBurst(cfg, s, order, pool);
    ErrorEachBurst(cfg, mid, Filter(mid.queued, Targeted(targets)), Unloaded, pool);
    DrainBurst(cfg, env, DropQueued(mid, targets), pool);
  }

  lemma StepBurst(cfg: Config, env: Env, s: State, e: Event, pool: string)
    requires Bounded(cfg, pool) && BurstOk(cfg, s, pool)
    ensures BurstOk(cfg, Step(cfg, env, s, e), pool)
  {
    match e {
      case Request(req) => RequestBurst(cfg, env, s, req, pool);
      case Cancel(req) => CancelBurst(cfg, s, req, pool);
      case SwapDone(model, failed) => SwapDoneBurst(cfg, env, s, model, failed, pool);
      case HandlerReturns(model) => OvertakesStep(cfg, s.log, LeaseReturned(model), pool);
      case ServeDone(model) => ServeDoneBurst(cfg, env, s, model, pool);
      case Unload(targets, order) => UnloadBurst(cfg, env, s, targets, order, pool);
    }
  }

  /** Between two swap starts in a resident-first pool with a positive burst limit, at
      most that many newly arriving requests are served past a queued cold one. */
  lemma {:induction false} OvertakingIsBounded(cfg: Config, run: seq<Turn>, pool: string)
    requires Bounded(cfg, pool)
    ensures BurstOk(cfg, After(cfg, run), pool)
  {
    if run != [] {
      var before, turn := run[..|run| - 1], run[|run| - 1];
      OvertakingIsBounded(cfg, before, pool);
      StepBurst(cfg, turn.env, After(cfg, before), turn.event, pool);
    }
  }
}
