/** What events leave of the queue's order: if the reordering of a drain and the place of
    a new request respect a relation, every event does. */
module FifoQueue {
  import opened Names
  import opened FifoSpec
  import opened FifoInvariant
  import opened FifoOrder
  import opened FifoRuns

  // -------------------------------------------------------------- what steps leave

  lemma {:induction false} CancelEachFrame(s: State, reqs: seq<Req>)
    ensures CancelEach(s, reqs).queued == s.queued && CancelEach(s, reqs).bursts == s.bursts
  {
    if reqs != [] {
      CancelEachFrame(s, reqs[..|reqs| - 1]);
    }
  }

  lemma {:induction false} ErrorEachFrame(s: State, reqs: seq<Req>, failure: Failure)
    ensures ErrorEach(s, reqs, failure).queued == s.queued && ErrorEach(s, reqs, failure).bursts == s.bursts
  {
    if reqs != [] {
      ErrorEachFrame(s, reqs[..|reqs| - 1], failure);
    }
  }

  lemma {:induction false} GrantEachFrame(cfg: Config, env: Env, s: State, reqs: seq<Req>, model: string, failed: bool)
    ensures Framed(s, GrantEach(cfg, env, s, reqs, model, failed))
  {
    if reqs != [] {
      GrantEachFrame(cfg, env, s, reqs[..|reqs| - 1], model, failed);
    }
  }

  lemma {:induction false} DropSwapsFrame(s: State, targets: seq<string>)
    ensures DropSwaps(s, targets).queued == s.queued && DropSwaps(s, targets).bursts == s.bursts
  {
    if targets != [] {
      var before, model := DropSwaps(s, targets[..|targets| - 1]), targets[|targets| - 1];
      DropSwapsFrame(s, targets[..|targets| - 1]);
      if model in before.active {
        ErrorEachFrame(before.(active := before.active - {model}), before.active[model].waiters, Unloaded);
      }
    }
  }

  // --------------------------------------------------------------- a kept relation

  /** Of any two queued requests the one ahead is related to the other. */
  ghost predicate Arranged(queue: seq<Req>, rel: (Req, Req) -> bool)
  {
    forall i, j :: 0 <= i < j < |queue| ==> rel(queue[i], queue[j])
  }

  /** Reordering before a drain respects the relation. */
  ghost predicate OrderKept(cfg: Config, env: Env, rel: (Req, Req) -> bool)
  {
    forall s: State :: Arranged(s.queued, rel) ==> Arranged(FairOrder(cfg, env, s), rel)
  }

  lemma {:induction false} FilterArranged(queue: seq<Req>, rel: (Req, Req) -> bool, keep: Req -> bool)
    requires Arranged(queue, rel)
    ensures Arranged(Filter(queue, keep), rel)
  {
    if queue != [] {
      var k := |queue| - 1;
      FilterArranged(queue[..k], rel, keep);
      FilterMembers(queue[..k], keep);
      var f := Filter(queue[..k], keep);
      forall i | 0 <= i < |f|
        ensures rel(f[i], queue[k])
      {
        assert f[i] in f;
        var j :| 0 <= j < k && queue[j] == f[i];
      }
    }
  }

  /** A drain step either drops the request from the queue or appends it. */
  lemma DrainOneRemains(cfg: Config, env: Env, p: Pass, req: Req)
    ensures DrainOne(cfg, env, p, req).remaining in {p.remaining, p.remaining + [req]}
  {}

  lemma AppendArranged(queue: seq<Req>, rel: (Req, Req) -> bool, kept: seq<Req>, req: Req)
    requires Arranged(queue + [req], rel) && Arranged(kept, rel) && forall r :: r in kept ==> r in queue
    ensures Arranged(kept + [req], rel)
  {
    forall i | 0 <= i < |kept|
      ensures rel(kept[i], req)
    {
      assert kept[i] in kept;
      var j :| 0 <= j < |queue| && queue[j] == kept[i];
      assert (queue + [req])[j] == kept[i] && (queue + [req])[|queue|] == req;
    }
  }

  lemma {:induction false} DrainAllArranged(cfg: Config, env: Env, s: State, pending: seq<Req>, rel: (Req, Req) -> bool)
    requires Arranged(pending, rel)
    ensures
      var p := DrainAll(cfg, env, s, pending);
      Arranged(p.remaining, rel) && forall r :: r in p.remaining ==> r in pending
  {
    if pending != [] {
      var before, req := pending[..|pending| - 1], pending[|pending| - 1];
      assert pending == before + [req];
      DrainAllArranged(cfg, env, s, before, rel);
      var p := DrainAll(cfg, env, s, before);
      AppendArranged(before, rel, p.remaining, req);
      DrainOneRemains(cfg, env, p, req);
    }
  }

  lemma {:induction false} DrainAllLeaves(cfg: Config, env: Env, s: State, pending: seq<Req>)
    ensures forall r :: r in DrainAll(cfg, env, s, pending).remaining ==> r in pending
  {
    if pending != [] {
      var k := |pending| - 1;
      DrainAllLeaves(cfg, env, s, pending[..k]);
      DrainOneRemains(cfg, env, DrainAll(cfg, env, s, pending[..k]), pending[k]);
      assert pending == pending[..k] + [pending[k]];
    }
  }

  ghost predicate Within(queue: seq<Req>, of: seq<Req>) { forall r :: r in queue ==> r in of }

  lemma FairOrderWithin(cfg: Config, env: Env, s: State)
    requires cfg.Valid()
    ensures Within(FairOrder(cfg, env, s), s.queued)
  {
    FairOrderPermutes(cfg, env, s);
    forall r | r in FairOrder(cfg, env, s)
      ensures r in s.queued
    {
      assert r in multiset(FairOrder(cfg, env, s));
    }
  }

  lemma DrainArranged(cfg: Config, env: Env, s: State, rel: (Req, Req) -> bool)
    requires cfg.Valid() && Arranged(s.queued, rel) && OrderKept(cfg, env, rel)
    ensures Arranged(Drain(cfg, env, s).queued, rel) && Within(Drain(cfg, env, s).queued, s.queued)
  {
    FairOrderWithin(cfg, env, s);
    DrainAllArranged(cfg, env, s, FairOrder(cfg, env, s), rel);
  }

  lemma CancelArranged(s: State, req: Req, rel: (Req, Req) -> bool)
    requires Arranged(s.queued, rel)
    ensures Arranged(OnCancel(s, req).queued, rel) && Within(OnCancel(s, req).queued, s.queued)
  {
    FilterMembers(s.queued, LacksId(req.id));
    FilterArranged(s.queued, rel, LacksId(req.id));
    var mid := CancelQueued(s, req.id);
    if req.model in mid.active {
      CancelEachFrame(mid, Filter(mid.active[req.model].waiters, HasId(req.id)));
    }
  }

  lemma SwapDoneArranged(cfg: Config, env: Env, s: State, model: string, failed: bool, rel: (Req, Req) -> bool)
    requires cfg.Valid() && Arranged(s.queued, rel) && OrderKept(cfg, env, rel)
    ensures var q := OnSwapDone(cfg, env, s, model, failed).queued; Arranged(q, rel) && Within(q, s.queued)
  {
    if model in s.active {
      var t := s.(active := s.active - {model});
      GrantEachFrame(cfg, env, t, s.active[model].waiters, model, failed);
      DrainArranged(cfg, env, GrantEach(cfg, env, t, s.active[model].waiters, model, failed), rel);
    }
  }

  lemma UnloadArranged(cfg: Config, env: Env, s: State, targets: seq<string>, order: seq<string>, rel: (Req, Req) -> bool)
    requires cfg.Valid() && Arranged(s.queued, rel) && OrderKept(cfg, env, rel)
    ensures var q := OnUnload(cfg, env, s, targets, order).queued; Arranged(q, rel) && Within(q, s.queued)
  {
    FilterMembers(s.queued, Untargeted(targets));
    DropSwapsFrame(s, order);
    FilterArranged(s.queued, rel, Untargeted(targets));
    DrainArranged(cfg, env, DropQueued(DropSwaps(s, order), targets), rel);
  }

  /** Serving a request at once leaves the queue alone. */
  lemma FastPathQueue(cfg: Config, env: Env, s: State, req: Req)
    ensures ServedAtOnce(cfg, env, s, req).queued == s.queued
  {
    var noted := Log(s, FastPath(req.id, req.model, ColdWaits(cfg, env, s, req.model)));
    var recorded := RecordResident(cfg, env, noted, req.model);
    assert Framed(recorded, GrantHandler(cfg, env, recorded, req, req.model));
  }

  lemma DecideQueue(cfg: Config, env: Env, s: State, req: Req)
    ensures Decide(cfg, env, s, req).queued in {s.queued, Enqueue(cfg, env, s, req).queued}
  {
    var evict := Evictions(env, s.active, req.model);
    if req.model in s.active {
      assert Join(s, req).queued == s.queued;
    } else if env.IsReady(req.model) && evict == [] && !Collides(req.model, evict, s.active) {
      FastPathQueue(cfg, env, s, req);
    } else {
      assert StartSwap(cfg, s, req, evict).queued == s.queued;
    }
  }

  lemma RequestArranged(cfg: Config, env: Env, s: State, req: Req, rel: (Req, Req) -> bool)
    requires Arranged(s.queued, rel) && Arranged(Enqueue(cfg, env, s, req).queued, rel)
    ensures Arranged(OnRequest(cfg, env, s, req).queued, rel)
    ensures Within(OnRequest(cfg, env, s, req).queued, s.queued + [Stamped(env, req)])
  {
    RequestQueue(cfg, env, s, req);
    assert Within(Enqueue(cfg, env, s, req).queued, s.queued + [Stamped(env, req)]);
  }

  lemma RequestQueue(cfg: Config, env: Env, s: State, req: Req)
    ensures OnRequest(cfg, env, s, req).queued in {s.queued, Enqueue(cfg, env, s, req).queued}
  {
    if req.model in env.states && Get(s.reserved, req.model) < cfg.Limit(req.model) && env.listening(req.id) {
      AdmittedQueue(cfg, env, s, req);
      assert OnRequest(cfg, env, s, req) == Decide(cfg, env, Admit(s, req), req);
    } else {
      assert OnRequest(cfg, env, s, req).queued == s.queued;
    }
  }

  lemma AdmittedQueue(cfg: Config, env: Env, s: State, req: Req)
    ensures Decide(cfg, env, Admit(s, req), req).queued in {s.queued, Enqueue(cfg, env, s, req).queued}
  {
    DecideQueue(cfg, env, Admit(s, req), req);
  }

  lemma StepArranged(cfg: Config, env: Env, s: State, e: Event, rel: (Req, Req) -> bool)
    requires cfg.Valid() && Arranged(s.queued, rel) && OrderKept(cfg, env, rel)
    requires e.Request? ==> Arranged(Enqueue(cfg, env, s, e.req).queued, rel)
    ensures Arranged(Step(cfg, env, s, e).queued, rel)
    ensures Within(Step(cfg, env, s, e).queued, if e.Request? then s.queued + [Stamped(env, e.req)] else s.queued)
  {
    match e {
      case Request(req) => RequestArranged(cfg, env, s, req, rel);
      case Cancel(req) => CancelArranged(s, req, rel);
      case SwapDone(model, failed) => SwapDoneArranged(cfg, env, s, model, failed, rel);
      case HandlerReturns(_) =>
      case ServeDone(model) =>
        DrainArranged(cfg, env, Release(Reported(s, model), model).(inFlight := s.inFlight - {model}), rel);
      case Unload(targets, order) => UnloadArranged(cfg, env, s, targets, order, rel);
    }
  }

  // ---------------------------------------------------------- what happens to swaps

  /** No swap of `s` has changed what it stops, and no effect was taken back. */
  ghost predicate SwapsGoOn(s: State, t: State)
  {
    forall id :: id in s.active ==> id in t.active && t.active[id].evict == s.active[id].evict
  }

  lemma JoinGoesOn(s: State, req: Req)
    requires req.model in s.active
    ensures SwapsGoOn(s, Join(s, req))
  {
  }

  lemma StartGoesOn(cfg: Config, s: State, req: Req, evict: seq<string>)
    requires req.model !in s.active
    ensures SwapsGoOn(s, StartSwap(cfg, s, req, evict))
  {
  }

  lemma DrainOneGoesOn(cfg: Config, env: Env, p: Pass, req: Req)
    ensures SwapsGoOn(p.s, DrainOne(cfg, env, p, req).s)
  {
    var s, t := p.s, DrainOne(cfg, env, p, req).s;
    if req.model in s.active {
      JoinGoesOn(s, req);
    } else {
      StartGoesOn(cfg, s, req, Evictions(env, s.active, req.model));
      DrainOneSwaps(cfg, env, p, req);
    }
  }

  lemma DrainOneSwaps(cfg: Config, env: Env, p: Pass, req: Req)
    requires req.model !in p.s.active
    ensures
      var t := DrainOne(cfg, env, p, req).s;
      t.active == p.s.active || t == StartSwap(cfg, p.s, req, Evictions(env, p.s.active, req.model))
  {
    assert GrantError(p.s, req, ModelNotFound).active == p.s.active;
    assert ResidentServed(cfg, env, p.s, req).active == p.s.active by {
      assert Framed(RecordResident(cfg, env, p.s, req.model), ResidentServed(cfg, env, p.s, req));
    }
  }

  lemma {:induction false} DrainAllGoesOn(cfg: Config, env: Env, s: State, pending: seq<Req>)
    ensures SwapsGoOn(s, DrainAll(cfg, env, s, pending).s)
  {
    if pending != [] {
      DrainAllGoesOn(cfg, env, s, pending[..|pending| - 1]);
      DrainOneGoesOn(cfg, env, DrainAll(cfg, env, s, pending[..|pending| - 1]), pending[|pending| - 1]);
    }
  }

  lemma {:induction false} ErrorKeepsSwaps(s: State, reqs: seq<Req>)
    ensures ErrorEach(s, reqs, Unloaded).active == s.active
  {
    if reqs != [] {
      ErrorKeepsSwaps(s, reqs[..|reqs| - 1]);
    }
  }

  /** Dropping swaps takes these and leaves the others as they were. */
  lemma {:induction false} DropsOnly(s: State, order: seq<string>)
    ensures
      var t := DropSwaps(s, order);
      && t.active.Keys == s.active.Keys - Elements(order)
      && forall id :: id in t.active ==> t.active[id] == s.active[id]
  {
    if order != [] {
      var before, model := order[..|order| - 1], order[|order| - 1];
      assert order == before + [model];
      DropsOnly(s, before);
      var mid := DropSwaps(s, before);
      if model in mid.active {
        ErrorKeepsSwaps(mid.(active := mid.active - {model}), mid.active[model].waiters);
      }
    }
  }

  /** A cancelled request waits at most on the swap of its own model. */
  lemma WaitsOnOwnSwap(cfg: Config, s: State, req: Req, id: string)
    requires Inv(cfg, s) && Enabled(s, Cancel(req)) && id in s.active && id != req.model
    ensures Filter(s.active[id].waiters, HasId(req.id)) == []
    ensures Filter(s.active[id].waiters, LacksId(req.id)) == s.active[id].waiters
  {
    var ws := s.active[id].waiters;
    assert WaitingOk(s.log, Elements(s.queued), id, ws);
    forall w | w in ws
      ensures w.id != req.id
    {
      assert Open(s.log, w) && w.model == id;
    }
    FilterUniform(ws, HasId(req.id), false);
    FilterUniform(ws, LacksId(req.id), true);
  }

  // ---------------------------------------------------------- where events drain

  /** The state in which an event drains the queue, if it does: a swap's waiters have
      their answers, a served request is counted down, unloaded models are dropped. */
  ghost function Drained(cfg: Config, env: Env, s: State, e: Event): Option<State>
  {
    match e
    case SwapDone(model, failed) =>
      if model !in s.active then None
      else Some(GrantEach(cfg, env, s.(active := s.active - {model}), s.active[model].waiters, model, failed))
    case ServeDone(model) =>
      if Get(s.inFlight, model) > 1 then None
      else Some(Release(Reported(s, model), model).(inFlight := s.inFlight - {model}))
    case Unload(targets, order) => Some(DropQueued(DropSwaps(s, order), targets))
    case _ => None
  }

  /** That is the state of every drain: an event that drains goes on from there, and any
      other leaves the requests it keeps queued in their order. */
  lemma DrainsThere(cfg: Config, env: Env, s: State, e: Event)
    ensures
      match Drained(cfg, env, s, e)
      case Some(t) => Step(cfg, env, s, e) == Drain(cfg, env, t)
      case None =>
        var q := Step(cfg, env, s, e).queued;
        q == s.queued || (e.Request? && q == Enqueue(cfg, env, s, e.req).queued)
        || (e.Cancel? && q == Filter(s.queued, LacksId(e.req.id)))
  {
    if Drained(cfg, env, s, e).None? {
      UndrainedQueue(cfg, env, s, e);
    }
  }

  lemma UndrainedQueue(cfg: Config, env: Env, s: State, e: Event)
    requires Drained(cfg, env, s, e).None?
    ensures
      var q := Step(cfg, env, s, e).queued;
      q == s.queued || (e.Request? && q == Enqueue(cfg, env, s, e.req).queued)
      || (e.Cancel? && q == Filter(s.queued, LacksId(e.req.id)))
  {
    match e {
      case Request(req) => RequestQueue(cfg, env, s, req);
      case Cancel(req) => CancelQueue(s, req);
      case _ =>
    }
  }

  lemma CancelQueue(s: State, req: Req)
    ensures OnCancel(s, req).queued == Filter(s.queued, LacksId(req.id))
  {
    var mid := CancelQueued(s, req.id);
    if req.model in mid.active {
      CancelEachFrame(mid, Filter(mid.active[req.model].waiters, HasId(req.id)));
    }
  }

  /** There the queue is what it was before, less the unloaded models, and no burst has
      been counted yet. */
  lemma DrainedFrame(cfg: Config, env: Env, s: State, e: Event)
    requires Drained(cfg, env, s, e).Some?
    ensures
      var t := Drained(cfg, env, s, e).value;
      && t.bursts == s.bursts
      && t.queued == if e.Unload? then Filter(s.queued, Untargeted(e.targets)) else s.queued
  {
    match e {
      case SwapDone(model, failed) =>
        GrantEachFrame(cfg, env, s.(active := s.active - {model}), s.active[model].waiters, model, failed);
      case Unload(targets, order) =>
        var mid := DropSwaps(s, order);
        DropSwapsFrame(s, order);
        ErrorEachFrame(mid, Filter(mid.queued, Targeted(targets)), Unloaded);
      case _ =>
    }
  }
}
