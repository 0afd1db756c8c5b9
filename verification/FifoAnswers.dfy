/** Who is told what, and why: every effect of an event has its cause in the event, the
    state before it and the environment, and a swap, a cancellation and an unload each
    reach everybody they concern. */
module FifoAnswers {
  import opened Names
  import opened FifoSpec
  import opened FifoInvariant
  import opened FifoOrder
  import opened FifoQueue
  import opened FifoRuns

  // ------------------------------------------------------------------ the planner asked

  /** What the planner answers for `m` when these swaps are under way besides the processes
      that run. */
  ghost function Planned(env: Env, m: string, swaps: set<string>): seq<string>
  {
    env.planner(m, (set p | p in env.states && env.states[p] !in {Stopped, Shutdown}) + (swaps - {m}))
  }

  lemma PlannedIs(env: Env, active: map<string, Swap>, m: string)
    ensures Evictions(env, active, m) == Planned(env, m, active.Keys)
  {
    assert env.Running() == set p | p in env.states && env.states[p] !in {Stopped, Shutdown};
  }

  /** Stopping these models for `m` would clash with a swap under way for another model,
      or stop a model with requests in flight. */
  ghost predicate Blocked(s: State, m: string, evict: seq<string>)
  {
    || (exists a :: a in s.active && a != m
          && (a in evict || m in s.active[a].evict || exists v :: v in evict && v in s.active[a].evict))
    || (exists v :: v in evict && v in s.inFlight && s.inFlight[v] > 0)
  }

  lemma BlockedIs(s: State, m: string, evict: seq<string>)
    ensures Blocked(s, m, evict) <==> Collides(m, evict, s.active) || Conflicts(evict, s.inFlight)
  {
    forall a | a in s.active
      ensures Overlap(evict, s.active[a].evict) <==> exists v :: v in evict && v in s.active[a].evict
    {
      OverlapMeans(evict, s.active[a].evict);
    }
    if v :| v in evict && v in s.inFlight && s.inFlight[v] > 0 {
      var i :| 0 <= i < |evict| && evict[i] == v;
      assert Get(s.inFlight, evict[i]) > 0;
    }
    if Conflicts(evict, s.inFlight) {
      var i :| 0 <= i < |evict| && Get(s.inFlight, evict[i]) > 0;
      assert evict[i] in evict && evict[i] in s.inFlight;
    }
    if a :| a in s.active && CollidesWithOne(m, evict, a, s.active[a]) {
      assert a in s.active && a != m;
    }
    if a :| a in s.active && a != m
            && (a in evict || m in s.active[a].evict || exists v :: v in evict && v in s.active[a].evict) {
      assert CollidesWithOne(m, evict, a, s.active[a]);
    }
  }

  lemma OverlapMeans(xs: seq<string>, ys: seq<string>)
    ensures Overlap(xs, ys) <==> exists v :: v in xs && v in ys
  {
    if i :| 0 <= i < |xs| && xs[i] in ys {
      assert xs[i] in xs;
    }
    if v :| v in xs && v in ys {
      var i :| 0 <= i < |xs| && xs[i] == v;
    }
  }

  // ------------------------------------------------------------- why an effect happens

  /** The request waits for the swap of `m`. */
  ghost predicate WaitsFor(s: State, m: string, id: nat)
  {
    m in s.active && exists w :: w in s.active[m].waiters && w.id == id
  }

  /** The request is queued for `m`, or has just come for it. */
  ghost predicate AsksFor(s: State, e: Event, m: string, id: nat)
  {
    (e.Request? && e.req.id == id && e.req.model == m) || exists r :: r in s.queued && r.id == id && r.model == m
  }

  /** The swaps under way at some point of the event: those it does not end, and swaps it
      starts for queued models. */
  ghost predicate UnderWay(s: State, e: Event, swaps: set<string>)
  {
    && (forall a :: a in s.active && !(e.SwapDone? && e.model == a) && !(e.Unload? && a in e.order) ==> a in swaps)
    && (forall a :: a in swaps ==> a in s.active || exists r :: r in s.queued && r.model == a)
  }

  /** Why the event has the effect. */
  ghost predicate Justified(cfg: Config, env: Env, s: State, e: Event, x: Effect)
  {
    match x
    case Admitted(id, m) =>
      && e.Request? && e.req.id == id && e.req.model == m && m in env.states && env.listening(id)
      && Get(s.reserved, m) < if m in cfg.concurrency && cfg.concurrency[m] > 0 then cfg.concurrency[m] else 10
    case Rejected(id, ModelNotFound) => e.Request? && e.req.id == id && e.req.model !in env.states
    case Rejected(id, LimitReached) =>
      && e.Request? && e.req.id == id && e.req.model in env.states
      && var m := e.req.model;
      Get(s.reserved, m) >= if m in cfg.concurrency && cfg.concurrency[m] > 0 then cfg.concurrency[m] else 10
    case Rejected(_, _) => false
    case FastPath(id, m, _) => e.Request? && e.req.id == id && e.req.model == m && m in env.states && env.states[m] == Ready
    case Served(id, m, _) =>
      && env.receives(id) && (m in cfg.leaseAware ==> env.lends(id))
      && ((e == SwapDone(m, false) && WaitsFor(s, m, id)) || (AsksFor(s, e, m, id) && m in env.states && env.states[m] == Ready))
    case Undelivered(id) => !env.receives(id)
    case Refused(id) => !env.lends(id)
    case Errored(id, SwapFailed) => e.SwapDone? && e.failed && WaitsFor(s, e.model, id)
    case Errored(id, Unloaded) =>
      && e.Unload?
      && exists m :: (m in e.order && WaitsFor(s, m, id)) || (m in e.targets && AsksFor(s, e, m, id))
    case Errored(id, ModelNotFound) => exists m :: AsksFor(s, e, m, id) && m !in env.states
    case Errored(_, _) => false
    case Cancelled(id) => e.Cancel? && e.req.id == id
    case SwapStarted(m, evict) =>
      && (exists id :: AsksFor(s, e, m, id)) && m in env.states && !(env.states[m] == Ready && evict == [])
      && exists swaps :: UnderWay(s, e, swaps) && evict == Planned(env, m, swaps)
    case LeaseAsked(m, granted) => m in cfg.leaseAware && exists id :: granted == env.lends(id)
    case LeaseReturned(m) => m in cfg.leaseAware
  }

  /** From `s` to `t` only effects that the event justifies were added. */
  ghost predicate Adds(cfg: Config, env: Env, was: State, e: Event, s: State, t: State)
  {
    s.log <= t.log && forall i :: |s.log| <= i < |t.log| ==> Justified(cfg, env, was, e, t.log[i])
  }

  lemma AddsTwice(cfg: Config, env: Env, was: State, e: Event, s: State, t: State, u: State)
    requires Adds(cfg, env, was, e, s, t) && Adds(cfg, env, was, e, t, u)
    ensures Adds(cfg, env, was, e, s, u)
  {
  }

  lemma AddsOne(cfg: Config, env: Env, was: State, e: Event, s: State, t: State, x: Effect)
    requires t.log == s.log + [x] && Justified(cfg, env, was, e, x)
    ensures Adds(cfg, env, was, e, s, t)
  {
  }

  lemma {:induction false} ErrorEachAdds(cfg: Config, env: Env, was: State, e: Event, s: State, reqs: seq<Req>, failure: Failure)
    requires forall r :: r in reqs ==> Justified(cfg, env, was, e, Errored(r.id, failure))
    ensures Adds(cfg, env, was, e, s, ErrorEach(s, reqs, failure))
  {
    if reqs != [] {
      var before, r := ErrorEach(s, reqs[..|reqs| - 1], failure), reqs[|reqs| - 1];
      ErrorEachAdds(cfg, env, was, e, s, reqs[..|reqs| - 1], failure);
      AddsOne(cfg, env, was, e, before, GrantError(before, r, failure), Errored(r.id, failure));
    }
  }

  lemma {:induction false} CancelEachAdds(cfg: Config, env: Env, was: State, e: Event, s: State, reqs: seq<Req>)
    requires e.Cancel? && forall r :: r in reqs ==> r.id == e.req.id
    ensures Adds(cfg, env, was, e, s, CancelEach(s, reqs))
  {
    if reqs != [] {
      var before, r := CancelEach(s, reqs[..|reqs| - 1]), reqs[|reqs| - 1];
      CancelEachAdds(cfg, env, was, e, s, reqs[..|reqs| - 1]);
      AddsOne(cfg, env, was, e, before, Dismissed(before, r, Cancelled(r.id)), Cancelled(r.id));
    }
  }

  /** A handler may be granted there. */
  ghost predicate MayServe(env: Env, was: State, e: Event, m: string, id: nat)
  {
    (e == SwapDone(m, false) && WaitsFor(was, m, id)) || (AsksFor(was, e, m, id) && m in env.states && env.states[m] == Ready)
  }

  lemma AskAdds(cfg: Config, env: Env, was: State, e: Event, s: State, id: nat, m: string)
    requires m in cfg.leaseAware
    ensures Adds(cfg, env, was, e, s, LeaseAskedFor(env, s, id, m)) && Adds(cfg, env, was, e, s, LeaseGivenBack(s, m))
  {
    AddsOne(cfg, env, was, e, s, LeaseAskedFor(env, s, id, m), LeaseAsked(m, env.lends(id)));
    AddsOne(cfg, env, was, e, s, LeaseGivenBack(s, m), LeaseReturned(m));
  }

  lemma HandAdds(cfg: Config, env: Env, was: State, e: Event, s: State, r: Req, m: string)
    requires MayServe(env, was, e, m, r.id) && env.receives(r.id) && (m in cfg.leaseAware ==> env.lends(r.id))
    ensures Adds(cfg, env, was, e, s, Handed(s, r, m))
  {
    AddsOne(cfg, env, was, e, s, Handed(s, r, m), Served(r.id, m, Evictors(s.active, m)));
  }

  lemma ServeAdds(cfg: Config, env: Env, was: State, e: Event, s: State, r: Req, m: string)
    requires MayServe(env, was, e, m, r.id)
    ensures
      var g := GrantServe(cfg, env, s, r, m);
      Adds(cfg, env, was, e, s, g.s) && (g.Missed? ==> Justified(cfg, env, was, e, g.answer))
  {
    if m in cfg.leaseAware {
      var asked := LeaseAskedFor(env, s, r.id, m);
      AskAdds(cfg, env, was, e, s, r.id, m);
      AskAdds(cfg, env, was, e, asked, r.id, m);
      if env.lends(r.id) && env.receives(r.id) {
        HandAdds(cfg, env, was, e, asked, r, m);
      }
    } else if env.receives(r.id) {
      HandAdds(cfg, env, was, e, s, r, m);
    }
  }

  lemma GrantAdds(cfg: Config, env: Env, was: State, e: Event, s: State, r: Req, m: string)
    requires MayServe(env, was, e, m, r.id)
    ensures Adds(cfg, env, was, e, s, GrantHandler(cfg, env, s, r, m)) && GrantHandler(cfg, env, s, r, m).active == s.active
  {
    ServeAdds(cfg, env, was, e, s, r, m);
    var g := GrantServe(cfg, env, s, r, m);
    if g.Missed? {
      AddsOne(cfg, env, was, e, g.s, Log(Release(g.s, m), g.answer), g.answer);
    }
  }

  lemma {:induction false} GrantEachAdds(cfg: Config, env: Env, was: State, e: Event, s: State, reqs: seq<Req>)
    requires e.SwapDone? && forall r :: r in reqs ==> WaitsFor(was, e.model, r.id)
    ensures Adds(cfg, env, was, e, s, GrantEach(cfg, env, s, reqs, e.model, e.failed))
  {
    if reqs != [] {
      var before, r := GrantEach(cfg, env, s, reqs[..|reqs| - 1], e.model, e.failed), reqs[|reqs| - 1];
      GrantEachAdds(cfg, env, was, e, s, reqs[..|reqs| - 1]);
      if e.failed {
        AddsOne(cfg, env, was, e, before, GrantError(before, r, SwapFailed), Errored(r.id, SwapFailed));
      } else {
        assert MayServe(env, was, e, e.model, r.id);
        GrantAdds(cfg, env, was, e, before, r, e.model);
      }
    }
  }

  // ------------------------------------------------------------------- and in a drain

  lemma StartAdds(cfg: Config, env: Env, was: State, e: Event, s: State, req: Req)
    requires AsksFor(was, e, req.model, req.id) && UnderWay(was, e, s.active.Keys) && req.model in env.states
    requires
      var evict := Evictions(env, s.active, req.model);
      !(env.IsReady(req.model) && evict == [])
    ensures Adds(cfg, env, was, e, s, StartSwap(cfg, s, req, Evictions(env, s.active, req.model)))
  {
    var evict := Evictions(env, s.active, req.model);
    PlannedIs(env, s.active, req.model);
    AddsOne(cfg, env, was, e, s, StartSwap(cfg, s, req, evict), SwapStarted(req.model, evict));
  }

  lemma SameLogAdds(cfg: Config, env: Env, was: State, e: Event, s: State, noted: State, t: State)
    requires noted.log == s.log && Adds(cfg, env, was, e, noted, t)
    ensures Adds(cfg, env, was, e, s, t)
  {
  }

  lemma RecordSilent(cfg: Config, env: Env, s: State, m: string)
    ensures var t := RecordResident(cfg, env, s, m); t == s.(bursts := t.bursts)
  {
  }

  lemma ResidentAdds(cfg: Config, env: Env, was: State, e: Event, s: State, req: Req)
    requires MayServe(env, was, e, req.model, req.id)
    ensures Adds(cfg, env, was, e, s, ResidentServed(cfg, env, s, req)) && ResidentServed(cfg, env, s, req).active == s.active
  {
    var noted := RecordResident(cfg, env, s, req.model);
    RecordSilent(cfg, env, s, req.model);
    GrantAdds(cfg, env, was, e, noted, req, req.model);
    SameLogAdds(cfg, env, was, e, s, noted, ResidentServed(cfg, env, s, req));
  }

  lemma UnknownAdds(cfg: Config, env: Env, was: State, e: Event, s: State, req: Req)
    requires AsksFor(was, e, req.model, req.id) && req.model !in env.states
    ensures Adds(cfg, env, was, e, s, GrantError(s, req, ModelNotFound)) && GrantError(s, req, ModelNotFound).active == s.active
  {
    AddsOne(cfg, env, was, e, s, GrantError(s, req, ModelNotFound), Errored(req.id, ModelNotFound));
  }

  lemma UnderWayNext(was: State, e: Event, swaps: set<string>, req: Req)
    requires UnderWay(was, e, swaps) && req in was.queued
    ensures UnderWay(was, e, swaps + {req.model})
  {
  }

  /** What deciding one queued request again comes to. */
  lemma DrainOneCases(cfg: Config, env: Env, p: Pass, req: Req)
    ensures
      var s, t, evict := p.s, DrainOne(cfg, env, p, req).s, Evictions(env, p.s.active, req.model);
      || t == s
      || (req.model !in env.states && t == GrantError(s, req, ModelNotFound))
      || (req.model in s.active && t == Join(s, req))
      || (req.model in env.states && env.states[req.model] == Ready && t == ResidentServed(cfg, env, s, req))
      || (req.model in env.states && !(env.IsReady(req.model) && evict == []) && t == StartSwap(cfg, s, req, evict))
  {
  }

  lemma JoinAdds(cfg: Config, env: Env, was: State, e: Event, s: State, req: Req)
    requires req.model in s.active
    ensures Adds(cfg, env, was, e, s, Join(s, req)) && Join(s, req).active.Keys == s.active.Keys
  {
  }

  lemma DrainOneAdds(cfg: Config, env: Env, was: State, e: Event, p: Pass, req: Req)
    requires req in was.queued && UnderWay(was, e, p.s.active.Keys)
    ensures Adds(cfg, env, was, e, p.s, DrainOne(cfg, env, p, req).s)
    ensures UnderWay(was, e, DrainOne(cfg, env, p, req).s.active.Keys)
  {
    var s, t, evict := p.s, DrainOne(cfg, env, p, req).s, Evictions(env, p.s.active, req.model);
    DrainOneCases(cfg, env, p, req);
    assert AsksFor(was, e, req.model, req.id);
    if t == s {
    } else if req.model !in env.states && t == GrantError(s, req, ModelNotFound) {
      UnknownAdds(cfg, env, was, e, s, req);
    } else if req.model in s.active && t == Join(s, req) {
      JoinAdds(cfg, env, was, e, s, req);
    } else if t == ResidentServed(cfg, env, s, req) && env.states[req.model] == Ready {
      ResidentAdds(cfg, env, was, e, s, req);
    } else {
      StartAdds(cfg, env, was, e, s, req);
      UnderWayNext(was, e, s.active.Keys, req);
      assert t.active.Keys == s.active.Keys + {req.model};
    }
  }

  lemma {:induction false} DrainAllAdds(cfg: Config, env: Env, was: State, e: Event, s: State, pending: seq<Req>)
    requires (forall r :: r in pending ==> r in was.queued) && UnderWay(was, e, s.active.Keys)
    ensures Adds(cfg, env, was, e, s, DrainAll(cfg, env, s, pending).s)
    ensures UnderWay(was, e, DrainAll(cfg, env, s, pending).s.active.Keys)
  {
    if pending != [] {
      DrainAllAdds(cfg, env, was, e, s, pending[..|pending| - 1]);
      DrainOneAdds(cfg, env, was, e, DrainAll(cfg, env, s, pending[..|pending| - 1]), pending[|pending| - 1]);
    }
  }

  lemma DrainAdds(cfg: Config, env: Env, was: State, e: Event, s: State)
    requires cfg.Valid() && (forall r :: r in s.queued ==> r in was.queued) && UnderWay(was, e, s.active.Keys)
    ensures Adds(cfg, env, was, e, s, Drain(cfg, env, s))
  {
    if s.queued != [] {
      FairOrderWithin(cfg, env, s);
      DrainAllAdds(cfg, env, was, e, s, FairOrder(cfg, env, s));
    }
  }

  // -------------------------------------------------------------------- and in each event

  /** What deciding a request that holds a slot comes to. */
  lemma DecideCases(cfg: Config, env: Env, s: State, req: Req)
    ensures
      var t, evict := Decide(cfg, env, s, req), Evictions(env, s.active, req.model);
      || t == Enqueue(cfg, env, s, req)
      || (req.model in s.active && t == Join(s, req))
      || (env.IsReady(req.model) && t == ServedAtOnce(cfg, env, s, req))
      || (!(env.IsReady(req.model) && evict == []) && t == StartSwap(cfg, s, req, evict))
  {
  }

  lemma DecideAdds(cfg: Config, env: Env, was: State, e: Event, s: State, req: Req)
    requires e == Request(req) && s.active == was.active && req.model in env.states
    ensures Adds(cfg, env, was, e, s, Decide(cfg, env, s, req))
  {
    var t := Decide(cfg, env, s, req);
    DecideCases(cfg, env, s, req);
    assert AsksFor(was, e, req.model, req.id);
    if t == Enqueue(cfg, env, s, req) {
      assert t.log == s.log;
    } else if req.model in s.active && t == Join(s, req) {
      JoinAdds(cfg, env, was, e, s, req);
    } else if t == ServedAtOnce(cfg, env, s, req) && env.IsReady(req.model) {
      FastPathAdds(cfg, env, was, e, s, req);
    } else {
      StartAdds(cfg, env, was, e, s, req);
    }
  }

  lemma FastPathAdds(cfg: Config, env: Env, was: State, e: Event, s: State, req: Req)
    requires e == Request(req) && env.IsReady(req.model)
    ensures Adds(cfg, env, was, e, s, ServedAtOnce(cfg, env, s, req))
  {
    var x := FastPath(req.id, req.model, ColdWaits(cfg, env, s, req.model));
    AddsOne(cfg, env, was, e, s, Log(s, x), x);
    ResidentAdds(cfg, env, was, e, Log(s, x), req);
    AddsTwice(cfg, env, was, e, s, Log(s, x), ServedAtOnce(cfg, env, s, req));
  }

  lemma RequestAdds(cfg: Config, env: Env, s: State, req: Req)
    ensures Adds(cfg, env, s, Request(req), s, OnRequest(cfg, env, s, req))
  {
    var e := Request(req);
    if req.model !in env.states {
      AddsOne(cfg, env, s, e, s, OnRequest(cfg, env, s, req), Rejected(req.id, ModelNotFound));
    } else if Get(s.reserved, req.model) >= cfg.Limit(req.model) {
      AddsOne(cfg, env, s, e, s, OnRequest(cfg, env, s, req), Rejected(req.id, LimitReached));
    } else if env.listening(req.id) {
      AdmittedAdds(cfg, env, s, req);
    }
  }

  lemma AdmittedAdds(cfg: Config, env: Env, s: State, req: Req)
    requires req.model in env.states && env.listening(req.id) && Get(s.reserved, req.model) < cfg.Limit(req.model)
    ensures Adds(cfg, env, s, Request(req), s, Decide(cfg, env, Admit(s, req), req))
  {
    AddsOne(cfg, env, s, Request(req), s, Admit(s, req), Admitted(req.id, req.model));
    DecideAdds(cfg, env, s, Request(req), Admit(s, req), req);
    AddsTwice(cfg, env, s, Request(req), s, Admit(s, req), Decide(cfg, env, Admit(s, req), req));
  }

  lemma CancelAdds(cfg: Config, env: Env, s: State, req: Req)
    ensures Adds(cfg, env, s, Cancel(req), s, OnCancel(s, req))
  {
    var e, gone, mid := Cancel(req), Filter(s.queued, HasId(req.id)), CancelQueued(s, req.id);
    FilterMembers(s.queued, HasId(req.id));
    CancelEachAdds(cfg, env, s, e, s, gone);
    if req.model in mid.active {
      var ws := mid.active[req.model].waiters;
      FilterMembers(ws, HasId(req.id));
      CancelEachAdds(cfg, env, s, e, mid, Filter(ws, HasId(req.id)));
      AddsTwice(cfg, env, s, e, s, mid, OnCancel(s, req));
    }
  }

  lemma SwapDoneAdds(cfg: Config, env: Env, s: State, model: string, failed: bool)
    requires cfg.Valid()
    ensures Adds(cfg, env, s, SwapDone(model, failed), s, OnSwapDone(cfg, env, s, model, failed))
  {
    if model in s.active {
      var e, ws := SwapDone(model, failed), s.active[model].waiters;
      var detached := s.(active := s.active - {model});
      var t := GrantEach(cfg, env, detached, ws, model, failed);
      GrantEachAdds(cfg, env, s, e, detached, ws);
      GrantEachFrame(cfg, env, detached, ws, model, failed);
      DrainAdds(cfg, env, s, e, t);
      AddsTwice(cfg, env, s, e, detached, t, OnSwapDone(cfg, env, s, model, failed));
    }
  }

  lemma ReturnAdds(cfg: Config, env: Env, s: State, model: string)
    ensures Adds(cfg, env, s, HandlerReturns(model), s, HandlerReturned(cfg, s, model))
  {
    if model in cfg.leaseAware {
      AddsOne(cfg, env, s, HandlerReturns(model), s, LeaseGivenBack(s, model), LeaseReturned(model));
    }
  }

  lemma ServeDoneAdds(cfg: Config, env: Env, s: State, model: string)
    requires cfg.Valid()
    ensures Adds(cfg, env, s, ServeDone(model), s, OnServeDone(cfg, env, Reported(s, model), model))
  {
    var t := Release(Reported(s, model), model).(inFlight := s.inFlight - {model});
    DrainAdds(cfg, env, s, ServeDone(model), t);
    SameLogAdds(cfg, env, s, ServeDone(model), s, t, Drain(cfg, env, t));
  }

  lemma {:induction false} DropSwapsAdds(cfg: Config, env: Env, s: State, e: Event, order: seq<string>)
    requires e.Unload? && forall m :: m in order ==> m in e.order
    ensures Adds(cfg, env, s, e, s, DropSwaps(s, order))
  {
    if order != [] {
      var before, m := order[..|order| - 1], order[|order| - 1];
      assert order == before + [m];
      DropSwapsAdds(cfg, env, s, e, before);
      DropsOnly(s, before);
      var mid := DropSwaps(s, before);
      if m in mid.active {
        forall w | w in mid.active[m].waiters
          ensures Justified(cfg, env, s, e, Errored(w.id, Unloaded))
        {
          assert WaitsFor(s, m, w.id);
        }
        ErrorEachAdds(cfg, env, s, e, mid.(active := mid.active - {m}), mid.active[m].waiters, Unloaded);
      }
    }
  }

  lemma UnloadAdds(cfg: Config, env: Env, s: State, targets: seq<string>, order: seq<string>)
    requires cfg.Valid()
    ensures Adds(cfg, env, s, Unload(targets, order), s, OnUnload(cfg, env, s, targets, order))
  {
    var e, mid := Unload(targets, order), DropSwaps(s, order);
    DropSwapsAdds(cfg, env, s, e, order);
    DropsOnly(s, order);
    DropSwapsFrame(s, order);
    var gone, t := Filter(mid.queued, Targeted(targets)), DropQueued(mid, targets);
    FilterMembers(mid.queued, Targeted(targets));
    FilterMembers(mid.queued, Untargeted(targets));
    forall r | r in gone
      ensures Justified(cfg, env, s, e, Errored(r.id, Unloaded))
    {
      assert AsksFor(s, e, r.model, r.id);
    }
    ErrorEachAdds(cfg, env, s, e, mid, gone, Unloaded);
    ErrorKeepsSwaps(mid, gone);
    DrainAdds(cfg, env, s, e, t);
    SameLogAdds(cfg, env, s, e, t, ErrorEach(mid, gone, Unloaded), Drain(cfg, env, t));
    AddsTwice(cfg, env, s, e, s, mid, t);
    AddsTwice(cfg, env, s, e, s, t, OnUnload(cfg, env, s, targets, order));
  }

  /** Every effect of every event has its reason: a handler only for a caller that takes
      it, under a lease where there are leases, and only on a model that runs or whose
      swap has just succeeded for this waiter; each error only to those it is about; a
      swap only for a request, with exactly the planner's answer. */
  lemma EffectsAreJustified(cfg: Config, env: Env, s: State, e: Event)
    requires cfg.Valid()
    ensures Adds(cfg, env, s, e, s, Step(cfg, env, s, e))
  {
    match e {
      case Request(req) => RequestAdds(cfg, env, s, req);
      case Cancel(req) => CancelAdds(cfg, env, s, req);
      case SwapDone(model, failed) => SwapDoneAdds(cfg, env, s, model, failed);
      case HandlerReturns(model) => ReturnAdds(cfg, env, s, model);
      case ServeDone(model) => ServeDoneAdds(cfg, env, s, model);
      case Unload(targets, order) => UnloadAdds(cfg, env, s, targets, order);
    }
  }

  /** So in every run every effect was brought about by one of its turns, for a reason. */
  lemma {:induction false} EffectsHaveCauses(cfg: Config, run: seq<Turn>, i: nat)
    requires cfg.Valid() && i < |After(cfg, run).log|
    ensures exists k: nat ::
      k < |run| && Justified(cfg, run[k].env, After(cfg, run[..k]), run[k].event, After(cfg, run).log[i])
  {
    var n := |run| - 1;
    var s := After(cfg, run[..n]);
    EffectsAreJustified(cfg, run[n].env, s, run[n].event);
    if i < |s.log| {
      EffectsHaveCauses(cfg, run[..n], i);
      var k: nat :| k < n && Justified(cfg, run[..n][k].env, After(cfg, run[..n][..k]), run[..n][k].event, s.log[i]);
      assert run[..n][..k] == run[..k];
    }
  }
}
