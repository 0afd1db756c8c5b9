/** The provider's view of the scheduler: what its lease calls add up to, and that none
    of them asks for a model while an active swap is stopping it. */
module FifoLeases {
  import opened Names
  import opened FifoSpec
  import opened FifoInvariant
  import opened FifoOrder
  import opened FifoRuns

  // ---------------------------------------------------------------- lease calls

  /** The count of a model's leases after one call; giving back stops at zero. */
  function AfterCall(n: int, e: Effect, m: string): int
  {
    match e
    case LeaseAsked(model, granted) => if model == m && granted then n + 1 else n
    case LeaseReturned(model) => if model == m && n > 0 then n - 1 else n
    case _ => n
  }

  function Replay(n: int, effects: seq<Effect>, m: string): int
  {
    if effects == [] then n else AfterCall(Replay(n, effects[..|effects| - 1], m), effects[|effects| - 1], m)
  }

  ghost predicate AsksFor(effects: seq<Effect>, m: string)
  {
    exists i :: 0 <= i < |effects| && effects[i].LeaseAsked? && effects[i].model == m
  }

  lemma {:induction false} ReplaySplit(n: int, a: seq<Effect>, b: seq<Effect>, m: string)
    ensures Replay(n, a + b, m) == Replay(Replay(n, a, m), b, m)
  {
    if b == [] {
      assert a + b == a;
    } else {
      var k := |b| - 1;
      assert (a + b)[..|a + b| - 1] == a + b[..k];
      ReplaySplit(n, a, b[..k], m);
    }
  }

  lemma AsksOfBoth(a: seq<Effect>, b: seq<Effect>, m: string)
    ensures AsksFor(a + b, m) ==> AsksFor(a, m) || AsksFor(b, m)
  {
    if i :| 0 <= i < |a + b| && (a + b)[i].LeaseAsked? && (a + b)[i].model == m {
      assert i < |a| ==> a[i] == (a + b)[i];
      assert i >= |a| ==> b[i - |a|] == (a + b)[i];
    }
  }

  /** Nobody who did not ask has a lease. */
  lemma {:induction false} NothingAsked(effects: seq<Effect>, m: string)
    requires !AsksFor(effects, m)
    ensures Replay(0, effects, m) == 0
  {
    if effects != [] {
      var before := effects[..|effects| - 1];
      forall i | 0 <= i < |before|
        ensures !(before[i].LeaseAsked? && before[i].model == m)
      {
        assert before[i] == effects[i];
      }
      NothingAsked(before, m);
    }
  }

  // ------------------------------------------------------------- what events note

  /** The swap `a`, if one is given, is active and stopping `m`. */
  ghost predicate Stops(s: State, a: Option<string>, m: string)
  {
    a.Some? && a.value in s.active && m in s.active[a.value].evict
  }

  /** From `s` to `t` effects were only added; the leases on `m` are what the calls among
      them make of the earlier ones; and if the swap `a` was stopping `m`, it still is
      and nobody asked for a lease on `m`. */
  ghost predicate Follows(s: State, t: State, a: Option<string>, m: string)
  {
    && s.log <= t.log
    && Get(t.leases, m) == Replay(Get(s.leases, m), t.log[|s.log|..], m)
    && (Stops(s, a, m) ==> Stops(t, a, m) && !AsksFor(t.log[|s.log|..], m))
  }

  lemma FollowsTwice(s: State, t: State, u: State, a: Option<string>, m: string)
    requires Follows(s, t, a, m) && Follows(t, u, a, m)
    ensures Follows(s, u, a, m)
  {
    var first, second := t.log[|s.log|..], u.log[|t.log|..];
    assert u.log[|s.log|..] == first + second;
    ReplaySplit(Get(s.leases, m), first, second, m);
    AsksOfBoth(first, second, m);
  }

  /** Nothing is noted. */
  lemma Silent(s: State, t: State, a: Option<string>, m: string)
    requires t.log == s.log && t.leases == s.leases && (Stops(s, a, m) ==> Stops(t, a, m))
    ensures Follows(s, t, a, m)
  {
    assert t.log[|s.log|..] == [];
  }

  lemma NotedOne(s: State, t: State, e: Effect, a: Option<string>, m: string)
    requires t.log == s.log + [e] && Get(t.leases, m) == AfterCall(Get(s.leases, m), e, m)
    requires Stops(s, a, m) ==> Stops(t, a, m) && !(e.LeaseAsked? && e.model == m)
    ensures Follows(s, t, a, m)
  {
    assert t.log[|s.log|..] == [e];
    assert [e][..0] == [];
  }

  lemma {:induction false} ErrorEachFollows(s: State, reqs: seq<Req>, failure: Failure, a: Option<string>, m: string)
    ensures Follows(s, ErrorEach(s, reqs, failure), a, m)
  {
    if reqs == [] {
      Silent(s, s, a, m);
    } else {
      var before, r := ErrorEach(s, reqs[..|reqs| - 1], failure), reqs[|reqs| - 1];
      ErrorEachFollows(s, reqs[..|reqs| - 1], failure, a, m);
      NotedOne(before, GrantError(before, r, failure), Errored(r.id, failure), a, m);
      FollowsTwice(s, before, GrantError(before, r, failure), a, m);
    }
  }

  lemma {:induction false} CancelEachFollows(s: State, reqs: seq<Req>, a: Option<string>, m: string)
    ensures Follows(s, CancelEach(s, reqs), a, m)
  {
    if reqs == [] {
      Silent(s, s, a, m);
    } else {
      var before, r := CancelEach(s, reqs[..|reqs| - 1]), reqs[|reqs| - 1];
      CancelEachFollows(s, reqs[..|reqs| - 1], a, m);
      NotedOne(before, Dismissed(before, r, Cancelled(r.id)), Cancelled(r.id), a, m);
      FollowsTwice(s, before, Dismissed(before, r, Cancelled(r.id)), a, m);
    }
  }

  /** A swap that stops a model is one of its evictors. */
  lemma StopsIsEvictor(s: State, a: Option<string>, m: string)
    ensures Stops(s, a, m) ==> a.value in Evictors(s.active, m)
  {
  }

  lemma AskFollows(env: Env, s: State, id: nat, model: string, a: Option<string>, m: string)
    requires Evictors(s.active, model) == {}
    ensures Follows(s, LeaseAskedFor(env, s, id, model), a, m)
  {
    StopsIsEvictor(s, a, m);
    NotedOne(s, LeaseAskedFor(env, s, id, model), LeaseAsked(model, env.lends(id)), a, m);
  }

  lemma GiveFollows(s: State, model: string, a: Option<string>, m: string)
    ensures Follows(s, LeaseGivenBack(s, model), a, m)
  {
    NotedOne(s, LeaseGivenBack(s, model), LeaseReturned(model), a, m);
  }

  lemma HandFollows(s: State, req: Req, model: string, a: Option<string>, m: string)
    ensures Follows(s, Handed(s, req, model), a, m)
  {
    NotedOne(s, Handed(s, req, model), Served(req.id, model, Evictors(s.active, model)), a, m);
  }

  lemma ServeFollows(cfg: Config, env: Env, s: State, req: Req, model: string, a: Option<string>, m: string)
    requires Evictors(s.active, model) == {}
    ensures Follows(s, GrantServe(cfg, env, s, req, model).s, a, m)
  {
    if model in cfg.leaseAware {
      var asked := LeaseAskedFor(env, s, req.id, model);
      AskFollows(env, s, req.id, model, a, m);
      GiveFollows(asked, model, a, m);
      HandFollows(asked, req, model, a, m);
      FollowsTwice(s, asked, Handed(asked, req, model), a, m);
      FollowsTwice(s, asked, LeaseGivenBack(asked, model), a, m);
    } else {
      HandFollows(s, req, model, a, m);
      Silent(s, s, a, m);
    }
  }

  lemma GrantFollows(cfg: Config, env: Env, s: State, req: Req, model: string, a: Option<string>, m: string)
    requires Evictors(s.active, model) == {}
    ensures Follows(s, GrantHandler(cfg, env, s, req, model), a, m)
  {
    var g, t := GrantServe(cfg, env, s, req, model), GrantHandler(cfg, env, s, req, model);
    ServeFollows(cfg, env, s, req, model, a, m);
    if g.Missed? {
      MissedNotes(cfg, env, s, req, model);
      NotedOne(g.s, t, g.answer, a, m);
    } else {
      Silent(g.s, t, a, m);
    }
    FollowsTwice(s, g.s, t, a, m);
  }

  lemma MissedNotes(cfg: Config, env: Env, s: State, req: Req, model: string)
    requires GrantServe(cfg, env, s, req, model).Missed?
    ensures
      var g, t := GrantServe(cfg, env, s, req, model), GrantHandler(cfg, env, s, req, model);
      && (g.answer.Undelivered? || g.answer.Refused?) && t.log == g.s.log + [g.answer]
      && t.leases == g.s.leases && t.active == g.s.active
  {
  }

  lemma {:induction false} GrantEachFollows(cfg: Config, env: Env, s: State, reqs: seq<Req>, model: string, failed: bool,
      a: Option<string>, m: string)
    requires Evictors(s.active, model) == {}
    ensures var t := GrantEach(cfg, env, s, reqs, model, failed); Follows(s, t, a, m) && t.active == s.active
  {
    if reqs == [] {
      Silent(s, s, a, m);
    } else {
      var before, r := GrantEach(cfg, env, s, reqs[..|reqs| - 1], model, failed), reqs[|reqs| - 1];
      GrantEachFollows(cfg, env, s, reqs[..|reqs| - 1], model, failed, a, m);
      if failed {
        NotedOne(before, GrantError(before, r, SwapFailed), Errored(r.id, SwapFailed), a, m);
        FollowsTwice(s, before, GrantError(before, r, SwapFailed), a, m);
      } else {
        GrantFollows(cfg, env, before, r, model, a, m);
        FollowsTwice(s, before, GrantHandler(cfg, env, before, r, model), a, m);
      }
    }
  }

  // ----------------------------------------------------------------------- drain

  lemma StartFollows(cfg: Config, s: State, req: Req, evict: seq<string>, a: Option<string>, m: string)
    requires req.model !in s.active
    ensures Follows(s, StartSwap(cfg, s, req, evict), a, m)
  {
    NotedOne(s, StartSwap(cfg, s, req, evict), SwapStarted(req.model, evict), a, m);
  }

  /** A resident model that collides with nothing is granted its handler. */
  lemma ResidentFollows(cfg: Config, env: Env, s: State, req: Req, a: Option<string>, m: string)
    requires req.model !in s.active && !Collides(req.model, [], s.active)
    ensures Follows(s, ResidentServed(cfg, env, s, req), a, m)
  {
    var noted := RecordResident(cfg, env, s, req.model);
    NoEvictors(s.active, req.model, []);
    Silent(s, noted, a, m);
    GrantFollows(cfg, env, noted, req, req.model, a, m);
    FollowsTwice(s, noted, GrantHandler(cfg, env, noted, req, req.model), a, m);
  }

  lemma DrainOneFollows(cfg: Config, env: Env, p: Pass, req: Req, a: Option<string>, m: string)
    ensures Follows(p.s, DrainOne(cfg, env, p, req).s, a, m)
  {
    var s, evict := p.s, Evictions(env, p.s.active, req.model);
    if req.model !in env.states {
      NotedOne(s, GrantError(s, req, ModelNotFound), Errored(req.id, ModelNotFound), a, m);
    } else if req.model in s.active {
      Silent(s, Join(s, req), a, m);
    } else if env.IsReady(req.model) && evict == [] && !Collides(req.model, evict, s.active) {
      ResidentFollows(cfg, env, s, req, a, m);
    } else if Collides(req.model, evict, s.active) || Conflicts(evict, s.inFlight) {
      Silent(s, s, a, m);
    } else {
      StartFollows(cfg, s, req, evict, a, m);
    }
  }

  lemma {:induction false} DrainAllFollows(cfg: Config, env: Env, s: State, pending: seq<Req>, a: Option<string>, m: string)
    ensures Follows(s, DrainAll(cfg, env, s, pending).s, a, m)
  {
    if pending == [] {
      Silent(s, s, a, m);
    } else {
      var p := DrainAll(cfg, env, s, pending[..|pending| - 1]);
      DrainAllFollows(cfg, env, s, pending[..|pending| - 1], a, m);
      DrainOneFollows(cfg, env, p, pending[|pending| - 1], a, m);
      FollowsTwice(s, p.s, DrainOne(cfg, env, p, pending[|pending| - 1]).s, a, m);
    }
  }

  /** `t` is reached and then drained. */
  lemma ThenDrained(cfg: Config, env: Env, s: State, t: State, a: Option<string>, m: string)
    requires Follows(s, t, a, m)
    ensures Follows(s, Drain(cfg, env, t), a, m)
  {
    if t.queued != [] {
      var p := DrainAll(cfg, env, t, FairOrder(cfg, env, t));
      DrainAllFollows(cfg, env, t, FairOrder(cfg, env, t), a, m);
      Silent(p.s, Drain(cfg, env, t), a, m);
      FollowsTwice(t, p.s, Drain(cfg, env, t), a, m);
      FollowsTwice(s, t, Drain(cfg, env, t), a, m);
    }
  }

  // ---------------------------------------------------------------------- events

  /** The event ends the swap: its own completion, or an unload of its target. */
  predicate Ends(e: Event, a: string)
  {
    (e.SwapDone? && e.model == a) || (e.Unload? && a in e.order)
  }

  lemma FastPathFollows(cfg: Config, env: Env, s: State, req: Req, a: Option<string>, m: string)
    requires req.model !in s.active && !Collides(req.model, [], s.active)
    ensures Follows(s, ServedAtOnce(cfg, env, s, req), a, m)
  {
    var e := FastPath(req.id, req.model, ColdWaits(cfg, env, s, req.model));
    var noted := Log(s, e);
    NotedOne(s, noted, e, a, m);
    ResidentFollows(cfg, env, noted, req, a, m);
    FollowsTwice(s, noted, ServedAtOnce(cfg, env, s, req), a, m);
  }

  /** A request is queued, or waits on its model's swap. */
  lemma WaitFollows(cfg: Config, env: Env, s: State, req: Req, a: Option<string>, m: string)
    ensures Follows(s, Enqueue(cfg, env, s, req), a, m)
    ensures req.model in s.active ==> Follows(s, Join(s, req), a, m)
  {
    Silent(s, Enqueue(cfg, env, s, req), a, m);
    if req.model in s.active {
      Silent(s, Join(s, req), a, m);
    }
  }

  lemma DecideFollows(cfg: Config, env: Env, s: State, req: Req, a: Option<string>, m: string)
    ensures Follows(s, Decide(cfg, env, s, req), a, m)
  {
    var evict := Evictions(env, s.active, req.model);
    WaitFollows(cfg, env, s, req, a, m);
    if req.model !in s.active {
      StartFollows(cfg, s, req, evict, a, m);
      if !Collides(req.model, [], s.active) {
        FastPathFollows(cfg, env, s, req, a, m);
      }
      assert Decide(cfg, env, s, req) in
        {Enqueue(cfg, env, s, req), ServedAtOnce(cfg, env, s, req), StartSwap(cfg, s, req, evict)};
    }
  }

  lemma RequestFollows(cfg: Config, env: Env, s: State, req: Req, a: Option<string>, m: string)
    ensures Follows(s, OnRequest(cfg, env, s, req), a, m)
  {
    if req.model !in env.states {
      RejectFollows(s, req.id, ModelNotFound, a, m);
    } else if Get(s.reserved, req.model) >= cfg.Limit(req.model) {
      RejectFollows(s, req.id, LimitReached, a, m);
    } else if !env.listening(req.id) {
      Silent(s, s, a, m);
    } else {
      AdmitFollows(cfg, env, s, req, a, m);
    }
  }

  lemma RejectFollows(s: State, id: nat, failure: Failure, a: Option<string>, m: string)
    ensures Follows(s, Log(s, Rejected(id, failure)), a, m)
  {
    NotedOne(s, Log(s, Rejected(id, failure)), Rejected(id, failure), a, m);
  }

  lemma AdmitFollows(cfg: Config, env: Env, s: State, req: Req, a: Option<string>, m: string)
    ensures Follows(s, Decide(cfg, env, Admit(s, req), req), a, m)
  {
    NotedOne(s, Admit(s, req), Admitted(req.id, req.model), a, m);
    DecideFollows(cfg, env, Admit(s, req), req, a, m);
    FollowsTwice(s, Admit(s, req), Decide(cfg, env, Admit(s, req), req), a, m);
  }

  lemma CancelFollows(s: State, req: Req, a: Option<string>, m: string)
    ensures Follows(s, OnCancel(s, req), a, m)
  {
    var gone, mid := Filter(s.queued, HasId(req.id)), CancelQueued(s, req.id);
    CancelEachFollows(s, gone, a, m);
    Silent(CancelEach(s, gone), mid, a, m);
    FollowsTwice(s, CancelEach(s, gone), mid, a, m);
    if req.model in mid.active {
      var pulled := CancelEach(mid, Filter(mid.active[req.model].waiters, HasId(req.id)));
      CancelEachFollows(mid, Filter(mid.active[req.model].waiters, HasId(req.id)), a, m);
      CancelKeepsSwaps(mid, Filter(mid.active[req.model].waiters, HasId(req.id)));
      Silent(pulled, OnCancel(s, req), a, m);
      FollowsTwice(mid, pulled, OnCancel(s, req), a, m);
      FollowsTwice(s, mid, OnCancel(s, req), a, m);
    }
  }

  lemma {:induction false} CancelKeepsSwaps(s: State, reqs: seq<Req>)
    ensures CancelEach(s, reqs).active == s.active
  {
    if reqs != [] {
      CancelKeepsSwaps(s, reqs[..|reqs| - 1]);
    }
  }

  lemma SwapDoneFollows(cfg: Config, env: Env, s: State, model: string, failed: bool, a: Option<string>, m: string)
    requires Inv(cfg, s) && a != Some(model)
    ensures Follows(s, OnSwapDone(cfg, env, s, model, failed), a, m)
  {
    if model in s.active {
      var t := s.(active := s.active - {model});
      DetachHeld(cfg, s, Elements(s.queued), model);
      Silent(s, t, a, m);
      GrantEachFollows(cfg, env, t, s.active[model].waiters, model, failed, a, m);
      FollowsTwice(s, t, GrantEach(cfg, env, t, s.active[model].waiters, model, failed), a, m);
      ThenDrained(cfg, env, s, GrantEach(cfg, env, t, s.active[model].waiters, model, failed), a, m);
    } else {
      Silent(s, s, a, m);
    }
  }

  lemma ServeDoneFollows(cfg: Config, env: Env, s: State, model: string, a: Option<string>, m: string)
    ensures Follows(s, OnServeDone(cfg, env, Reported(s, model), model), a, m)
  {
    var t := Release(Reported(s, model), model).(inFlight := s.inFlight - {model});
    Silent(s, t, a, m);
    ThenDrained(cfg, env, s, t, a, m);
    Silent(s, Release(Reported(s, model), model).(inFlight := s.inFlight[model := Get(s.inFlight, model) - 1]), a, m);
  }

  lemma DropSwapFollows(s: State, model: string, a: Option<string>, m: string)
    requires a != Some(model)
    ensures Follows(s, DropSwap(s, model), a, m)
  {
    if model in s.active {
      var t := s.(active := s.active - {model});
      Silent(s, t, a, m);
      ErrorEachFollows(t, s.active[model].waiters, Unloaded, a, m);
      FollowsTwice(s, t, DropSwap(s, model), a, m);
    } else {
      Silent(s, s, a, m);
    }
  }

  lemma {:induction false} DropSwapsFollows(s: State, order: seq<string>, a: Option<string>, m: string)
    requires a.Some? ==> a.value !in order
    ensures Follows(s, DropSwaps(s, order), a, m)
  {
    if order == [] {
      Silent(s, s, a, m);
    } else {
      var before, model := order[..|order| - 1], order[|order| - 1];
      assert forall x :: x in before ==> x in order;
      DropSwapsFollows(s, before, a, m);
      DropSwapFollows(DropSwaps(s, before), model, a, m);
      FollowsTwice(s, DropSwaps(s, before), DropSwaps(s, order), a, m);
    }
  }

  lemma UnloadFollows(cfg: Config, env: Env, s: State, targets: seq<string>, order: seq<string>, a: Option<string>, m: string)
    requires a.Some? ==> a.value !in order
    ensures Follows(s, OnUnload(cfg, env, s, targets, order), a, m)
  {
    var mid, gone := DropSwaps(s, order), Filter(DropSwaps(s, order).queued, Targeted(targets));
    DropSwapsFollows(s, order, a, m);
    ErrorEachFollows(mid, gone, Unloaded, a, m);
    FollowsTwice(s, mid, ErrorEach(mid, gone, Unloaded), a, m);
    Silent(ErrorEach(mid, gone, Unloaded), DropQueued(mid, targets), a, m);
    FollowsTwice(s, ErrorEach(mid, gone, Unloaded), DropQueued(mid, targets), a, m);
    ThenDrained(cfg, env, s, DropQueued(mid, targets), a, m);
  }

  lemma ReturnFollows(cfg: Config, s: State, model: string, a: Option<string>, m: string)
    ensures Follows(s, HandlerReturned(cfg, s, model), a, m)
  {
    var t := if model in cfg.leaseAware then LeaseGivenBack(s, model) else s;
    GiveFollows(s, model, a, m);
    Silent(s, s, a, m);
    Silent(t, HandlerReturned(cfg, s, model), a, m);
    FollowsTwice(s, t, HandlerReturned(cfg, s, model), a, m);
  }

  /** Whatever happens, the leases are what the calls add up to; and while a swap goes
      on, nobody asks for a lease on a model it stops. */
  lemma EventFollows(cfg: Config, env: Env, s: State, e: Event, a: Option<string>, m: string)
    requires Inv(cfg, s) && (a.Some? ==> !Ends(e, a.value))
    ensures Follows(s, Step(cfg, env, s, e), a, m)
  {
    match e {
      case Request(req) => RequestFollows(cfg, env, s, req, a, m);
      case Cancel(req) => CancelFollows(s, req, a, m);
      case SwapDone(model, failed) => SwapDoneFollows(cfg, env, s, model, failed, a, m);
      case HandlerReturns(model) => ReturnFollows(cfg, s, model, a, m);
      case ServeDone(model) => ServeDoneFollows(cfg, env, s, model, a, m);
      case Unload(targets, order) => UnloadFollows(cfg, env, s, targets, order, a, m);
    }
  }
}
