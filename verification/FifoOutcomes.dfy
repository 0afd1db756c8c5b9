/** What each event comes to for the requests it concerns: waiters of a swap that ended,
    cancelled requests, requests for unloaded models, new requests, and those that a
    drain leaves queued. */
module FifoOutcomes {
  import opened Names
  import opened FifoSpec
  import opened FifoInvariant
  import opened FifoOrder
  import opened FifoQueue
  import opened FifoRuns
  import opened FifoAnswers

  // ------------------------------------------------------------- answers in the log

  /** A request that was closed once has no second answer. */
  lemma {:induction false} ClosesOnce(log: seq<Effect>, i: nat, j: nat)
    requires i < |log| && j < |log| && Closes(log[i]) && Closes(log[j]) && log[i].id == log[j].id && Closed(log)[log[i].id] <= 1
    ensures i == j
  {
    var k, id := |log| - 1, log[i].id;
    assert log == log[..k] + [log[k]];
    LogStep(log[..k], log[k]);
    if i < k && j < k {
      ClosesOnce(log[..k], i, j);
    } else if i < k {
      ClosedThen(log[..k], i);
    } else if j < k {
      ClosedThen(log[..k], j);
    }
  }

  lemma {:induction false} ClosedThen(log: seq<Effect>, i: nat)
    requires i < |log| && Closes(log[i])
    ensures Closed(log)[log[i].id] >= 1
  {
    var k := |log| - 1;
    if i < k {
      ClosedThen(log[..k], i);
    }
  }

  /** So whoever has been told one thing has been told nothing else. */
  lemma OneAnswer(cfg: Config, s: State, x: Effect, y: Effect)
    requires Inv(cfg, s) && x in s.log && y in s.log && Closes(x) && Closes(y) && x.id == y.id
    ensures x == y
  {
    var i :| 0 <= i < |s.log| && s.log[i] == x;
    var j :| 0 <= j < |s.log| && s.log[j] == y;
    ClosesOnce(s.log, i, j);
  }

  ghost predicate Grows(s: State, t: State) { s.log <= t.log }

  lemma GrowsHas(s: State, t: State, x: Effect)
    requires Grows(s, t) && x in s.log
    ensures x in t.log
  {
    var i :| 0 <= i < |s.log| && s.log[i] == x;
    assert t.log[i] == x;
  }

  lemma GrowsOne(s: State, t: State, x: Effect)
    requires t.log == s.log + [x]
    ensures Grows(s, t)
  {
  }

  lemma ServeGrows(cfg: Config, env: Env, s: State, r: Req, m: string)
    ensures Grows(s, GrantServe(cfg, env, s, r, m).s)
  {
    var asked := LeaseAskedFor(env, s, r.id, m);
    GrowsOne(s, asked, LeaseAsked(m, env.lends(r.id)));
    GrowsOne(asked, LeaseGivenBack(asked, m), LeaseReturned(m));
    GrowsOne(asked, Handed(asked, r, m), Served(r.id, m, Evictors(asked.active, m)));
    GrowsOne(s, Handed(s, r, m), Served(r.id, m, Evictors(s.active, m)));
  }

  lemma GrantGrows(cfg: Config, env: Env, s: State, r: Req, m: string)
    ensures Grows(s, GrantHandler(cfg, env, s, r, m))
  {
    ServeGrows(cfg, env, s, r, m);
    var g := GrantServe(cfg, env, s, r, m);
    if g.Missed? {
      GrowsOne(g.s, Log(Release(g.s, m), g.answer), g.answer);
    }
  }

  lemma DrainOneGrows(cfg: Config, env: Env, p: Pass, req: Req)
    ensures Grows(p.s, DrainOne(cfg, env, p, req).s)
  {
    DrainOneCases(cfg, env, p, req);
    GrantGrows(cfg, env, RecordResident(cfg, env, p.s, req.model), req, req.model);
    RecordSilent(cfg, env, p.s, req.model);
  }

  lemma {:induction false} DrainAllGrows(cfg: Config, env: Env, s: State, pending: seq<Req>)
    ensures Grows(s, DrainAll(cfg, env, s, pending).s)
  {
    if pending != [] {
      DrainAllGrows(cfg, env, s, pending[..|pending| - 1]);
      DrainOneGrows(cfg, env, DrainAll(cfg, env, s, pending[..|pending| - 1]), pending[|pending| - 1]);
    }
  }

  lemma DrainGrows(cfg: Config, env: Env, s: State)
    ensures Grows(s, Drain(cfg, env, s))
  {
    if s.queued != [] {
      DrainAllGrows(cfg, env, s, FairOrder(cfg, env, s));
    }
  }

  // --------------------------------------------------------------- when a swap is done

  /** The caller takes its handler and, where there are leases, is lent one. */
  ghost predicate Gets(cfg: Config, env: Env, m: string, id: nat)
  {
    env.receives(id) && (m in cfg.leaseAware ==> env.lends(id))
  }

  /** What the end of a swap tells one of its waiters. */
  ghost predicate Told(cfg: Config, env: Env, log: seq<Effect>, m: string, failed: bool, id: nat)
  {
    if failed then Errored(id, SwapFailed) in log
    else if Gets(cfg, env, m, id) then exists v :: Served(id, m, v) in log
    else Undelivered(id) in log || Refused(id) in log
  }

  lemma ToldStays(cfg: Config, env: Env, s: State, t: State, m: string, failed: bool, id: nat)
    requires Grows(s, t) && Told(cfg, env, s.log, m, failed, id)
    ensures Told(cfg, env, t.log, m, failed, id)
  {
    if failed {
      GrowsHas(s, t, Errored(id, SwapFailed));
    } else if Gets(cfg, env, m, id) {
      var v :| Served(id, m, v) in s.log;
      GrowsHas(s, t, Served(id, m, v));
    } else if Undelivered(id) in s.log {
      GrowsHas(s, t, Undelivered(id));
    } else {
      GrowsHas(s, t, Refused(id));
    }
  }

  lemma HandedTells(s: State, r: Req, m: string)
    ensures exists v :: Served(r.id, m, v) in Handed(s, r, m).log
  {
    var log := Handed(s, r, m).log;
    assert log[|s.log|] == Served(r.id, m, Evictors(s.active, m));
  }

  lemma GrantTells(cfg: Config, env: Env, s: State, r: Req, m: string)
    ensures
      var t := GrantHandler(cfg, env, s, r, m);
      && Told(cfg, env, t.log, m, false, r.id)
      && Get(t.inFlight, m) == Get(s.inFlight, m) + (if Gets(cfg, env, m, r.id) then 1 else 0)
      && forall q :: q != m ==> Get(t.inFlight, q) == Get(s.inFlight, q)
  {
    var t := GrantHandler(cfg, env, s, r, m);
    if Gets(cfg, env, m, r.id) {
      HandedTells(if m in cfg.leaseAware then LeaseAskedFor(env, s, r.id, m) else s, r, m);
    } else {
      assert t.log[|t.log| - 1] in t.log;
    }
  }

  /** Everybody who waited is told; only those who got a handler are in flight. */
  lemma {:induction false} GrantEachTells(cfg: Config, env: Env, s: State, ws: seq<Req>, m: string, failed: bool)
    ensures
      var t := GrantEach(cfg, env, s, ws, m, failed);
      && Grows(s, t) && (forall w :: w in ws ==> Told(cfg, env, t.log, m, failed, w.id))
      && Get(t.inFlight, m) == Get(s.inFlight, m) + (if failed then 0 else |Filter(ws, (w: Req) => Gets(cfg, env, m, w.id))|)
      && forall q :: q != m ==> Get(t.inFlight, q) == Get(s.inFlight, q)
  {
    if ws != [] {
      var k := |ws| - 1;
      var before, t := GrantEach(cfg, env, s, ws[..k], m, failed), GrantEach(cfg, env, s, ws, m, failed);
      GrantEachTells(cfg, env, s, ws[..k], m, failed);
      if failed {
        assert t.log[|before.log|] == Errored(ws[k].id, SwapFailed);
      } else {
        GrantGrows(cfg, env, before, ws[k], m);
        GrantTells(cfg, env, before, ws[k], m);
      }
      forall w | w in ws
        ensures Told(cfg, env, t.log, m, failed, w.id)
      {
        if w in ws[..k] {
          ToldStays(cfg, env, before, t, m, failed, w.id);
        }
      }
    }
  }

  /** When a swap is done each of its waiters is told exactly one thing: after a failure
      that the swap failed, after a success it is handed its handler if it takes it and
      is lent a lease where it needs one. A failed swap puts nothing in flight, a good one
      exactly those that were handed a handler; all before the queue is looked at. */
  lemma SwapDoneTells(cfg: Config, run: seq<Turn>, env: Env, m: string, failed: bool)
    requires cfg.Valid() && Legal(cfg, run) && m in After(cfg, run).active
    ensures
      var s := After(cfg, run);
      var d, t := Drained(cfg, env, s, SwapDone(m, failed)), Step(cfg, env, s, SwapDone(m, failed));
      && d.Some? && Grows(d.value, t)
      && (forall w :: w in s.active[m].waiters ==>
            && Told(cfg, env, d.value.log, m, failed, w.id)
            && (failed ==> forall q, v :: Served(w.id, q, v) !in t.log)
            && (!failed ==> forall f :: Errored(w.id, f) !in t.log))
      && Get(d.value.inFlight, m) ==
           Get(s.inFlight, m) + (if failed then 0 else |Filter(s.active[m].waiters, (w: Req) => Gets(cfg, env, m, w.id))|)
      && forall q :: q != m ==> Get(d.value.inFlight, q) == Get(s.inFlight, q)
  {
    var s, ws := After(cfg, run), After(cfg, run).active[m].waiters;
    var detached := s.(active := s.active - {m});
    var d, t := GrantEach(cfg, env, detached, ws, m, failed), Step(cfg, env, s, SwapDone(m, failed));
    GrantEachTells(cfg, env, detached, ws, m, failed);
    DrainGrows(cfg, env, d);
    RunsKeepInvariant(cfg, run);
    EventKeepsInvariant(cfg, env, s, SwapDone(m, failed));
    forall w | w in ws
      ensures failed ==> forall q, v :: Served(w.id, q, v) !in t.log
      ensures !failed ==> forall f :: Errored(w.id, f) !in t.log
    {
      OnlyTold(cfg, env, d, t, m, failed, w.id);
    }
  }

  lemma OnlyTold(cfg: Config, env: Env, d: State, t: State, m: string, failed: bool, id: nat)
    requires Inv(cfg, t) && Grows(d, t) && Told(cfg, env, d.log, m, failed, id)
    ensures failed ==> forall q, v :: Served(id, q, v) !in t.log
    ensures !failed ==> forall f :: Errored(id, f) !in t.log
  {
    ToldStays(cfg, env, d, t, m, failed, id);
    if failed {
      forall q, v | Served(id, q, v) in t.log
        ensures false
      {
        OneAnswer(cfg, t, Errored(id, SwapFailed), Served(id, q, v));
      }
    } else {
      forall f | Errored(id, f) in t.log
        ensures false
      {
        if v :| Served(id, m, v) in t.log {
          OneAnswer(cfg, t, Served(id, m, v), Errored(id, f));
        } else if Undelivered(id) in t.log {
          OneAnswer(cfg, t, Undelivered(id), Errored(id, f));
        } else {
          OneAnswer(cfg, t, Refused(id), Errored(id, f));
        }
      }
    }
  }

  // ------------------------------------------------------------------- cancellations

  lemma {:induction false} CancelEachTells(s: State, reqs: seq<Req>)
    ensures Grows(s, CancelEach(s, reqs)) && forall r :: r in reqs ==> Cancelled(r.id) in CancelEach(s, reqs).log
    ensures CancelEach(s, reqs).active == s.active && CancelEach(s, reqs).queued == s.queued
    ensures CancelEach(s, reqs).inFlight == s.inFlight
  {
    if reqs != [] {
      var k := |reqs| - 1;
      var before, t := CancelEach(s, reqs[..k]), CancelEach(s, reqs);
      CancelEachTells(s, reqs[..k]);
      GrowsOne(before, t, Cancelled(reqs[k].id));
      assert t.log[|before.log|] == Cancelled(reqs[k].id);
      forall r | r in reqs
        ensures Cancelled(r.id) in t.log
      {
        if r in reqs[..k] {
          GrowsHas(before, t, Cancelled(r.id));
        }
      }
    }
  }

  /** The requests of `kept` are those of `was` but this one, in their order. */
  ghost predicate Without(was: seq<Req>, kept: seq<Req>, id: nat)
  {
    && (forall r :: r in kept <==> r in was && r.id != id)
    && forall r, q :: Ahead(kept, r, q) ==> Ahead(was, r, q)
  }

  ghost predicate Ahead(reqs: seq<Req>, r: Req, q: Req)
  {
    exists i, j :: 0 <= i < j < |reqs| && reqs[i] == r && reqs[j] == q
  }

  lemma {:induction false} LacksWithout(was: seq<Req>, id: nat)
    ensures Without(was, Filter(was, LacksId(id)), id)
  {
    FilterMembers(was, LacksId(id));
    forall r, q | Ahead(Filter(was, LacksId(id)), r, q)
      ensures Ahead(was, r, q)
    {
      FilterAhead(was, LacksId(id), r, q);
    }
  }

  lemma {:induction false} FilterAhead(was: seq<Req>, keep: Req -> bool, r: Req, q: Req)
    requires Ahead(Filter(was, keep), r, q)
    ensures Ahead(was, r, q)
  {
    var k := |was| - 1;
    var kept, before := Filter(was, keep), Filter(was[..k], keep);
    var i, j :| 0 <= i < j < |kept| && kept[i] == r && kept[j] == q;
    if j < |before| {
      assert before[i] == r && before[j] == q;
      FilterAhead(was[..k], keep, r, q);
      var a, b :| 0 <= a < b < k && was[..k][a] == r && was[..k][b] == q;
      assert was[a] == r && was[b] == q;
    } else {
      FilterMembers(was[..k], keep);
      assert before[i] == r && was[k] == q && r in before;
      var a :| 0 <= a < k && was[..k][a] == r;
      assert was[a] == r;
    }
  }

  /** A cancelled request is gone from the queue and from every swap, and told off if it
      was there; all others stay where they were, in their order, and no swap and no
      request in flight is touched. */
  lemma CancelTells(cfg: Config, run: seq<Turn>, req: Req)
    requires cfg.Valid() && Legal(cfg, run) && Enabled(After(cfg, run), Cancel(req))
    ensures
      var s, t := After(cfg, run), OnCancel(After(cfg, run), req);
      && Without(s.queued, t.queued, req.id) && t.active.Keys == s.active.Keys && t.inFlight == s.inFlight
      && (forall m :: m in s.active ==>
            t.active[m].evict == s.active[m].evict && Without(s.active[m].waiters, t.active[m].waiters, req.id))
      && (((exists r :: r in s.queued && r.id == req.id) || exists m :: WaitsFor(s, m, req.id)) ==> Cancelled(req.id) in t.log)
  {
    RunsKeepInvariant(cfg, run);
    CancelReaches(cfg, After(cfg, run), req);
    var s := After(cfg, run);
    if (exists r :: r in s.queued && r.id == req.id) || exists m :: WaitsFor(s, m, req.id) {
      CancelIsNoted(cfg, s, req);
    }
  }

  /** Only the swap of its own model can hold the request. */
  lemma OthersLackIt(cfg: Config, s: State, req: Req)
    requires Inv(cfg, s) && Enabled(s, Cancel(req))
    ensures forall m :: m in s.active && m != req.model ==>
      Without(s.active[m].waiters, s.active[m].waiters, req.id) && !WaitsFor(s, m, req.id)
  {
    forall m | m in s.active && m != req.model
      ensures Without(s.active[m].waiters, s.active[m].waiters, req.id) && !WaitsFor(s, m, req.id)
    {
      WaitsOnOwnSwap(cfg, s, req, m);
      LacksWithout(s.active[m].waiters, req.id);
    }
  }

  lemma CancelQueuedTells(s: State, id: nat)
    ensures
      var t := CancelQueued(s, id);
      && Without(s.queued, t.queued, id) && t.queued == Filter(s.queued, LacksId(id))
      && t.active == s.active && t.inFlight == s.inFlight
      && ((exists r :: r in s.queued && r.id == id) ==> Cancelled(id) in t.log)
  {
    CancelEachTells(s, Filter(s.queued, HasId(id)));
    FilterMembers(s.queued, HasId(id));
    LacksWithout(s.queued, id);
  }

  lemma CancelReaches(cfg: Config, s: State, req: Req)
    requires Inv(cfg, s) && Enabled(s, Cancel(req))
    ensures
      var t := OnCancel(s, req);
      && Without(s.queued, t.queued, req.id) && t.active.Keys == s.active.Keys && t.inFlight == s.inFlight
      && (forall m :: m in s.active ==>
            t.active[m].evict == s.active[m].evict && Without(s.active[m].waiters, t.active[m].waiters, req.id))
  {
    CancelQueuedTells(s, req.id);
    OthersLackIt(cfg, s, req);
    if req.model in s.active {
      CancelWaitingTells(s, CancelQueued(s, req.id), req);
    }
  }

  lemma CancelIsNoted(cfg: Config, s: State, req: Req)
    requires Inv(cfg, s) && Enabled(s, Cancel(req))
    requires (exists r :: r in s.queued && r.id == req.id) || exists m :: WaitsFor(s, m, req.id)
    ensures Cancelled(req.id) in OnCancel(s, req).log
  {
    CancelQueuedTells(s, req.id);
    OthersLackIt(cfg, s, req);
    if req.model in s.active {
      CancelWaitingTells(s, CancelQueued(s, req.id), req);
    }
  }

  lemma CancelWaitingTells(s: State, mid: State, req: Req)
    requires req.model in s.active && mid.active == s.active && mid.queued == Filter(s.queued, LacksId(req.id))
    ensures
      var t := CancelWaiting(mid, req);
      && t.queued == mid.queued && t.inFlight == mid.inFlight && Grows(mid, t) && t.active.Keys == s.active.Keys
      && (forall m :: m in s.active && m != req.model ==> t.active[m] == s.active[m])
      && t.active[req.model].evict == s.active[req.model].evict
      && Without(s.active[req.model].waiters, t.active[req.model].waiters, req.id)
      && (WaitsFor(s, req.model, req.id) ==> Cancelled(req.id) in t.log)
      && (Cancelled(req.id) in mid.log ==> Cancelled(req.id) in t.log)
  {
    var ws, t := mid.active[req.model].waiters, CancelWaiting(mid, req);
    CancelEachTells(mid, Filter(ws, HasId(req.id)));
    FilterMembers(ws, HasId(req.id));
    LacksWithout(ws, req.id);
    if Cancelled(req.id) in mid.log {
      GrowsHas(mid, t, Cancelled(req.id));
    }
  }

  // ------------------------------------------------------------------------- unloads

  lemma {:induction false} ErrorEachTells(s: State, reqs: seq<Req>)
    ensures Grows(s, ErrorEach(s, reqs, Unloaded)) && ErrorEach(s, reqs, Unloaded).inFlight == s.inFlight
    ensures forall r :: r in reqs ==> Errored(r.id, Unloaded) in ErrorEach(s, reqs, Unloaded).log
  {
    if reqs != [] {
      var k := |reqs| - 1;
      var before, t := ErrorEach(s, reqs[..k], Unloaded), ErrorEach(s, reqs, Unloaded);
      ErrorEachTells(s, reqs[..k]);
      GrowsOne(before, t, Errored(reqs[k].id, Unloaded));
      assert t.log[|before.log|] == Errored(reqs[k].id, Unloaded);
      forall r | r in reqs
        ensures Errored(r.id, Unloaded) in t.log
      {
        if r in reqs[..k] {
          GrowsHas(before, t, Errored(r.id, Unloaded));
        }
      }
    }
  }

  lemma {:induction false} DropSwapsTells(s: State, order: seq<string>)
    ensures
      var t := DropSwaps(s, order);
      && Grows(s, t) && t.inFlight == s.inFlight
      && forall m, w :: m in order && m in s.active && w in s.active[m].waiters ==> Errored(w.id, Unloaded) in t.log
  {
    if order != [] {
      var before, last := order[..|order| - 1], order[|order| - 1];
      assert order == before + [last];
      DropSwapsTells(s, before);
      DropsOnly(s, before);
      var mid, t := DropSwaps(s, before), DropSwaps(s, order);
      if last in mid.active {
        ErrorEachTells(mid.(active := mid.active - {last}), mid.active[last].waiters);
      }
      forall m, w | m in order && m in s.active && w in s.active[m].waiters
        ensures Errored(w.id, Unloaded) in t.log
      {
        if m in before {
          GrowsHas(mid, t, Errored(w.id, Unloaded));
        }
      }
    }
  }

  /** The models a drain swaps in were queued for. */
  lemma DrainedSwaps(cfg: Config, env: Env, d: State)
    requires cfg.Valid()
    ensures
      var t := Drain(cfg, env, d);
      && (forall r :: r in t.queued ==> r in d.queued)
      && forall a :: a in t.active ==> a in d.active || exists r :: r in d.queued && r.model == a
  {
    if d.queued != [] {
      var pending := FairOrder(cfg, env, d);
      FairOrderWithin(cfg, env, d);
      DrainAllAdds(cfg, env, d, HandlerReturns(""), d, pending);
      DrainAllLeaves(cfg, env, d, pending);
    }
  }

  /** After an unload nothing waits for an unloaded model: no swap is under way for it and
      no request is queued; all that did wait were told so, and nothing in flight was
      touched before the queue was looked at. */
  lemma UnloadTells(cfg: Config, run: seq<Turn>, turn: Turn, m: string)
    requires cfg.Valid() && Legal(cfg, run) && turn.event.Unload? && Enabled(After(cfg, run), turn.event) && m in turn.event.targets
    ensures
      var s, t := After(cfg, run), Step(cfg, turn.env, After(cfg, run), turn.event);
      && m !in t.active && (forall r :: r in t.queued ==> r.model != m)
      && (forall id :: WaitsFor(s, m, id) || AsksFor(s, turn.event, m, id) ==> Errored(id, Unloaded) in t.log)
      && Drained(cfg, turn.env, s, turn.event).value.inFlight == s.inFlight
  {
    var s, targets, order := After(cfg, run), turn.event.targets, turn.event.order;
    var mid := DropSwaps(s, order);
    var gone, d := Filter(mid.queued, Targeted(targets)), DropQueued(mid, targets);
    DropSwapsTells(s, order);
    DropsOnly(s, order);
    DropSwapsFrame(s, order);
    ErrorEachTells(mid, gone);
    ErrorKeepsSwaps(mid, gone);
    FilterMembers(mid.queued, Targeted(targets));
    FilterMembers(mid.queued, Untargeted(targets));
    DrainedSwaps(cfg, turn.env, d);
    DrainGrows(cfg, turn.env, d);
    assert m in Elements(order);
    forall id | WaitsFor(s, m, id) || AsksFor(s, turn.event, m, id)
      ensures Errored(id, Unloaded) in Drain(cfg, turn.env, d).log
    {
      if WaitsFor(s, m, id) {
        GrowsHas(mid, d, Errored(id, Unloaded));
      }
      GrowsHas(d, Drain(cfg, turn.env, d), Errored(id, Unloaded));
    }
  }
}
