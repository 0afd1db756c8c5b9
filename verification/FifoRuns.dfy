/** Every event keeps the scheduler's invariant, so every reachable state has it:
    safety, conservation, no lost wake-up, queue order and bounded overtaking. */
module FifoRuns {
  import opened Names
  import opened FifoSpec
  import opened FifoInvariant
  import opened FifoOrder

  // ----------------------------------------------------------- several requests

  lemma {:induction false} DistinctFromHeld(reqs: seq<Req>)
    requires DistinctIds(reqs)
    ensures |Elements(reqs)| == |reqs|
    ensures forall r, t :: r in reqs && t in reqs && r.id == t.id ==> r == t
  {
    if reqs != [] {
      var k := |reqs| - 1;
      assert reqs == reqs[..k] + [reqs[k]];
      DistinctFromHeld(reqs[..k]);
      assert Elements(reqs) == Elements(reqs[..k]) + {reqs[k]};
      assert reqs[k] !in reqs[..k];
    }
  }

  /** The same requests in another order still have distinct ids. */
  lemma PermutedIds(a: seq<Req>, b: seq<Req>)
    requires DistinctIds(a) && multiset(a) == multiset(b)
    ensures DistinctIds(b) && Elements(a) == Elements(b)
  {
    assert forall r :: r in a <==> r in multiset(a);
    assert forall r :: r in b <==> r in multiset(b);
    DistinctFromHeld(a);
    forall i, j | 0 <= i < j < |b|
      ensures b[i].id != b[j].id
    {
      if b[i].id == b[j].id {
        assert b[i] in a && b[j] in a;
        assert b[i] == b[j];
        var x := b[i];
        TwiceIn(b, i, j);
        OnceIn(a, x);
        assert false;
      }
    }
  }

  lemma TwiceIn(b: seq<Req>, i: nat, j: nat)
    requires i < j < |b| && b[i] == b[j]
    ensures multiset(b)[b[i]] >= 2
  {
    assert b == b[..j] + b[j..];
    assert b[i] in b[..j] && b[j] == b[j..][0];
  }

  lemma {:induction false} OnceIn(a: seq<Req>, x: Req)
    requires DistinctIds(a)
    ensures multiset(a)[x] <= 1
  {
    if a != [] {
      var k := |a| - 1;
      assert a == a[..k] + [a[k]];
      OnceIn(a[..k], x);
      if a[k] == x {
        assert x !in a[..k];
      }
    }
  }

  lemma {:induction false} FilterDistinct(reqs: seq<Req>, keep: Req -> bool)
    requires DistinctIds(reqs)
    ensures DistinctIds(Filter(reqs, keep))
  {
    if reqs != [] {
      var k := |reqs| - 1;
      FilterDistinct(reqs[..k], keep);
      FilterMembers(reqs[..k], keep);
      var f := Filter(reqs[..k], keep);
      forall i | 0 <= i < |f|
        ensures f[i].id != reqs[k].id
      {
        assert f[i] in f;
        var j :| 0 <= j < k && reqs[j] == f[i];
      }
    }
  }

  /** All requests of a list leave with the same kind of answer. */
  lemma {:induction false} ErrorEachHeld(cfg: Config, s: State, held: set<Req>, reqs: seq<Req>, failure: Failure)
    requires Holds(cfg, s, held) && DistinctIds(reqs) && Elements(reqs) <= held
    ensures
      var t := ErrorEach(s, reqs, failure);
      && Holds(cfg, t, held - Elements(reqs))
      && t.active == s.active && t.inFlight == s.inFlight && t.queued == s.queued && t.bursts == s.bursts
  {
    if reqs == [] {
      assert held - Elements(reqs) == held;
    } else {
      var before, r := reqs[..|reqs| - 1], reqs[|reqs| - 1];
      SplitLast(reqs);
      ErrorEachHeld(cfg, s, held, before, failure);
      var rest := held - Elements(before);
      assert r in rest && held - Elements(reqs) == rest - {r};
      CloseHeld(cfg, ErrorEach(s, before, failure), rest, r, Errored(r.id, failure));
    }
  }

  lemma SplitLast(reqs: seq<Req>)
    requires reqs != [] && DistinctIds(reqs)
    ensures var k := |reqs| - 1;
      Elements(reqs) == Elements(reqs[..k]) + {reqs[k]} && reqs[k] !in reqs[..k] && DistinctIds(reqs[..k])
  {
    var k := |reqs| - 1;
    assert reqs == reqs[..k] + [reqs[k]];
  }

  lemma {:induction false} CancelEachHeld(cfg: Config, s: State, held: set<Req>, reqs: seq<Req>)
    requires Holds(cfg, s, held) && DistinctIds(reqs) && Elements(reqs) <= held
    ensures
      var t := CancelEach(s, reqs);
      && Holds(cfg, t, held - Elements(reqs))
      && t.active == s.active && t.inFlight == s.inFlight && t.queued == s.queued && t.bursts == s.bursts
  {
    if reqs == [] {
      assert held - Elements(reqs) == held;
    } else {
      var before, r := reqs[..|reqs| - 1], reqs[|reqs| - 1];
      SplitLast(reqs);
      CancelEachHeld(cfg, s, held, before);
      var rest := held - Elements(before);
      assert r in rest && held - Elements(reqs) == rest - {r};
      CloseHeld(cfg, CancelEach(s, before), rest, r, Cancelled(r.id));
    }
  }

  ghost predicate AllFor(reqs: seq<Req>, model: string)
  {
    forall i :: 0 <= i < |reqs| ==> reqs[i].model == model
  }

  lemma {:induction false} GrantEachHeld(cfg: Config, env: Env, s: State, held: set<Req>, reqs: seq<Req>,
      model: string, failed: bool)
    requires Holds(cfg, s, held) && DistinctIds(reqs) && Elements(reqs) <= held
    requires AllFor(reqs, model) && Evictors(s.active, model) == {}
    ensures
      var t := GrantEach(cfg, env, s, reqs, model, failed);
      && Holds(cfg, t, held - Elements(reqs))
      && t.active == s.active && t.queued == s.queued && s.inFlight.Keys <= t.inFlight.Keys
  {
    if reqs == [] {
      assert held - Elements(reqs) == held;
    } else {
      var k := |reqs| - 1;
      var before, r := reqs[..k], reqs[k];
      SplitLast(reqs);
      GrantEachHeld(cfg, env, s, held, before, model, failed);
      var mid, rest := GrantEach(cfg, env, s, before, model, failed), held - Elements(before);
      assert r in rest;
      GrantOneHeld(cfg, env, mid, rest, r, failed);
      assert held - Elements(reqs) == rest - {r};
    }
  }

  lemma GrantOneHeld(cfg: Config, env: Env, s: State, held: set<Req>, r: Req, failed: bool)
    requires Holds(cfg, s, held) && r in held && Evictors(s.active, r.model) == {}
    ensures
      var t := if failed then GrantError(s, r, SwapFailed) else GrantHandler(cfg, env, s, r, r.model);
      && Holds(cfg, t, held - {r})
      && t.active == s.active && t.queued == s.queued && s.inFlight.Keys <= t.inFlight.Keys
  {
    if failed {
      CloseHeld(cfg, s, held, r, Errored(r.id, SwapFailed));
    } else {
      GrantHeld(cfg, env, s, held, r);
    }
  }

  // ------------------------------------------------------------------------ drain

  /** A held request of a resident model nobody is stopping is counted as resident and
      granted its handler. */
  lemma ResidentHeld(cfg: Config, env: Env, s: State, held: set<Req>, req: Req)
    requires Holds(cfg, s, held) && req in held && req.model !in s.active && !Collides(req.model, [], s.active)
    ensures
      var t := ResidentServed(cfg, env, s, req);
      && Holds(cfg, t, held - {req})
      && t.active == s.active && s.inFlight.Keys <= t.inFlight.Keys && t.queued == s.queued
  {
    var noted := RecordResident(cfg, env, s, req.model);
    AsideFree(cfg, s, held, noted);
    NoEvictors(s.active, req.model, []);
    GrantHeld(cfg, env, noted, held, req);
  }

  lemma DrainOneHeld(cfg: Config, env: Env, p: Pass, held: set<Req>, req: Req)
    requires Holds(cfg, p.s, held) && req in held
    ensures
      var n := DrainOne(cfg, env, p, req);
      && n.s.queued == p.s.queued && (Busy(p.s) ==> Busy(n.s))
      && if n.remaining == p.remaining then Holds(cfg, n.s, held - {req})
         else n.remaining == p.remaining + [req] && n.s == p.s && Busy(p.s)
  {
    var s, evict := p.s, Evictions(env, p.s.active, req.model);
    if req.model !in env.states {
      CloseHeld(cfg, s, held, req, Errored(req.id, ModelNotFound));
    } else if req.model in s.active {
      JoinHeld(cfg, s, held, req);
    } else if env.IsReady(req.model) && evict == [] && !Collides(req.model, evict, s.active) {
      ResidentHeld(cfg, env, s, held, req);
    } else if Collides(req.model, evict, s.active) {
      var id :| id in s.active && CollidesWithOne(req.model, evict, id, s.active[id]);
    } else if Conflicts(evict, s.inFlight) {
      var i :| 0 <= i < |evict| && Get(s.inFlight, evict[i]) > 0;
      assert evict[i] in s.inFlight;
    } else {
      StartHeld(cfg, s, held, req, evict);
    }
  }

  lemma {:induction false} DrainAllHeld(cfg: Config, env: Env, s: State, held: set<Req>, pending: seq<Req>)
    requires Holds(cfg, s, held) && DistinctIds(pending) && Elements(pending) <= held
    ensures
      var p := DrainAll(cfg, env, s, pending);
      && Holds(cfg, p.s, held - Elements(pending) + Elements(p.remaining))
      && Elements(p.remaining) <= Elements(pending) && DistinctIds(p.remaining)
      && p.s.queued == s.queued && (p.remaining != [] ==> Busy(p.s)) && (Busy(s) ==> Busy(p.s))
  {
    if pending == [] {
      assert held - Elements(pending) + Elements([]) == held;
    } else {
      var k := |pending| - 1;
      SplitLast(pending);
      DrainAllHeld(cfg, env, s, held, pending[..k]);
      var p := DrainAll(cfg, env, s, pending[..k]);
      DrainStepHeld(cfg, env, p, held, pending);
    }
  }

  lemma DrainStepHeld(cfg: Config, env: Env, p: Pass, held: set<Req>, pending: seq<Req>)
    requires pending != [] && DistinctIds(pending) && Elements(pending) <= held && DistinctIds(p.remaining)
    requires Elements(p.remaining) <= Elements(pending[..|pending| - 1])
    requires Holds(cfg, p.s, held - Elements(pending[..|pending| - 1]) + Elements(p.remaining))
    requires p.remaining != [] ==> Busy(p.s)
    ensures
      var n := DrainOne(cfg, env, p, pending[|pending| - 1]);
      && Holds(cfg, n.s, held - Elements(pending) + Elements(n.remaining))
      && Elements(n.remaining) <= Elements(pending) && DistinctIds(n.remaining)
      && n.s.queued == p.s.queued && (n.remaining != [] ==> Busy(n.s)) && (Busy(p.s) ==> Busy(n.s))
  {
    var k := |pending| - 1;
    var req := pending[k];
    SplitLast(pending);
    var mid := held - Elements(pending[..k]) + Elements(p.remaining);
    assert req !in p.remaining by {
      assert req !in Elements(pending[..k]);
    }
    DrainOneHeld(cfg, env, p, mid, req);
    var n := DrainOne(cfg, env, p, req);
    if n.remaining == p.remaining {
      assert held - Elements(pending) + Elements(n.remaining) == mid - {req};
    } else {
      assert Elements(n.remaining) == Elements(p.remaining) + {req};
      assert held - Elements(pending) + Elements(n.remaining) == mid;
      assert pending == pending[..k] + [req];
      AppendDistinct(p.remaining, req, pending[..k], pending);
    }
  }

  lemma AppendDistinct(remaining: seq<Req>, r: Req, before: seq<Req>, pending: seq<Req>)
    requires DistinctIds(remaining) && DistinctIds(pending) && pending == before + [r]
    requires Elements(remaining) <= Elements(before)
    ensures DistinctIds(remaining + [r])
  {
    forall i | 0 <= i < |remaining|
      ensures remaining[i].id != r.id
    {
      assert remaining[i] in Elements(remaining);
      var j :| 0 <= j < |before| && before[j] == remaining[i];
      assert pending[j] == before[j] && pending[|before|] == r;
    }
  }

  /** A drain restores the whole invariant, including that whoever stays queued
      waits for something. */
  lemma DrainKeeps(cfg: Config, env: Env, s: State)
    requires cfg.Valid() && Holds(cfg, s, Elements(s.queued)) && DistinctIds(s.queued)
    ensures Inv(cfg, Drain(cfg, env, s))
  {
    if s.queued != [] {
      FairOrderPermutes(cfg, env, s);
      var pending := FairOrder(cfg, env, s);
      PermutedIds(s.queued, pending);
      DrainAllHeld(cfg, env, s, Elements(pending), pending);
      var p := DrainAll(cfg, env, s, pending);
      assert Elements(pending) - Elements(pending) + Elements(p.remaining) == Elements(p.remaining);
      AsideFree(cfg, p.s, Elements(p.remaining), p.s.(queued := p.remaining));
    }
  }

  // ----------------------------------------------------------------------- events

  ghost predicate Newest(log: seq<Effect>, id: nat)
  {
    forall x :: x in AdmittedIn(log) ==> x < id
  }

  /** What the environment may do: a new request has a fresh arrival number, a
      cancel names a request by its own model, a handler that returns was running, one
      that reports has returned, and an unload names some model and walks the set of
      its targets in some order. */
  ghost predicate Enabled(s: State, e: Event)
  {
    match e
    case Request(req) => Newest(s.log, req.id) && req.queuedAt == 0
    case Cancel(req) => req.id in AdmittedIn(s.log) ==> AdmittedIn(s.log)[req.id] == req.model
    case SwapDone(_, _) => true
    case HandlerReturns(model) => Get(s.serving, model) > 0
    case ServeDone(model) => Get(s.finishing, model) > 0
    case Unload(targets, order) => targets != [] && Elements(order) == Elements(targets)
  }

  lemma EnqueueKeeps(cfg: Config, env: Env, s: State, req: Req)
    requires Holds(cfg, s, Elements(s.queued) + {req}) && req !in s.queued && DistinctIds(s.queued) && Busy(s)
    ensures Inv(cfg, Enqueue(cfg, env, s, req))
  {
    var i := QueuePlace(cfg, s.queued, cfg.Priority(req.model));
    var stamped, held := Stamped(env, req), Elements(s.queued) + {req};
    var t := Enqueue(cfg, env, s, req);
    StampHeld(cfg, s, held, req, stamped);
    assert held - {req} == Elements(s.queued);
    assert s.queued == s.queued[..i] + s.queued[i..];
    assert Elements(t.queued) == held - {req} + {stamped};
    AsideFree(cfg, s, Elements(t.queued), t);
    forall a, b | 0 <= a < b < |t.queued|
      ensures t.queued[a].id != t.queued[b].id
    {
      InsertedPlace(s.queued, i, stamped, a);
      InsertedPlace(s.queued, i, stamped, b);
      assert forall r :: r in s.queued ==> r in held && r.id != req.id by {
        forall r | r in s.queued
          ensures r in held && r.id != req.id
        {
          assert r in held && req in held && r != req;
        }
      }
    }
  }

  lemma InsertedPlace(queue: seq<Req>, i: nat, r: Req, a: nat)
    requires i <= |queue| && a <= |queue|
    ensures var q := queue[..i] + [r] + queue[i..];
      q[a] == if a < i then queue[a] else if a == i then r else queue[a - 1]
  {}

  lemma RequestKeeps(cfg: Config, env: Env, s: State, req: Req)
    requires Inv(cfg, s) && Enabled(s, Request(req))
    ensures Inv(cfg, OnRequest(cfg, env, s, req))
  {
    if req.model !in env.states {
      RejectKeeps(cfg, s, req.id, ModelNotFound);
    } else if Get(s.reserved, req.model) >= cfg.Limit(req.model) {
      RejectKeeps(cfg, s, req.id, LimitReached);
    } else if env.listening(req.id) {
      AdmitHeld(cfg, s, Elements(s.queued), req);
      DecideKeeps(cfg, env, Admit(s, req), req);
    }
  }

  lemma RejectKeeps(cfg: Config, s: State, id: nat, failure: Failure)
    requires Inv(cfg, s)
    ensures Inv(cfg, Log(s, Rejected(id, failure)))
  {
    NeutralLog(cfg, s, Elements(s.queued), Rejected(id, failure));
  }

  lemma DecideKeeps(cfg: Config, env: Env, s: State, req: Req)
    requires Holds(cfg, s, Elements(s.queued) + {req}) && req !in s.queued && DistinctIds(s.queued)
    requires s.queued != [] ==> Busy(s)
    ensures Inv(cfg, Decide(cfg, env, s, req))
  {
    var held, evict := Elements(s.queued) + {req}, Evictions(env, s.active, req.model);
    assert held - {req} == Elements(s.queued);
    if req.model in s.active {
      JoinHeld(cfg, s, held, req);
    } else if env.IsReady(req.model) && evict == [] && !Collides(req.model, evict, s.active) {
      if ShouldYield(cfg, env, s, req.model) {
        EnqueueKeeps(cfg, env, s, req);
      } else {
        FastPathKeeps(cfg, env, s, req);
      }
    } else if Collides(req.model, evict, s.active) {
      var id :| id in s.active && CollidesWithOne(req.model, evict, id, s.active[id]);
      EnqueueKeeps(cfg, env, s, req);
    } else if Conflicts(evict, s.inFlight) {
      var i :| 0 <= i < |evict| && Get(s.inFlight, evict[i]) > 0;
      assert evict[i] in s.inFlight;
      EnqueueKeeps(cfg, env, s, req);
    } else {
      StartHeld(cfg, s, held, req, evict);
    }
  }

  lemma FastPathKeeps(cfg: Config, env: Env, s: State, req: Req)
    requires Holds(cfg, s, Elements(s.queued) + {req}) && req !in s.queued && DistinctIds(s.queued)
    requires s.queued != [] ==> Busy(s)
    requires req.model !in s.active && !Collides(req.model, [], s.active)
    ensures Inv(cfg, ServedAtOnce(cfg, env, s, req))
  {
    var held, e := Elements(s.queued) + {req}, FastPath(req.id, req.model, ColdWaits(cfg, env, s, req.model));
    assert held - {req} == Elements(s.queued);
    var noted := Log(s, e);
    NeutralLog(cfg, s, held, e);
    ResidentHeld(cfg, env, noted, held, req);
  }

  /** Pulling the selected waiters of one swap into hand. */
  lemma PullHeld(cfg: Config, s: State, held: set<Req>, model: string, keep: Req -> bool, pull: Req -> bool)
    requires Holds(cfg, s, held) && model in s.active
    requires forall r :: keep(r) != pull(r)
    ensures
      var swap := s.active[model];
      var pulled := Filter(swap.waiters, pull);
      var t := s.(active := s.active[model := swap.(waiters := Filter(swap.waiters, keep))]);
      && Holds(cfg, t, held + Elements(pulled)) && DistinctIds(pulled) && Elements(pulled) !! held
  {
    var swap := s.active[model];
    var kept, pulled := Filter(swap.waiters, keep), Filter(swap.waiters, pull);
    var t := s.(active := s.active[model := swap.(waiters := kept)]);
    FilterMembers(swap.waiters, keep);
    FilterMembers(swap.waiters, pull);
    assert WaitingOk(s.log, held, model, swap.waiters);
    FilterDistinct(swap.waiters, keep);
    FilterDistinct(swap.waiters, pull);
    SplitSizes(swap.waiters, keep, pull);
    forall w | w in Elements(pulled)
      ensures w !in held
    {
      assert !HasRequest(held, w.id);
    }
    DistinctSize(pulled, model);
    PullBalanced(cfg, s, held, model, t, pulled);
    PullPlaced(s, held, model, t, kept, pulled);
    SameEvictsSafe(s, t);
    MeteredReads(cfg, s, t);
  }

  lemma MeteredReads(cfg: Config, s: State, t: State)
    requires Metered(cfg, s)
    requires t.inFlight == s.inFlight && t.leases == s.leases && t.serving == s.serving && t.finishing == s.finishing
    ensures Metered(cfg, t)
  {
    forall m
      ensures MeteredFor(cfg, t, m)
    {
      assert MeteredFor(cfg, s, m);
    }
  }

  lemma {:induction false} SplitSizes(reqs: seq<Req>, keep: Req -> bool, pull: Req -> bool)
    requires forall r :: keep(r) != pull(r)
    ensures |Filter(reqs, keep)| + |Filter(reqs, pull)| == |reqs|
  {
    if reqs != [] {
      SplitSizes(reqs[..|reqs| - 1], keep, pull);
    }
  }

  lemma PullBalanced(cfg: Config, s: State, held: set<Req>, model: string, t: State, pulled: seq<Req>)
    requires Balanced(cfg, s, held) && model in s.active && t == s.(active := t.active)
    requires t.active.Keys == s.active.Keys && forall m :: m in s.active && m != model ==> t.active[m] == s.active[m]
    requires |t.active[model].waiters| + |pulled| == |s.active[model].waiters|
    requires |Elements(pulled)| == |pulled| && Elements(pulled) !! held && forall w :: w in pulled ==> w.model == model
    ensures Balanced(cfg, t, held + Elements(pulled))
  {
    var all := held + Elements(pulled);
    forall m
      ensures BalancedFor(cfg, t, all, m)
    {
      assert BalancedFor(cfg, s, held, m);
      if m == model {
        assert OfModel(all, m) == OfModel(held, m) + Elements(pulled) && OfModel(held, m) !! Elements(pulled);
      } else {
        assert OfModel(all, m) == OfModel(held, m);
      }
    }
  }

  lemma PullPlaced(s: State, held: set<Req>, model: string, t: State, kept: seq<Req>, pulled: seq<Req>)
    requires Placed(s, held) && model in s.active && DistinctIds(kept)
    requires t == s.(active := s.active[model := s.active[model].(waiters := kept)])
    requires forall w :: w in s.active[model].waiters <==> w in kept || w in pulled
    requires forall w :: !(w in kept && w in pulled)
    ensures Placed(t, held + Elements(pulled))
  {
    var ws, all := s.active[model].waiters, held + Elements(pulled);
    assert WaitingOk(s.log, held, model, ws);
    DistinctFromHeld(ws);
    forall m | m in t.active
      ensures WaitingOk(t.log, all, m, t.active[m].waiters)
    {
      assert WaitingOk(s.log, held, m, s.active[m].waiters);
      forall w, x | w in t.active[m].waiters && x in all
        ensures x.id != w.id
      {
        assert Open(s.log, w) && !HasRequest(held, w.id);
      }
    }
    forall id, m | Somewhere(s.active, held, id, m)
      ensures Somewhere(t.active, all, id, m)
    {
      if HasRequest(held, id) {
        var x :| x in held && x.id == id;
        assert x in all;
      } else {
        var x :| x in Elements(Waiters(s.active, m)) && x.id == id;
        assert x in all || x in Elements(Waiters(t.active, m));
      }
    }
  }

  lemma QueueCancelled(cfg: Config, s: State, id: nat)
    requires Inv(cfg, s)
    ensures
      var t := CancelQueued(s, id);
      && Holds(cfg, t, Elements(t.queued)) && DistinctIds(t.queued) && (t.queued != [] ==> Busy(t))
      && t.active == s.active && t.inFlight == s.inFlight
  {
    var gone, kept := Filter(s.queued, HasId(id)), Filter(s.queued, LacksId(id));
    FilterMembers(s.queued, HasId(id));
    FilterMembers(s.queued, LacksId(id));
    FilterDistinct(s.queued, HasId(id));
    FilterDistinct(s.queued, LacksId(id));
    CancelEachHeld(cfg, s, Elements(s.queued), gone);
    assert Elements(s.queued) - Elements(gone) == Elements(kept);
    AsideFree(cfg, CancelEach(s, gone), Elements(kept), CancelEach(s, gone).(queued := kept));
  }

  lemma CancelKeeps(cfg: Config, s: State, req: Req)
    requires Inv(cfg, s) && Enabled(s, Cancel(req))
    ensures Inv(cfg, OnCancel(s, req))
  {
    QueueCancelled(cfg, s, req.id);
    var mid := CancelQueued(s, req.id);
    if req.model in mid.active {
      WaiterCancelled(cfg, mid, Elements(mid.queued), req);
    }
  }

  lemma WaiterCancelled(cfg: Config, s: State, held: set<Req>, req: Req)
    requires Holds(cfg, s, held) && req.model in s.active
    ensures
      var t := CancelWaiting(s, req);
      && Holds(cfg, t, held) && t.active.Keys == s.active.Keys && t.inFlight == s.inFlight && t.queued == s.queued
  {
    var swap := s.active[req.model];
    var pulled := Filter(swap.waiters, HasId(req.id));
    var left := swap.(waiters := Filter(swap.waiters, LacksId(req.id)));
    PullHeld(cfg, s, held, req.model, LacksId(req.id), HasId(req.id));
    var t := s.(active := s.active[req.model := left]);
    CancelEachHeld(cfg, t, held + Elements(pulled), pulled);
    assert held + Elements(pulled) - Elements(pulled) == held;
    CancelEachActive(s, t.active, pulled);
  }

  lemma ReleaseActive(s: State, active: map<string, Swap>, model: string)
    ensures Release(s.(active := active), model) == Release(s, model).(active := active)
  {}

  lemma CancelOneActive(s: State, active: map<string, Swap>, r: Req)
    ensures Dismissed(s.(active := active), r, Cancelled(r.id)) == Dismissed(s, r, Cancelled(r.id)).(active := active)
  {
    ReleaseActive(s, active, r.model);
  }

  /** Giving slots back does not look at the swaps. */
  lemma {:induction false} CancelEachActive(s: State, active: map<string, Swap>, reqs: seq<Req>)
    ensures CancelEach(s.(active := active), reqs) == CancelEach(s, reqs).(active := active)
  {
    if reqs != [] {
      var before, r := reqs[..|reqs| - 1], reqs[|reqs| - 1];
      CancelEachActive(s, active, before);
      CancelOneActive(CancelEach(s, before), active, r);
    }
  }

  lemma SwapDoneKeeps(cfg: Config, env: Env, s: State, model: string, failed: bool)
    requires cfg.Valid() && Inv(cfg, s)
    ensures Inv(cfg, OnSwapDone(cfg, env, s, model, failed))
  {
    if model in s.active {
      var held, ws := Elements(s.queued), s.active[model].waiters;
      DetachHeld(cfg, s, held, model);
      var t := s.(active := s.active - {model});
      assert AllFor(ws, model) by {
        assert forall i :: 0 <= i < |ws| ==> ws[i] in ws;
      }
      GrantEachHeld(cfg, env, t, held + Elements(ws), ws, model, failed);
      assert held + Elements(ws) - Elements(ws) == held;
      DrainKeeps(cfg, env, GrantEach(cfg, env, t, ws, model, failed));
    }
  }

  /** A returning handler gives its lease back, and its request stays in flight. */
  lemma ReturnKeeps(cfg: Config, s: State, model: string)
    requires Inv(cfg, s) && Enabled(s, HandlerReturns(model))
    ensures
      var t := HandlerReturned(cfg, s, model);
      && Inv(cfg, t) && t.inFlight == s.inFlight && Get(t.serving, model) == Get(s.serving, model) - 1
      && (model in cfg.leaseAware ==> Get(t.leases, model) == Get(s.leases, model) - 1)
  {
    var t, held := HandlerReturned(cfg, s, model), Elements(s.queued);
    var noted := if model in cfg.leaseAware then Log(s, LeaseReturned(model)) else s;
    if model in cfg.leaseAware {
      NeutralLog(cfg, s, held, LeaseReturned(model));
    }
    assert MeteredFor(cfg, s, model);
    assert t == noted.(leases := t.leases, serving := t.serving, finishing := t.finishing);
    ReturnMetered(cfg, s, model);
    HandlersFree(cfg, noted, held, t);
  }

  lemma ReturnMetered(cfg: Config, s: State, model: string)
    requires Metered(cfg, s) && Get(s.serving, model) > 0
    ensures Metered(cfg, HandlerReturned(cfg, s, model))
  {
    assert MeteredFor(cfg, s, model);
    forall m
      ensures MeteredFor(cfg, HandlerReturned(cfg, s, model), m)
    {
      assert MeteredFor(cfg, s, m);
    }
  }

  /** The router's counts matter to nothing but each other and the requests in flight. */
  lemma HandlersFree(cfg: Config, s: State, held: set<Req>, t: State)
    requires Holds(cfg, s, held) && Metered(cfg, t)
    requires t == s.(leases := t.leases, serving := t.serving, finishing := t.finishing)
    ensures Holds(cfg, t, held)
  {
    forall m
      ensures BalancedFor(cfg, t, held, m)
    {
      assert BalancedFor(cfg, s, held, m);
    }
  }

  /** One request of the model less is in flight. */
  function Fewer(inFlight: map<string, int>, model: string): map<string, int>
  {
    var n := Get(inFlight, model) - 1;
    if n > 0 then inFlight[model := n] else inFlight - {model}
  }

  lemma ServeDoneKeeps(cfg: Config, env: Env, s: State, model: string)
    requires cfg.Valid() && Inv(cfg, s) && Enabled(s, ServeDone(model))
    ensures Inv(cfg, OnServeDone(cfg, env, Reported(s, model), model))
  {
    assert MeteredFor(cfg, s, model);
    var t := Release(Reported(s, model), model).(inFlight := Fewer(s.inFlight, model));
    FinishHeld(cfg, s, Elements(s.queued), model);
    if Get(s.inFlight, model) > 1 {
      assert model in t.inFlight;
    } else {
      DrainKeeps(cfg, env, t);
    }
  }

  lemma FinishHeld(cfg: Config, s: State, held: set<Req>, model: string)
    requires Holds(cfg, s, held) && Enabled(s, ServeDone(model)) && Get(s.inFlight, model) > 0
    ensures
      var t := Release(Reported(s, model), model).(inFlight := Fewer(s.inFlight, model));
      Holds(cfg, t, held) && t.queued == s.queued
  {
    var t := Release(Reported(s, model), model).(inFlight := Fewer(s.inFlight, model));
    assert BalancedFor(cfg, s, held, model);
    ReleaseCounts(Reported(s, model), model);
    FinishBalanced(cfg, s, held, model, t);
    FinishMetered(cfg, s, model, t);
    PlacedReads(s, t, held);
  }

  lemma FinishBalanced(cfg: Config, s: State, held: set<Req>, model: string, t: State)
    requires Balanced(cfg, s, held) && Get(s.inFlight, model) > 0 && t.inFlight == Fewer(s.inFlight, model)
    requires t.active == s.active && t.panicked == s.panicked && t.reserved.Keys <= s.reserved.Keys && Positive(t.reserved)
    requires forall m :: Get(t.reserved, m) == Get(s.reserved, m) - (if m == model then 1 else 0)
    ensures Balanced(cfg, t, held)
  {
    forall m
      ensures BalancedFor(cfg, t, held, m)
    {
      assert BalancedFor(cfg, s, held, m);
    }
  }

  lemma FinishMetered(cfg: Config, s: State, model: string, t: State)
    requires Metered(cfg, s) && Get(s.finishing, model) > 0 && Get(s.inFlight, model) > 0
    requires t.inFlight == Fewer(s.inFlight, model) && t.finishing == Reported(s, model).finishing
    requires t.leases == s.leases && t.serving == s.serving
    ensures Metered(cfg, t)
  {
    forall m
      ensures MeteredFor(cfg, t, m)
    {
      assert MeteredFor(cfg, s, m);
    }
  }

  lemma DropSwapHeld(cfg: Config, s: State, held: set<Req>, model: string)
    requires Holds(cfg, s, held)
    ensures Holds(cfg, DropSwap(s, model), held) && DropSwap(s, model).queued == s.queued
  {
    if model in s.active {
      var ws := s.active[model].waiters;
      DetachHeld(cfg, s, held, model);
      ErrorEachHeld(cfg, s.(active := s.active - {model}), held + Elements(ws), ws, Unloaded);
      assert held + Elements(ws) - Elements(ws) == held;
    }
  }

  lemma {:induction false} DropSwapsHeld(cfg: Config, s: State, held: set<Req>, targets: seq<string>)
    requires Holds(cfg, s, held)
    ensures Holds(cfg, DropSwaps(s, targets), held) && DropSwaps(s, targets).queued == s.queued
  {
    if targets != [] {
      DropSwapsHeld(cfg, s, held, targets[..|targets| - 1]);
      DropSwapHeld(cfg, DropSwaps(s, targets[..|targets| - 1]), held, targets[|targets| - 1]);
    }
  }

  lemma UnloadKeeps(cfg: Config, env: Env, s: State, targets: seq<string>, order: seq<string>)
    requires cfg.Valid() && Inv(cfg, s)
    ensures Inv(cfg, OnUnload(cfg, env, s, targets, order))
  {
    var held := Elements(s.queued);
    DropSwapsHeld(cfg, s, held, order);
    var mid := DropSwaps(s, order);
    var gone, kept := Filter(s.queued, Targeted(targets)), Filter(s.queued, Untargeted(targets));
    FilterMembers(s.queued, Targeted(targets));
    FilterMembers(s.queued, Untargeted(targets));
    FilterDistinct(s.queued, Targeted(targets));
    FilterDistinct(s.queued, Untargeted(targets));
    ErrorEachHeld(cfg, mid, held, gone, Unloaded);
    assert held - Elements(gone) == Elements(kept);
    AsideFree(cfg, ErrorEach(mid, gone, Unloaded), Elements(kept), DropQueued(mid, targets));
    DrainKeeps(cfg, env, DropQueued(mid, targets));
  }

  // ------------------------------------------------------------------------- runs

  datatype Turn = Turn(env: Env, event: Event)

  ghost function After(cfg: Config, run: seq<Turn>): State
  {
    if run == [] then EMPTY
    else Step(cfg, run[|run| - 1].env, After(cfg, run[..|run| - 1]), run[|run| - 1].event)
  }

  ghost predicate Legal(cfg: Config, run: seq<Turn>)
  {
    run == [] || (Legal(cfg, run[..|run| - 1]) && Enabled(After(cfg, run[..|run| - 1]), run[|run| - 1].event))
  }

  lemma EmptyInv(cfg: Config)
    ensures Inv(cfg, EMPTY)
  {
    var none: set<Req> := {};
    assert Elements(EMPTY.queued) == none;
    forall m
      ensures BalancedFor(cfg, EMPTY, none, m) && MeteredFor(cfg, EMPTY, m)
    {
      assert OfModel(none, m) == {};
    }
  }

  /** One event, whatever the planner, the processes and the callers answer. */
  lemma EventKeepsInvariant(cfg: Config, env: Env, s: State, e: Event)
    requires cfg.Valid() && Inv(cfg, s) && Enabled(s, e)
    ensures Inv(cfg, Step(cfg, env, s, e))
  {
    match e {
      case Request(req) => RequestKeeps(cfg, env, s, req);
      case Cancel(req) => CancelKeeps(cfg, s, req);
      case SwapDone(model, failed) => SwapDoneKeeps(cfg, env, s, model, failed);
      case HandlerReturns(model) => ReturnKeeps(cfg, s, model);
      case ServeDone(model) => ServeDoneKeeps(cfg, env, s, model);
      case Unload(targets, order) => UnloadKeeps(cfg, env, s, targets, order);
    }
  }

  /** Every legal run reaches only states that satisfy the invariant. */
  lemma {:induction false} RunsKeepInvariant(cfg: Config, run: seq<Turn>)
    requires cfg.Valid() && Legal(cfg, run)
    ensures Inv(cfg, After(cfg, run))
  {
    if run == [] {
      EmptyInv(cfg);
    } else {
      var before, turn := run[..|run| - 1], run[|run| - 1];
      RunsKeepInvariant(cfg, before);
      EventKeepsInvariant(cfg, turn.env, After(cfg, before), turn.event);
    }
  }

  // -------------------------------------------------------- what a run guarantees

  /** Active swaps are pairwise compatible; a model they stop has no request in flight,
      so no handler runs for it and no lease on it is held; and no handler was ever
      granted for a model being stopped. */
  lemma SwapsNeverStopBusyModels(cfg: Config, run: seq<Turn>)
    requires cfg.Valid() && Legal(cfg, run)
    ensures
      var s := After(cfg, run);
      && Compatible(s.active) && GrantsSafe(s.log)
      && forall a, m :: a in s.active && m in s.active[a].evict ==>
           Get(s.inFlight, m) == 0 && Get(s.serving, m) == 0 && Get(s.leases, m) == 0
  {
    RunsKeepInvariant(cfg, run);
    var s := After(cfg, run);
    forall a, m | a in s.active && m in s.active[a].evict
      ensures Get(s.inFlight, m) == 0 && Get(s.serving, m) == 0 && Get(s.leases, m) == 0
    {
      EvicteeIsIdle(cfg, s, a, m);
    }
  }

  lemma EvicteeIsIdle(cfg: Config, s: State, a: string, m: string)
    requires Inv(cfg, s) && a in s.active && m in s.active[a].evict
    ensures Get(s.inFlight, m) == 0 && Get(s.serving, m) == 0 && Get(s.leases, m) == 0
  {
    assert m !in s.inFlight;
    assert MeteredFor(cfg, s, m);
  }

  /** Between events every running handler of a lease-aware model, and nothing else,
      holds a lease; the requests in flight are the running handlers and those that
      have not reported yet, so there are never more leases than requests in flight. */
  lemma LeasesAreHandlers(cfg: Config, run: seq<Turn>, m: string)
    requires cfg.Valid() && Legal(cfg, run)
    ensures
      var s := After(cfg, run);
      && Get(s.leases, m) == (if m in cfg.leaseAware then Get(s.serving, m) else 0)
      && Get(s.inFlight, m) == Get(s.serving, m) + Get(s.finishing, m)
      && 0 <= Get(s.leases, m) <= Get(s.inFlight, m)
  {
    RunsKeepInvariant(cfg, run);
    assert MeteredFor(cfg, After(cfg, run), m);
  }

  function CountModel(reqs: seq<Req>, m: string): nat
  {
    |Filter(reqs, (r: Req) => r.model == m)|
  }

  /** A model's reserved slots are exactly its requests in flight, queued and waiting
      on its swap, never above its limit; no slot is ever released that was not reserved. */
  lemma SlotsAreConserved(cfg: Config, run: seq<Turn>, m: string)
    requires cfg.Valid() && Legal(cfg, run)
    ensures
      var s := After(cfg, run);
      && !s.panicked
      && Get(s.reserved, m) == Get(s.inFlight, m) + CountModel(s.queued, m) + |Waiters(s.active, m)|
      && Get(s.reserved, m) <= cfg.Limit(m)
  {
    RunsKeepInvariant(cfg, run);
    var s, ofM := After(cfg, run), (r: Req) => r.model == m;
    assert BalancedFor(cfg, s, Elements(s.queued), m);
    FilterMembers(s.queued, ofM);
    FilterDistinct(s.queued, ofM);
    DistinctFromHeld(Filter(s.queued, ofM));
    assert Elements(Filter(s.queued, ofM)) == OfModel(Elements(s.queued), m);
  }

  function Ids(reqs: seq<Req>): seq<nat>
  {
    seq(|reqs|, i requires 0 <= i < |reqs| => reqs[i].id)
  }

  /** Every admitted request is counted once: queued, waiting on the swap of its
      model, or closed; so it is answered at most once and never lost. */
  lemma RequestsAreConserved(cfg: Config, run: seq<Turn>, id: nat)
    requires cfg.Valid() && Legal(cfg, run)
    ensures
      var s := After(cfg, run);
      var admitted := AdmittedIn(s.log);
      if id in admitted then
        multiset(Ids(s.queued))[id] + multiset(Ids(Waiters(s.active, admitted[id])))[id] + Closed(s.log)[id] == 1
      else
        id !in Ids(s.queued) && id !in Closed(s.log) && forall m :: id !in Ids(Waiters(s.active, m))
  {
    RunsKeepInvariant(cfg, run);
    var s := After(cfg, run);
    var admitted, held := AdmittedIn(s.log), Elements(s.queued);
    IdCount(s.queued, id);
    assert HasRequest(held, id) ==> id in admitted && Closed(s.log)[id] == 0;
    forall m
      ensures DistinctIds(Waiters(s.active, m))
      ensures HasRequest(Elements(Waiters(s.active, m)), id) ==>
        id in admitted && admitted[id] == m && Closed(s.log)[id] == 0 && !HasRequest(held, id)
      ensures id in Ids(Waiters(s.active, m)) ==> HasRequest(Elements(Waiters(s.active, m)), id)
    {
      if m in s.active {
        assert WaitingOk(s.log, held, m, s.active[m].waiters);
      }
      IdsAre(Waiters(s.active, m), id);
    }
    IdsAre(s.queued, id);
    if id in admitted {
      IdCount(Waiters(s.active, admitted[id]), id);
      assert Closed(s.log)[id] == 0 ==> Somewhere(s.active, held, id, admitted[id]);
      assert Closed(s.log)[id] <= 1;
    }
  }

  lemma IdsAre(reqs: seq<Req>, id: nat)
    ensures id in Ids(reqs) <==> HasRequest(Elements(reqs), id)
  {
    if id in Ids(reqs) {
      var i :| 0 <= i < |reqs| && Ids(reqs)[i] == id;
      assert reqs[i] in Elements(reqs);
    }
    if HasRequest(Elements(reqs), id) {
      var r :| r in reqs && r.id == id;
      var i :| 0 <= i < |reqs| && reqs[i] == r;
      assert Ids(reqs)[i] == id;
    }
  }

  lemma {:induction false} IdCount(reqs: seq<Req>, id: nat)
    requires DistinctIds(reqs)
    ensures multiset(Ids(reqs))[id] == if HasRequest(Elements(reqs), id) then 1 else 0
  {
    IdsAre(reqs, id);
    if reqs != [] {
      var k := |reqs| - 1;
      IdCount(reqs[..k], id);
      IdsAre(reqs[..k], id);
      assert Ids(reqs) == Ids(reqs[..k]) + [reqs[k].id];
      if reqs[k].id == id {
        assert id !in Ids(reqs[..k]);
      }
    }
  }

  /** No lost wake-up: whoever is queued waits for an active swap or a request in
      flight, and the completion of either drains the queue. */
  lemma QueuedMeansBusy(cfg: Config, run: seq<Turn>)
    requires cfg.Valid() && Legal(cfg, run) && After(cfg, run).queued != []
    ensures
      var s := After(cfg, run);
      (exists m :: m in s.active) || (exists m :: Get(s.inFlight, m) > 0)
  {
    RunsKeepInvariant(cfg, run);
    var s := After(cfg, run);
    if s.active == map[] {
      var m :| m in s.inFlight;
      assert Get(s.inFlight, m) > 0;
    } else {
      var m :| m in s.active;
    }
  }
}
