/** The FIFO scheduler as its handlers run: fields reassigned step by step, with every
    handler proved to be its event of `FifoSpec` and to keep the invariant. */
module Fifo {
  import opened Names
  import opened FifoSpec
  import opened FifoInvariant
  import opened FifoOrder
  import opened FifoQueue
  import opened FifoRuns

  // ------------------------------------------------------------ refilling in place

  /** `at` is the place of the k-th selected request. */
  ghost predicate IsPlace(reqs: seq<Req>, select: Req -> bool, k: nat, at: nat)
  {
    at < |reqs| && select(reqs[at]) && |Filter(reqs[..at], select)| == k
  }

  lemma {:induction false} RefillNothing(reqs: seq<Req>, select: Req -> bool)
    ensures Refill(reqs, select, []) == reqs
  {
    if reqs != [] {
      RefillNothing(reqs[1..], select);
    }
  }

  lemma RefillFront(reqs: seq<Req>, select: Req -> bool, values: seq<Req>)
    requires reqs != []
    ensures
      var take := select(reqs[0]) && values != [];
      && Refill(reqs, select, values)[1..] == Refill(reqs[1..], select, if take then values[1..] else values)
      && Refill(reqs, select, values)[0] == if take then values[0] else reqs[0]
  {}

  /** Overwriting the next selected place is refilling from one more value. */
  lemma {:induction false} RefillNext(reqs: seq<Req>, select: Req -> bool, values: seq<Req>, v: Req, at: nat)
    requires IsPlace(reqs, select, |values|, at)
    ensures |Refill(reqs, select, values)| == |reqs|
    ensures Refill(reqs, select, values + [v]) == Refill(reqs, select, values)[at := v]
  {
    RefillSize(reqs, select, values);
    RefillFront(reqs, select, values);
    RefillFront(reqs, select, values + [v]);
    if at == 0 {
      RefillNothing(reqs, select);
      RefillNothing(reqs[1..], select);
    } else {
      FilterFront(reqs[..at], select);
      assert reqs[..at][1..] == reqs[1..][..at - 1];
      var rest := if select(reqs[0]) then values[1..] else values;
      assert select(reqs[0]) ==> (values + [v])[1..] == rest + [v];
      RefillNext(reqs[1..], select, rest, v, at - 1);
    }
  }

  lemma {:induction false} RefillSize(reqs: seq<Req>, select: Req -> bool, values: seq<Req>)
    ensures |Refill(reqs, select, values)| == |reqs|
  {
    if reqs != [] {
      RefillSize(reqs[1..], select, if select(reqs[0]) && values != [] then values[1..] else values);
    }
  }

  // ----------------------------------------------------------- decisions on slices

  method SlicesOverlap(xs: seq<string>, ys: seq<string>) returns (found: bool)
    ensures found == Overlap(xs, ys)
  {
    for i := 0 to |xs|
      invariant forall k :: 0 <= k < i ==> xs[k] !in ys
    {
      if xs[i] in ys {
        return true;
      }
    }
    return false;
  }

  /** Walks the swaps in whatever order the map gives them. */
  method CollidesWith(target: string, evict: seq<string>, active: map<string, Swap>) returns (found: bool)
    ensures found == Collides(target, evict, active)
  {
    var left := active.Keys;
    while left != {}
      invariant left <= active.Keys
      invariant forall id :: id in active.Keys - left ==> !CollidesWithOne(target, evict, id, active[id])
      decreases |left|
    {
      var id :| id in left;
      left := left - {id};
      if id == target {
        continue;
      }
      if id in evict || target in active[id].evict {
        assert CollidesWithOne(target, evict, id, active[id]);
        return true;
      }
      var overlap := SlicesOverlap(evict, active[id].evict);
      if overlap {
        assert CollidesWithOne(target, evict, id, active[id]);
        return true;
      }
    }
    return false;
  }

  method ConflictsWithInFlight(evict: seq<string>, inFlight: map<string, int>) returns (found: bool)
    ensures found == Conflicts(evict, inFlight)
  {
    for i := 0 to |evict|
      invariant forall k :: 0 <= k < i ==> Get(inFlight, evict[k]) <= 0
    {
      if Get(inFlight, evict[i]) > 0 {
        return true;
      }
    }
    return false;
  }

  /** Adds to a list the names of a set it does not hold yet. */
  method Collect(out: seq<string>, names: set<string>) returns (all: seq<string>)
    requires forall i, j :: 0 <= i < j < |out| ==> out[i] != out[j]
    ensures forall i, j :: 0 <= i < j < |all| ==> all[i] != all[j]
    ensures Elements(all) == Elements(out) + names
  {
    all := out;
    var left := names;
    while left != {}
      invariant left <= names
      invariant forall i, j :: 0 <= i < j < |all| ==> all[i] != all[j]
      invariant forall x :: x in all <==> x in out || (x in names && x !in left)
      decreases |left|
    {
      var id :| id in left;
      left := left - {id};
      if id !in all {
        all := all + [id];
      }
    }
  }

  class Scheduler {
    const cfg: Config
    var active: map<string, Swap>
    var reserved: map<string, int>
    var inFlight: map<string, int>
    var queued: seq<Req>
    var residentBursts: map<string, int>
    var panicked: bool
    /** The router's side: leases held with the provider, handlers that run, and those
        that returned and have not reported. */
    var leases: map<string, int>
    var serving: map<string, int>
    var finishing: map<string, int>
    ghost var log: seq<Effect>

    ghost function View(): State
      reads this
    {
      State(active, reserved, inFlight, queued, residentBursts, panicked, leases, serving, finishing, log)
    }

    ghost predicate Valid()
      reads this
    {
      cfg.Valid() && Inv(cfg, View())
    }

    constructor (cfg: Config)
      requires cfg.Valid()
      ensures this.cfg == cfg && View() == EMPTY && Valid()
    {
      this.cfg := cfg;
      active, reserved, inFlight, queued := map[], map[], map[], [];
      residentBursts, panicked, log := map[], false, [];
      leases, serving, finishing := map[], map[], map[];
      new;
      EmptyInv(cfg);
    }

    // ---------------------------------------------------------------- queries

    method RunningModels(env: Env, excludeActive: string) returns (out: seq<string>)
      ensures out == SortedListing(RunningSet(env, active, excludeActive))
    {
      var processes := Collect([], env.Running());
      var all := Collect(processes, active.Keys - {excludeActive});
      assert Elements(all) == RunningSet(env, active, excludeActive);
      out := SortStrings(all);
    }

    /** What the planner answers; it is always given the sorted running list. */
    method EvictionFor(env: Env, model: string) returns (evict: seq<string>)
      ensures evict == Evictions(env, active, model)
    {
      var running := RunningModels(env, model);
      evict := env.planner(model, Elements(running));
    }

    method Cold(env: Env, model: string) returns (cold: bool)
      ensures cold == IsCold(env, active, model)
    {
      if model !in env.states || env.states[model] != Ready {
        return true;
      }
      var evict := EvictionFor(env, model);
      return |evict| > 0;
    }

    method FindOldestCold(env: Env, pool: string) returns (oldest: Option<Req>)
      ensures oldest == OldestCold(cfg, env, active, queued, pool)
    {
      oldest := None;
      for i := 0 to |queued|
        invariant oldest == OldestCold(cfg, env, active, queued[..i], pool)
      {
        assert queued[..i + 1][..i] == queued[..i];
        var req := queued[i];
        if cfg.PoolFor(req.model) == pool {
          var cold := Cold(env, req.model);
          if cold && (oldest.None? || req.queuedAt < oldest.value.queuedAt) {
            oldest := Some(req);
          }
        }
      }
      assert queued[..|queued|] == queued;
    }

    method ShouldYieldToCold(env: Env, model: string) returns (mustYield: bool)
      ensures mustYield == ShouldYield(cfg, env, View(), model)
    {
      var pool := cfg.PoolFor(model);
      if pool !in cfg.pools || !cfg.pools[pool].residentFirst {
        return false;
      }
      var policy := cfg.pools[pool];
      var oldest := FindOldestCold(env, pool);
      if oldest.None? {
        return false;
      }
      if policy.maxResidentBurst > 0 && Get(residentBursts, pool) >= policy.maxResidentBurst {
        return true;
      }
      if policy.maxResidentWait > 0 && env.now - oldest.value.queuedAt >= policy.maxResidentWait {
        return true;
      }
      return false;
    }

    // ---------------------------------------------------------------- updates

    method Release(model: string)
      modifies this
      ensures View() == FifoSpec.Release(old(View()), model)
    {
      if Get(reserved, model) <= 0 {
        panicked := true;
        return;
      }
      reserved := reserved[model := reserved[model] - 1];
      if reserved[model] == 0 {
        reserved := reserved - {model};
      }
    }

    /** The provider is asked for a lease. */
    method AcquireLease(env: Env, req: Req, model: string) returns (granted: bool)
      modifies this`leases, this`log
      ensures granted == env.lends(req.id) && View() == LeaseAskedFor(env, old(View()), req.id, model)
    {
      granted := env.lends(req.id);
      log := log + [LeaseAsked(model, granted)];
      if granted {
        leases := leases[model := Get(leases, model) + 1];
      }
    }

    method ReleaseLease(model: string)
      modifies this`leases, this`log
      ensures View() == LeaseGivenBack(old(View()), model)
    {
      var n := Get(leases, model);
      if n > 0 {
        n := n - 1;
      }
      leases := leases[model := n];
      log := log + [LeaseReturned(model)];
    }

    /** Hands the caller a handler: it runs from here on. */
    method Hand(req: Req, model: string)
      modifies this`serving, this`log
      ensures View() == Handed(old(View()), req, model)
    {
      serving := serving[model := Get(serving, model) + 1];
      log := log + [Served(req.id, model, Evictors(active, model))];
    }

    /** `ok` when the caller received its handler. Otherwise no lease is kept, and
        `answer` is what is known of the caller. */
    method GrantServe(env: Env, req: Req, model: string) returns (ok: bool, ghost answer: Effect)
      modifies this`leases, this`serving, this`log
      ensures (if ok then Received(View()) else Missed(View(), answer)) == FifoSpec.GrantServe(cfg, env, old(View()), req, model)
      ensures Get(serving, model) == Get(old(serving), model) + if ok then 1 else 0
      ensures old(Get(leases, model)) >= 0 ==>
        Get(leases, model) == old(Get(leases, model)) + if ok && model in cfg.leaseAware then 1 else 0
    {
      answer := Undelivered(req.id);
      if model in cfg.leaseAware {
        var lent := AcquireLease(env, req, model);
        if !lent {
          return false, Refused(req.id);
        }
        if !env.receives(req.id) {
          ReleaseLease(model);
          return false, Undelivered(req.id);
        }
        Hand(req, model);
        return true, answer;
      }
      ok := env.receives(req.id);
      if ok {
        Hand(req, model);
      }
    }

    /** A request is in flight from here on exactly when its caller got a handler; its
        slot is given back otherwise. */
    method GrantHandler(env: Env, req: Req, model: string)
      modifies this
      ensures View() == FifoSpec.GrantHandler(cfg, env, old(View()), req, model)
      ensures Get(inFlight, model) - old(Get(inFlight, model)) == Get(serving, model) - old(Get(serving, model))
    {
      var ok, answer := GrantServe(env, req, model);
      if ok {
        inFlight := inFlight[model := Get(inFlight, model) + 1];
      } else {
        Release(model);
        log := log + [answer];
      }
    }

    /** A tracked handler returns: its lease goes back before its report is sent. */
    method TrackedServeReturns(model: string)
      modifies this`leases, this`serving, this`finishing, this`log
      ensures View() == HandlerReturned(cfg, old(View()), model)
      ensures model in cfg.leaseAware && Get(old(leases), model) > 0 ==> Get(leases, model) == Get(old(leases), model) - 1
    {
      if model in cfg.leaseAware {
        ReleaseLease(model);
      }
      serving := serving[model := Get(serving, model) - 1];
      finishing := finishing[model := Get(finishing, model) + 1];
    }

    method GrantError(req: Req, failure: Failure)
      modifies this
      ensures View() == FifoSpec.GrantError(old(View()), req, failure)
    {
      Release(req.model);
      log := log + [Errored(req.id, failure)];
    }

    method RecordResidentAdmission(env: Env, model: string)
      modifies this
      ensures View() == RecordResident(cfg, env, old(View()), model)
    {
      var pool := cfg.PoolFor(model);
      if pool == "" {
        return;
      }
      var oldest := FindOldestCold(env, pool);
      if oldest.Some? {
        residentBursts := residentBursts[pool := Get(residentBursts, pool) + 1];
      }
    }

    method StartSwap(req: Req, evict: seq<string>)
      modifies this
      ensures View() == FifoSpec.StartSwap(cfg, old(View()), req, evict)
    {
      active := active[req.model := Swap(evict, [req])];
      var pool := cfg.PoolFor(req.model);
      if pool != "" {
        residentBursts := residentBursts[pool := 0];
      }
      log := log + [SwapStarted(req.model, evict)];
    }

    method JoinSwap(req: Req)
      requires req.model in active
      modifies this
      ensures View() == Join(old(View()), req)
    {
      var swap := active[req.model];
      active := active[req.model := swap.(waiters := swap.waiters + [req])];
    }

    method Enqueue(env: Env, req: Req)
      modifies this
      ensures View() == FifoSpec.Enqueue(cfg, env, old(View()), req)
    {
      var stamped := if req.queuedAt == 0 then req.(queuedAt := env.now) else req;
      var p := cfg.Priority(req.model);
      var i := |queued|;
      var j := 0;
      while j < |queued|
        invariant j <= |queued| == i
        invariant QueuePlace(cfg, queued, p) == j + QueuePlace(cfg, queued[j..], p)
      {
        if cfg.Priority(queued[j].model) < p {
          i := j;
          break;
        }
        assert queued[j..][1..] == queued[j + 1..];
        j := j + 1;
      }
      queued := queued[..i] + [stamped] + queued[i..];
    }

    // ------------------------------------------------------------------ drain

    /** Picks the requests of a pool out of a list: their places, the residents and
        the cold ones. */
    method SplitPool(env: Env, out: seq<Req>, pool: string)
      returns (resident: seq<Req>, cold: seq<Req>, indexes: seq<nat>)
      ensures resident == Filter(out, ResidentIn(cfg, env, active, pool)) && cold == Filter(out, ColdIn(cfg, env, active, pool))
      ensures |indexes| == |Filter(out, InPool(cfg, pool))| == |resident| + |cold|
      ensures forall k :: 0 <= k < |indexes| ==> IsPlace(out, InPool(cfg, pool), k, indexes[k])
    {
      ghost var here, warm, chilled := InPool(cfg, pool), ResidentIn(cfg, env, active, pool), ColdIn(cfg, env, active, pool);
      resident, cold, indexes := [], [], [];
      for index := 0 to |out|
        invariant resident == Filter(out[..index], warm) && cold == Filter(out[..index], chilled)
        invariant |indexes| == |Filter(out[..index], here)| == |resident| + |cold|
        invariant forall k :: 0 <= k < |indexes| ==> IsPlace(out, here, k, indexes[k])
      {
        assert out[..index + 1][..index] == out[..index];
        var req := out[index];
        if cfg.PoolFor(req.model) != pool {
          continue;
        }
        indexes := indexes + [index];
        var isCold := Cold(env, req.model);
        if isCold {
          cold := cold + [req];
        } else {
          resident := resident + [req];
        }
      }
      assert out[..|out|] == out;
    }

    /** The reordering of one pool: its requests are written back, in the new order,
        to the places they were found at. */
    method ReorderOnePool(env: Env, out: seq<Req>, pool: string) returns (next: seq<Req>)
      ensures next == ReorderPool(cfg, env, View(), out, pool)
    {
      if pool !in cfg.pools || !cfg.pools[pool].residentFirst {
        return out;
      }
      var policy := cfg.pools[pool];
      var oldest := FindOldestCold(env, pool);
      if oldest.None? {
        return out;
      }
      var promote :=
        || (policy.maxResidentBurst > 0 && Get(residentBursts, pool) >= policy.maxResidentBurst)
        || (policy.maxResidentWait > 0 && env.now - oldest.value.queuedAt >= policy.maxResidentWait);
      var resident, cold, indexes := SplitPool(env, out, pool);
      var ordered := resident + cold;
      if promote && |cold| > 0 {
        ordered := [cold[0]] + resident + cold[1..];
      }
      next := WriteBack(out, InPool(cfg, pool), indexes, ordered);
    }

    method FairlyOrdered(env: Env, pending: seq<Req>) returns (out: seq<Req>)
      requires cfg.Valid() && pending == queued
      ensures out == FairOrder(cfg, env, View())
    {
      if |pending| < 2 {
        return pending;
      }
      out := pending;
      var poolNames := PoolNames();
      for i := 0 to |poolNames|
        invariant out == ReorderPools(cfg, env, View(), pending, poolNames[..i])
      {
        assert poolNames[..i + 1][..i] == poolNames[..i];
        out := ReorderOnePool(env, out, poolNames[i]);
      }
      assert poolNames[..|poolNames|] == poolNames;
    }

    method PoolNames() returns (names: seq<string>)
      requires cfg.Valid()
      ensures names == cfg.poolNames
    {
      var keys := Collect([], cfg.pools.Keys);
      names := SortStrings(keys);
      SortedIsUnique(names, cfg.poolNames);
    }

    /** One queued request; `keep` says that it stays queued. */
    method DrainRequest(env: Env, req: Req, ghost kept: seq<Req>) returns (keep: bool)
      modifies this
      ensures
        Pass(View(), if keep then kept + [req] else kept) == DrainOne(cfg, env, Pass(old(View()), kept), req)
    {
      if req.model !in env.states {
        GrantError(req, ModelNotFound);
        return false;
      }
      if req.model in active {
        JoinSwap(req);
        return false;
      }
      var evict := EvictionFor(env, req.model);
      var collides := CollidesWith(req.model, evict, active);
      if env.states[req.model] == Ready && |evict| == 0 && !collides {
        RecordResidentAdmission(env, req.model);
        GrantHandler(env, req, req.model);
        return false;
      }
      if collides {
        return true;
      }
      var conflicts := ConflictsWithInFlight(evict, inFlight);
      if conflicts {
        return true;
      }
      StartSwap(req, evict);
      return false;
    }

    method DrainQueue(env: Env)
      requires cfg.Valid()
      modifies this
      ensures View() == Drain(cfg, env, old(View()))
    {
      if |queued| == 0 {
        return;
      }
      ghost var start := View();
      var pending := FairlyOrdered(env, queued);
      var remaining: seq<Req> := [];
      for i := 0 to |pending|
        invariant Pass(View(), remaining) == DrainAll(cfg, env, start, pending[..i])
      {
        assert pending[..i + 1][..i] == pending[..i];
        var keep := DrainRequest(env, pending[i], remaining);
        if keep {
          remaining := remaining + [pending[i]];
        }
      }
      assert pending[..|pending|] == pending;
      queued := remaining;
    }

    // ----------------------------------------------------------------- events

    method OnRequest(env: Env, req: Req)
      modifies this
      ensures View() == FifoSpec.OnRequest(cfg, env, old(View()), req)
    {
      if req.model !in env.states {
        log := log + [Rejected(req.id, ModelNotFound)];
        return;
      }
      if Get(reserved, req.model) >= cfg.Limit(req.model) {
        log := log + [Rejected(req.id, LimitReached)];
        return;
      }
      if !env.listening(req.id) {
        return;
      }
      AdmitRequest(req);
      DecideRequest(env, req);
    }

    method AdmitRequest(req: Req)
      modifies this`reserved, this`log
      ensures View() == Admit(old(View()), req)
    {
      reserved := reserved[req.model := Get(reserved, req.model) + 1];
      log := log + [Admitted(req.id, req.model)];
    }

    /** The decision tree for a request that holds a slot. */
    method DecideRequest(env: Env, req: Req)
      requires req.model in env.states
      modifies this
      ensures View() == Decide(cfg, env, old(View()), req)
    {
      if req.model in active {
        JoinSwap(req);
        return;
      }
      var evict := EvictionFor(env, req.model);
      var collides := CollidesWith(req.model, evict, active);
      if env.states[req.model] == Ready && |evict| == 0 && !collides {
        var mustYield := ShouldYieldToCold(env, req.model);
        if mustYield {
          Enqueue(env, req);
          return;
        }
        log := log + [FastPath(req.id, req.model, ColdWaits(cfg, env, View(), req.model))];
        RecordResidentAdmission(env, req.model);
        GrantHandler(env, req, req.model);
        return;
      }
      if collides {
        Enqueue(env, req);
        return;
      }
      var conflicts := ConflictsWithInFlight(evict, inFlight);
      if conflicts {
        Enqueue(env, req);
        return;
      }
      StartSwap(req, evict);
    }

    /** Removes the requests with this response channel from a list. */
    method Prune(reqs: seq<Req>, id: nat) returns (kept: seq<Req>)
      modifies this
      ensures kept == Filter(reqs, LacksId(id))
      ensures View() == CancelEach(old(View()), Filter(reqs, HasId(id)))
    {
      kept := [];
      for i := 0 to |reqs|
        invariant kept == Filter(reqs[..i], LacksId(id))
        invariant View() == CancelEach(old(View()), Filter(reqs[..i], HasId(id)))
      {
        assert reqs[..i + 1][..i] == reqs[..i];
        var q := reqs[i];
        if q.id == id {
          ghost var gone := Filter(reqs[..i], HasId(id));
          assert Filter(reqs[..i + 1], HasId(id)) == gone + [q];
          assert (gone + [q])[..|gone|] == gone;
          Release(q.model);
          log := log + [Cancelled(q.id)];
        } else {
          assert Filter(reqs[..i + 1], HasId(id)) == Filter(reqs[..i], HasId(id));
          kept := kept + [q];
        }
      }
      assert reqs[..|reqs|] == reqs;
    }

    /** Prunes the waiters of one swap. */
    method PruneSwap(id: string, reqId: nat)
      requires id in active
      modifies this
      ensures
        var before := old(View());
        var swap := before.active[id];
        View() == CancelEach(before, Filter(swap.waiters, HasId(reqId)))
          .(active := before.active[id := swap.(waiters := Filter(swap.waiters, LacksId(reqId)))])
    {
      var swap := active[id];
      CancelEachReads(View(), Filter(swap.waiters, HasId(reqId)));
      var filtered := Prune(swap.waiters, reqId);
      active := active[id := swap.(waiters := filtered)];
    }

    /** Looks through every active swap, whatever its model. */
    method OnCancel(req: Req)
      requires Valid() && Enabled(View(), Cancel(req))
      modifies this
      ensures View() == FifoSpec.OnCancel(old(View()), req)
    {
      forall id | id in active && id != req.model
        ensures Filter(active[id].waiters, HasId(req.id)) == []
        ensures Filter(active[id].waiters, LacksId(req.id)) == active[id].waiters
      {
        WaitsOnOwnSwap(cfg, View(), req, id);
      }
      PruneQueue(req.id);
      PruneSwaps(req);
    }

    method PruneQueue(id: nat)
      modifies this
      ensures View() == CancelQueued(old(View()), id) && active == old(active)
    {
      CancelEachReads(View(), Filter(queued, HasId(id)));
      var kept := Prune(queued, id);
      queued := kept;
    }

    method PruneSwaps(req: Req)
      requires forall id :: id in active && id != req.model ==>
        && Filter(active[id].waiters, HasId(req.id)) == []
        && Filter(active[id].waiters, LacksId(req.id)) == active[id].waiters
      modifies this
      ensures View() == CancelWaiting(old(View()), req)
    {
      ghost var start := View();
      var left := active.Keys;
      while left != {}
        invariant left <= active.Keys
        invariant View() == if req.model in left then start else CancelWaiting(start, req)
        decreases |left|
      {
        var id :| id in left;
        assert req.model in left || id != req.model;
        if id != req.model {
          assert active[id] == start.active[id];
          PruningNothing(View(), id, req.id);
        }
        PruneSwap(id, req.id);
        left := left - {id};
      }
    }

    method OnSwapDone(env: Env, model: string, failed: bool)
      requires cfg.Valid()
      modifies this
      ensures View() == FifoSpec.OnSwapDone(cfg, env, old(View()), model, failed)
    {
      if model !in active {
        return;
      }
      var waiters := active[model].waiters;
      active := active - {model};
      AnswerWaiters(env, waiters, model, failed);
      DrainQueue(env);
    }

    method AnswerWaiters(env: Env, waiters: seq<Req>, model: string, failed: bool)
      modifies this
      ensures View() == GrantEach(cfg, env, old(View()), waiters, model, failed)
    {
      for i := 0 to |waiters|
        invariant View() == GrantEach(cfg, env, old(View()), waiters[..i], model, failed)
      {
        assert waiters[..i + 1][..i] == waiters[..i];
        if failed {
          GrantError(waiters[i], SwapFailed);
        } else {
          GrantHandler(env, waiters[i], model);
        }
      }
      assert waiters[..|waiters|] == waiters;
    }

    /** Counts one request of the model as served; `idle` when it was the last. */
    method FinishServe(model: string) returns (idle: bool)
      modifies this
      ensures
        var s := old(View());
        var n := Get(s.inFlight, model) - 1;
        && idle == (n <= 0)
        && View() == FifoSpec.Release(s, model)
             .(inFlight := if idle then s.inFlight - {model} else s.inFlight[model := n])
    {
      ghost var was := inFlight;
      inFlight := inFlight[model := Get(inFlight, model) - 1];
      Release(model);
      idle := inFlight[model] <= 0;
      if idle {
        inFlight := inFlight - {model};
        assert inFlight == was - {model};
      }
    }

    method OnServeDone(env: Env, model: string)
      requires cfg.Valid()
      modifies this
      ensures View() == FifoSpec.OnServeDone(cfg, env, old(View()), model)
    {
      var idle := FinishServe(model);
      if idle {
        DrainQueue(env);
      }
    }

    /** `env` is what the scheduler sees once the targeted processes have stopped, and
        `order` how it walks the set of targets. */
    method OnUnload(env: Env, targets: seq<string>, order: seq<string>)
      requires cfg.Valid()
      modifies this
      ensures View() == FifoSpec.OnUnload(cfg, env, old(View()), targets, order)
    {
      ghost var start := View();
      for i := 0 to |order|
        invariant View() == DropSwaps(start, order[..i])
      {
        assert order[..i + 1][..i] == order[..i];
        DropTarget(order[i]);
      }
      assert order[..|order|] == order;
      DropQueuedFor(targets);
      DrainQueue(env);
    }

    /** The router's run loop hands every event to its handler. */
    method Handle(env: Env, event: Event)
      requires Valid() && Enabled(View(), event)
      modifies this
      ensures View() == Step(cfg, env, old(View()), event) && Valid()
    {
      EventKeepsInvariant(cfg, env, View(), event);
      Dispatch(env, event);
    }

    method Dispatch(env: Env, event: Event)
      requires Valid() && Enabled(View(), event)
      modifies this
      ensures View() == Step(cfg, env, old(View()), event)
    {
      match event {
        case Request(req) => OnRequest(env, req);
        case Cancel(req) => OnCancel(req);
        case SwapDone(model, failed) => OnSwapDone(env, model, failed);
        case HandlerReturns(model) => TrackedServeReturns(model);
        case ServeDone(model) => ReportArrives(env, model);
        case Unload(targets, order) => OnUnload(env, targets, order);
      }
    }

    method ReportArrives(env: Env, model: string)
      requires cfg.Valid()
      modifies this
      ensures View() == FifoSpec.OnServeDone(cfg, env, Reported(old(View()), model), model)
    {
      finishing := finishing[model := Get(finishing, model) - 1];
      OnServeDone(env, model);
    }

    method DropTarget(id: string)
      modifies this
      ensures View() == DropSwap(old(View()), id)
    {
      if id !in active {
        return;
      }
      var waiters := active[id].waiters;
      ghost var start := View().(active := active - {id});
      active := active - {id};
      for i := 0 to |waiters|
        invariant View() == ErrorEach(start, waiters[..i], Unloaded)
      {
        assert waiters[..i + 1][..i] == waiters[..i];
        GrantError(waiters[i], Unloaded);
      }
      assert waiters[..|waiters|] == waiters;
    }

    method DropQueuedFor(targets: seq<string>)
      modifies this
      ensures View() == DropQueued(old(View()), targets)
    {
      ghost var start := View();
      var reqs, kept: seq<Req> := queued, [];
      for i := 0 to |reqs|
        invariant kept == Filter(reqs[..i], Untargeted(targets))
        invariant View() == ErrorEach(start, Filter(reqs[..i], Targeted(targets)), Unloaded)
      {
        assert reqs[..i + 1][..i] == reqs[..i];
        var w := reqs[i];
        if w.model in targets {
          ghost var gone := Filter(reqs[..i], Targeted(targets));
          assert Filter(reqs[..i + 1], Targeted(targets)) == gone + [w];
          assert (gone + [w])[..|gone|] == gone;
          GrantError(w, Unloaded);
        } else {
          assert Filter(reqs[..i + 1], Targeted(targets)) == Filter(reqs[..i], Targeted(targets));
          kept := kept + [w];
        }
      }
      assert reqs[..|reqs|] == reqs;
      queued := kept;
    }
  }

  // --------------------------------------------------------------- about methods

  method WriteBack(reqs: seq<Req>, ghost select: Req -> bool, indexes: seq<nat>, ordered: seq<Req>) returns (out: seq<Req>)
    requires |indexes| == |ordered|
    requires forall k :: 0 <= k < |indexes| ==> IsPlace(reqs, select, k, indexes[k])
    ensures out == Refill(reqs, select, ordered)
  {
    out := reqs;
    RefillNothing(reqs, select);
    for i := 0 to |indexes|
      invariant |out| == |reqs| && out == Refill(reqs, select, ordered[..i])
    {
      assert IsPlace(reqs, select, i, indexes[i]);
      RefillNext(reqs, select, ordered[..i], ordered[i], indexes[i]);
      assert ordered[..i + 1] == ordered[..i] + [ordered[i]];
      out := out[indexes[i] := ordered[i]];
    }
    assert ordered[..|ordered|] == ordered;
  }

  /** Giving slots back touches neither the swaps nor the queue. */
  lemma {:induction false} CancelEachReads(s: State, reqs: seq<Req>)
    ensures CancelEach(s, reqs).active == s.active && CancelEach(s, reqs).queued == s.queued
  {
    if reqs != [] {
      CancelEachReads(s, reqs[..|reqs| - 1]);
    }
  }

  lemma PruningNothing(s: State, id: string, reqId: nat)
    requires id in s.active
    requires Filter(s.active[id].waiters, HasId(reqId)) == []
    requires Filter(s.active[id].waiters, LacksId(reqId)) == s.active[id].waiters
    ensures
      var swap := s.active[id];
      s == CancelEach(s, Filter(swap.waiters, HasId(reqId)))
        .(active := s.active[id := swap.(waiters := Filter(swap.waiters, LacksId(reqId)))])
  {
    assert s.active[id := s.active[id]] == s.active;
  }
}
