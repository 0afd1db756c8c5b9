/** The FIFO scheduler's state and what each event does to it. Calls into the
    planner, the processes and the waiting callers are the environment's answers,
    fixed for the length of one event. */
module FifoSpec {
  import opened Names

  const DEFAULT_CONCURRENCY_LIMIT: int := 10

  datatype Option<+T> = None | Some(value: T)

  /** One waiting ServeHTTP call. `id` is its arrival number and stands for its
      private response channel; `queuedAt` is 0 until it is first queued. */
  datatype Req = Req(id: nat, model: string, queuedAt: int)

  datatype Swap = Swap(evict: seq<string>, waiters: seq<Req>)

  datatype Pool = Pool(residentFirst: bool, maxResidentBurst: int, maxResidentWait: int)

  /** `leaseAware` are the models whose process takes a provider lease for every
      handler it hands out. */
  datatype Config = Config(
    concurrency: map<string, int>, priority: map<string, int>, leaseAware: set<string>,
    poolOf: map<string, string>, pools: map<string, Pool>, poolNames: seq<string>)
  {
    /** The pool names, sorted, are the keys of the pool map. */
    ghost predicate Valid()
    {
      StrictlySorted(poolNames) && Elements(poolNames) == pools.Keys
    }

    function Limit(model: string): int
    {
      if model in concurrency && concurrency[model] > 0 then concurrency[model] else DEFAULT_CONCURRENCY_LIMIT
    }

    function Priority(model: string): int { if model in priority then priority[model] else 0 }

    function PoolFor(model: string): string { if model in poolOf then poolOf[model] else "" }
  }

  datatype ProcessState = Stopped | Starting | Ready | Stopping | Shutdown

  /** The environment during one event: process states, the eviction planner, whether
      the provider lends a lease for a request, and whether a caller is still there to
      receive its admission or its handler. */
  datatype Env = Env(
    states: map<string, ProcessState>,
    planner: (string, set<string>) -> seq<string>,
    listening: nat -> bool,
    lends: nat -> bool,
    receives: nat -> bool,
    now: int)
  {
    function Running(): set<string>
    {
      set m | m in states && states[m] != Stopped && states[m] != Shutdown
    }

    predicate IsReady(model: string) { model in states && states[model] == Ready }
  }

  datatype Failure = ModelNotFound | LimitReached | SwapFailed | Unloaded

  /** What the scheduler did, in order. `evictors` are the active swaps that were
      evicting the model when a handler for it was granted; `overtakes` records
      that a new request was served while a cold one of its pool was queued. */
  datatype Effect =
    | Admitted(id: nat, model: string)
    | Rejected(id: nat, failure: Failure)
    | FastPath(id: nat, model: string, overtakes: bool)
    | Served(id: nat, model: string, evictors: set<string>)
    | Undelivered(id: nat)
    | Refused(id: nat)   // told that the provider model is changing residency
    | Errored(id: nat, failure: Failure)
    | Cancelled(id: nat)
    | SwapStarted(model: string, evict: seq<string>)
    | LeaseAsked(model: string, granted: bool)
    | LeaseReturned(model: string)

  /** The scheduler's fields, and what the router keeps beside them: the provider
      leases it holds, the handlers that run, and those that have returned and wait to
      report it. */
  datatype State = State(
    active: map<string, Swap>,
    reserved: map<string, int>,
    inFlight: map<string, int>,
    queued: seq<Req>,
    bursts: map<string, int>,
    panicked: bool,
    leases: map<string, int>,
    serving: map<string, int>,
    finishing: map<string, int>,
    log: seq<Effect>)

  const EMPTY: State := State(map[], map[], map[], [], map[], false, map[], map[], map[], [])

  /** A Go map read: a missing key is zero. */
  function Get(m: map<string, int>, k: string): int { if k in m then m[k] else 0 }

  function Log(s: State, e: Effect): State { s.(log := s.log + [e]) }

  // ------------------------------------------------------------------ decisions

  function RunningSet(env: Env, active: map<string, Swap>, exclude: string): set<string>
  {
    env.Running() + (active.Keys - {exclude})
  }

  function Evictions(env: Env, active: map<string, Swap>, model: string): seq<string>
  {
    env.planner(model, RunningSet(env, active, model))
  }

  predicate Overlap(xs: seq<string>, ys: seq<string>)
  {
    exists i :: 0 <= i < |xs| && xs[i] in ys
  }

  predicate CollidesWithOne(target: string, evict: seq<string>, id: string, swap: Swap)
  {
    id != target && (id in evict || target in swap.evict || Overlap(evict, swap.evict))
  }

  predicate Collides(target: string, evict: seq<string>, active: map<string, Swap>)
  {
    exists id :: id in active && CollidesWithOne(target, evict, id, active[id])
  }

  predicate Conflicts(evict: seq<string>, inFlight: map<string, int>)
  {
    exists i :: 0 <= i < |evict| && Get(inFlight, evict[i]) > 0
  }

  predicate IsCold(env: Env, active: map<string, Swap>, model: string)
  {
    !env.IsReady(model) || |Evictions(env, active, model)| > 0
  }

  /** The cold request of the pool that has waited longest, first in queue among equals. */
  function OldestCold(cfg: Config, env: Env, active: map<string, Swap>, queue: seq<Req>, pool: string): (r: Option<Req>)
    ensures r.Some? ==> r.value in queue
  {
    if queue == [] then None
    else
      var oldest := OldestCold(cfg, env, active, queue[..|queue| - 1], pool);
      var q := queue[|queue| - 1];
      if cfg.PoolFor(q.model) != pool || !IsCold(env, active, q.model) then oldest
      else if oldest.None? || q.queuedAt < oldest.value.queuedAt then Some(q)
      else oldest
  }

  /** A fairness bound of the pool is reached, for this oldest cold request. */
  predicate BoundReached(policy: Pool, burst: int, now: int, oldest: Req)
  {
    || (policy.maxResidentBurst > 0 && burst >= policy.maxResidentBurst)
    || (policy.maxResidentWait > 0 && now - oldest.queuedAt >= policy.maxResidentWait)
  }

  predicate ShouldYield(cfg: Config, env: Env, s: State, model: string)
  {
    var pool := cfg.PoolFor(model);
    && pool in cfg.pools && cfg.pools[pool].residentFirst
    && var oldest := OldestCold(cfg, env, s.active, s.queued, pool);
       oldest.Some? && BoundReached(cfg.pools[pool], Get(s.bursts, pool), env.now, oldest.value)
  }

  predicate ColdWaits(cfg: Config, env: Env, s: State, model: string)
  {
    cfg.PoolFor(model) != "" && OldestCold(cfg, env, s.active, s.queued, cfg.PoolFor(model)).Some?
  }

  // -------------------------------------------------------------------- updates

  /** One slot of the model less is reserved. */
  function Lessened(reserved: map<string, int>, model: string): map<string, int>
  {
    var n := Get(reserved, model);
    if n <= 0 then reserved else if n == 1 then reserved - {model} else reserved[model := n - 1]
  }

  /** `release`: giving back a slot that was never reserved panics. */
  function Release(s: State, model: string): State
  {
    s.(reserved := Lessened(s.reserved, model), panicked := s.panicked || Get(s.reserved, model) <= 0)
  }

  /** A request leaves without being served: its slot is given back and the effect noted. */
  function Dismissed(s: State, req: Req, e: Effect): State { Log(Release(s, req.model), e) }

  function RecordResident(cfg: Config, env: Env, s: State, model: string): State
  {
    var pool := cfg.PoolFor(model);
    if ColdWaits(cfg, env, s, model) then s.(bursts := s.bursts[pool := Get(s.bursts, pool) + 1]) else s
  }

  ghost function Evictors(active: map<string, Swap>, model: string): set<string>
  {
    set id | id in active && model in active[id].evict
  }

  /** `AcquireLease`: the provider lends a lease or not. */
  function LeaseAskedFor(env: Env, s: State, id: nat, model: string): State
  {
    var t := Log(s, LeaseAsked(model, env.lends(id)));
    if env.lends(id) then t.(leases := t.leases[model := Get(t.leases, model) + 1]) else t
  }

  /** `ReleaseLease`: the count never goes below zero. */
  function LeaseGivenBack(s: State, model: string): State
  {
    var n := Get(s.leases, model);
    Log(s.(leases := s.leases[model := if n > 0 then n - 1 else n]), LeaseReturned(model))
  }

  /** The caller received its handler, which now runs. */
  ghost function Handed(s: State, req: Req, model: string): State
  {
    Log(s.(serving := s.serving[model := Get(s.serving, model) + 1]), Served(req.id, model, Evictors(s.active, model)))
  }

  /** Neither the swaps nor the queue nor the bursts change. */
  ghost predicate Framed(s: State, t: State)
  {
    t.active == s.active && t.queued == s.queued && t.bursts == s.bursts
  }

  /** What a grant came to: the caller has its handler, or it has not and, at most,
      got this answer. */
  datatype Grant = Received(s: State) | Missed(s: State, answer: Effect)

  /** `GrantServe`: no handler without a lease where there are leases; a refused lease
      is answered with an error, and one whose handler nobody received is given back. */
  ghost function GrantServe(cfg: Config, env: Env, s: State, req: Req, model: string): (g: Grant)
    ensures Framed(s, g.s) && g.s.inFlight == s.inFlight && g.s.reserved == s.reserved && g.s.panicked == s.panicked
  {
    if model !in cfg.leaseAware then
      if env.receives(req.id) then Received(Handed(s, req, model)) else Missed(s, Undelivered(req.id))
    else
      var asked := LeaseAskedFor(env, s, req.id, model);
      if !env.lends(req.id) then Missed(asked, Refused(req.id))
      else if env.receives(req.id) then Received(Handed(asked, req, model))
      else Missed(LeaseGivenBack(asked, model), Undelivered(req.id))
  }

  /** `grantHandler`: counts the request in flight only if the caller received it. */
  ghost function GrantHandler(cfg: Config, env: Env, s: State, req: Req, model: string): (t: State)
    ensures Framed(s, t) && s.inFlight.Keys <= t.inFlight.Keys
  {
    match GrantServe(cfg, env, s, req, model)
    case Received(t) => t.(inFlight := t.inFlight[model := Get(t.inFlight, model) + 1])
    case Missed(t, answer) => Log(Release(t, model), answer)
  }

  /** A request of a resident model is granted its handler. */
  ghost function ResidentServed(cfg: Config, env: Env, s: State, req: Req): State
  {
    GrantHandler(cfg, env, RecordResident(cfg, env, s, req.model), req, req.model)
  }

  /** The same for a request that has just come, which may overtake a cold one. */
  ghost function ServedAtOnce(cfg: Config, env: Env, s: State, req: Req): State
  {
    ResidentServed(cfg, env, Log(s, FastPath(req.id, req.model, ColdWaits(cfg, env, s, req.model))), req)
  }

  /** A tracked handler returns: it gives its lease back before it reports. */
  function HandlerReturned(cfg: Config, s: State, model: string): State
  {
    var t := if model in cfg.leaseAware then LeaseGivenBack(s, model) else s;
    t.(serving := t.serving[model := Get(t.serving, model) - 1],
       finishing := t.finishing[model := Get(t.finishing, model) + 1])
  }

  function GrantError(s: State, req: Req, failure: Failure): State
  {
    Dismissed(s, req, Errored(req.id, failure))
  }

  function StartSwap(cfg: Config, s: State, req: Req, evict: seq<string>): State
  {
    var pool := cfg.PoolFor(req.model);
    Log(s.(active := s.active[req.model := Swap(evict, [req])],
           bursts := if pool != "" then s.bursts[pool := 0] else s.bursts),
        SwapStarted(req.model, evict))
  }

  function Join(s: State, req: Req): State
    requires req.model in s.active
  {
    var swap := s.active[req.model];
    s.(active := s.active[req.model := swap.(waiters := swap.waiters + [req])])
  }

  /** Just before the first queued request of strictly lower priority. */
  function QueuePlace(cfg: Config, queue: seq<Req>, priority: int): (i: nat)
    ensures i <= |queue|
  {
    if queue == [] || cfg.Priority(queue[0].model) < priority then 0
    else 1 + QueuePlace(cfg, queue[1..], priority)
  }

  function Stamped(env: Env, req: Req): Req
  {
    if req.queuedAt == 0 then req.(queuedAt := env.now) else req
  }

  function Enqueue(cfg: Config, env: Env, s: State, req: Req): State
  {
    var i := QueuePlace(cfg, s.queued, cfg.Priority(req.model));
    s.(queued := s.queued[..i] + [Stamped(env, req)] + s.queued[i..])
  }

  // ------------------------------------------------------------------ fair order

  function Filter(reqs: seq<Req>, keep: Req -> bool): seq<Req>
  {
    if reqs == [] then []
    else
      var last := reqs[|reqs| - 1];
      Filter(reqs[..|reqs| - 1], keep) + (if keep(last) then [last] else [])
  }

  /** The list with the selected places refilled, in order, from `values`. */
  function Refill(reqs: seq<Req>, select: Req -> bool, values: seq<Req>): seq<Req>
  {
    if reqs == [] then []
    else if select(reqs[0]) && values != [] then [values[0]] + Refill(reqs[1..], select, values[1..])
    else [reqs[0]] + Refill(reqs[1..], select, values)
  }

  function InPool(cfg: Config, pool: string): Req -> bool
  {
    (r: Req) => cfg.PoolFor(r.model) == pool
  }

  function ColdIn(cfg: Config, env: Env, active: map<string, Swap>, pool: string): Req -> bool
  {
    (r: Req) => cfg.PoolFor(r.model) == pool && IsCold(env, active, r.model)
  }

  function ResidentIn(cfg: Config, env: Env, active: map<string, Swap>, pool: string): Req -> bool
  {
    (r: Req) => cfg.PoolFor(r.model) == pool && !IsCold(env, active, r.model)
  }

  /** Resident requests first, then cold; a promotion puts the first cold one in front. */
  function Ordered(resident: seq<Req>, cold: seq<Req>, promote: bool): seq<Req>
  {
    if promote && cold != [] then [cold[0]] + resident + cold[1..] else resident + cold
  }

  function ReorderPool(cfg: Config, env: Env, s: State, out: seq<Req>, pool: string): seq<Req>
  {
    if pool !in cfg.pools || !cfg.pools[pool].residentFirst then out
    else
      var oldest := OldestCold(cfg, env, s.active, s.queued, pool);
      if oldest.None? then out
      else
        var promote := BoundReached(cfg.pools[pool], Get(s.bursts, pool), env.now, oldest.value);
        Refill(out, InPool(cfg, pool),
               Ordered(Filter(out, ResidentIn(cfg, env, s.active, pool)), Filter(out, ColdIn(cfg, env, s.active, pool)), promote))
  }

  function ReorderPools(cfg: Config, env: Env, s: State, pending: seq<Req>, pools: seq<string>): seq<Req>
  {
    if pools == [] then pending
    else ReorderPool(cfg, env, s, ReorderPools(cfg, env, s, pending, pools[..|pools| - 1]), pools[|pools| - 1])
  }

  function FairOrder(cfg: Config, env: Env, s: State): seq<Req>
  {
    if |s.queued| < 2 then s.queued else ReorderPools(cfg, env, s, s.queued, cfg.poolNames)
  }

  // ----------------------------------------------------------------------- drain

  datatype Pass = Pass(s: State, remaining: seq<Req>)

  /** One queued request, decided again against the current swaps. */
  ghost function DrainOne(cfg: Config, env: Env, p: Pass, req: Req): Pass
  {
    var evict := Evictions(env, p.s.active, req.model);
    if req.model !in env.states then p.(s := GrantError(p.s, req, ModelNotFound))
    else if req.model in p.s.active then p.(s := Join(p.s, req))
    else if env.IsReady(req.model) && evict == [] && !Collides(req.model, evict, p.s.active) then
      p.(s := ResidentServed(cfg, env, p.s, req))
    else if Collides(req.model, evict, p.s.active) || Conflicts(evict, p.s.inFlight) then
      p.(remaining := p.remaining + [req])
    else p.(s := StartSwap(cfg, p.s, req, evict))
  }

  ghost function DrainAll(cfg: Config, env: Env, s: State, pending: seq<Req>): Pass
  {
    if pending == [] then Pass(s, [])
    else DrainOne(cfg, env, DrainAll(cfg, env, s, pending[..|pending| - 1]), pending[|pending| - 1])
  }

  ghost function Drain(cfg: Config, env: Env, s: State): State
  {
    if s.queued == [] then s
    else
      var p := DrainAll(cfg, env, s, FairOrder(cfg, env, s));
      p.s.(queued := p.remaining)
  }

  // ---------------------------------------------------------------------- events

  function Admit(s: State, req: Req): State
  {
    Log(s.(reserved := s.reserved[req.model := Get(s.reserved, req.model) + 1]), Admitted(req.id, req.model))
  }

  /** `OnRequest` once the request holds a slot. */
  ghost function Decide(cfg: Config, env: Env, s: State, req: Req): State
  {
    var evict := Evictions(env, s.active, req.model);
    if req.model in s.active then Join(s, req)
    else if env.IsReady(req.model) && evict == [] && !Collides(req.model, evict, s.active) then
      if ShouldYield(cfg, env, s, req.model) then Enqueue(cfg, env, s, req)
      else ServedAtOnce(cfg, env, s, req)
    else if Collides(req.model, evict, s.active) || Conflicts(evict, s.inFlight) then Enqueue(cfg, env, s, req)
    else StartSwap(cfg, s, req, evict)
  }

  ghost function OnRequest(cfg: Config, env: Env, s: State, req: Req): State
  {
    if req.model !in env.states then Log(s, Rejected(req.id, ModelNotFound))
    else if Get(s.reserved, req.model) >= cfg.Limit(req.model) then Log(s, Rejected(req.id, LimitReached))
    else if !env.listening(req.id) then s
    else Decide(cfg, env, Admit(s, req), req)
  }

  function HasId(id: nat): Req -> bool { (r: Req) => r.id == id }

  function LacksId(id: nat): Req -> bool { (r: Req) => r.id != id }

  /** A slot given back for every request of the list, each noted as cancelled. */
  function CancelEach(s: State, reqs: seq<Req>): State
  {
    if reqs == [] then s
    else
      var last := reqs[|reqs| - 1];
      Dismissed(CancelEach(s, reqs[..|reqs| - 1]), last, Cancelled(last.id))
  }

  function CancelQueued(s: State, id: nat): State
  {
    CancelEach(s, Filter(s.queued, HasId(id))).(queued := Filter(s.queued, LacksId(id)))
  }

  /** A request waits on a swap only if that swap is for its own model. */
  function CancelWaiting(s: State, req: Req): State
  {
    if req.model !in s.active then s
    else
      var swap := s.active[req.model];
      CancelEach(s, Filter(swap.waiters, HasId(req.id)))
        .(active := s.active[req.model := swap.(waiters := Filter(swap.waiters, LacksId(req.id)))])
  }

  function OnCancel(s: State, req: Req): State
  {
    CancelWaiting(CancelQueued(s, req.id), req)
  }

  ghost function GrantEach(cfg: Config, env: Env, s: State, waiters: seq<Req>, model: string, failed: bool): State
  {
    if waiters == [] then s
    else
      var before, w := GrantEach(cfg, env, s, waiters[..|waiters| - 1], model, failed), waiters[|waiters| - 1];
      if failed then GrantError(before, w, SwapFailed) else GrantHandler(cfg, env, before, w, model)
  }

  ghost function OnSwapDone(cfg: Config, env: Env, s: State, model: string, failed: bool): State
  {
    if model !in s.active then s
    else Drain(cfg, env, GrantEach(cfg, env, s.(active := s.active - {model}), s.active[model].waiters, model, failed))
  }

  ghost function OnServeDone(cfg: Config, env: Env, s: State, model: string): State
  {
    var n := Get(s.inFlight, model) - 1;
    var freed := Release(s, model);
    if n > 0 then freed.(inFlight := s.inFlight[model := n])
    else Drain(cfg, env, freed.(inFlight := s.inFlight - {model}))
  }

  function ErrorEach(s: State, reqs: seq<Req>, failure: Failure): State
  {
    if reqs == [] then s
    else GrantError(ErrorEach(s, reqs[..|reqs| - 1], failure), reqs[|reqs| - 1], failure)
  }

  function DropSwap(s: State, model: string): State
  {
    if model !in s.active then s
    else ErrorEach(s.(active := s.active - {model}), s.active[model].waiters, Unloaded)
  }

  function DropSwaps(s: State, targets: seq<string>): State
  {
    if targets == [] then s
    else DropSwap(DropSwaps(s, targets[..|targets| - 1]), targets[|targets| - 1])
  }

  function Targeted(targets: seq<string>): Req -> bool { (r: Req) => r.model in targets }

  function Untargeted(targets: seq<string>): Req -> bool { (r: Req) => r.model !in targets }

  function DropQueued(s: State, targets: seq<string>): State
  {
    ErrorEach(s, Filter(s.queued, Targeted(targets)), Unloaded).(queued := Filter(s.queued, Untargeted(targets)))
  }

  /** `env` is the environment after the targeted processes were stopped. */
  ghost function OnUnload(cfg: Config, env: Env, s: State, targets: seq<string>, order: seq<string>): State
  {
    Drain(cfg, env, DropQueued(DropSwaps(s, order), targets))
  }

  // ------------------------------------------------------------------------ runs

  datatype Event =
    | Request(req: Req)
    | Cancel(req: Req)
    | SwapDone(model: string, failed: bool)
    | HandlerReturns(model: string)
    | ServeDone(model: string)
    | Unload(targets: seq<string>, order: seq<string>)   // order: how the target set is walked

  /** The report of a returned handler is taken. */
  function Reported(s: State, model: string): State
  {
    s.(finishing := s.finishing[model := Get(s.finishing, model) - 1])
  }

  ghost function Step(cfg: Config, env: Env, s: State, e: Event): State
  {
    match e
    case Request(req) => OnRequest(cfg, env, s, req)
    case Cancel(req) => OnCancel(s, req)
    case SwapDone(model, failed) => OnSwapDone(cfg, env, s, model, failed)
    case HandlerReturns(model) => HandlerReturned(cfg, s, model)
    case ServeDone(model) => OnServeDone(cfg, env, Reported(s, model), model)
    case Unload(targets, order) => OnUnload(cfg, env, s, targets, order)
  }
}
