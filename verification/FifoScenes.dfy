/** Runs in which a promotion moves the wrong cold request, for every configuration that
    allows one. One eviction planner answers throughout, and stops only models that run.
    A swap for a further model `x`, which stops a running model, stays active and keeps
    requests queued; unloading an idle model `z` drains the queue. */
module FifoScenes {
  import opened Names
  import opened FifoSpec
  import opened FifoInvariant
  import opened FifoOrder
  import opened FifoQueue
  import opened FifoRuns
  import opened FifoPromotion

  type Planner = (string, set<string>) -> seq<string>

  /** The router's models, its planner, and the swap for `x` that stops `evict`. */
  datatype Setting = Setting(models: set<string>, planner: Planner, x: string, evict: seq<string>, z: string)
  {
    ghost predicate Valid()
    {
      x in models && z in models && x != z
    }
  }

  /** The models in `ready` run, the others do not. Callers listen and leases are lent. */
  function SceneEnv(w: Setting, ready: set<string>, now: int): Env
  {
    Env(map q | q in w.models :: if q in ready then Ready else Stopped, w.planner,
        (id: nat) => true, (id: nat) => true, (id: nat) => true, now)
  }

  lemma ReadyRun(w: Setting, ready: set<string>, now: int)
    requires ready <= w.models
    ensures SceneEnv(w, ready, now).Running() == ready
  {
  }

  /** In every turn the router has these models and asks this planner. */
  ghost predicate InSetting(run: seq<Turn>, w: Setting)
  {
    forall i :: 0 <= i < |run| ==> run[i].env.states.Keys == w.models && run[i].env.planner == w.planner
  }

  /** The swap for `x` is active, nothing is in flight, and `queue` waits; the next
      arrival is number `n`. */
  ghost predicate Scene(cfg: Config, run: seq<Turn>, w: Setting, queue: seq<Req>, n: nat, now: int)
  {
    && w.Valid() && Legal(cfg, run) && Timely(run, now) && InSetting(run, w)
    && var s := After(cfg, run);
    && Staged(s, w) && s.queued == queue && s.inFlight == map[] && Newest(s.log, n)
  }

  ghost predicate Staged(s: State, w: Setting)
  {
    s.active.Keys == {w.x} && s.active[w.x].evict == w.evict
  }

  /** A run goes on with one more turn. */
  lemma Take(cfg: Config, run: seq<Turn>, turn: Turn, w: Setting) returns (longer: seq<Turn>)
    requires Legal(cfg, run) && Timely(run, turn.env.now) && Enabled(After(cfg, run), turn.event) && InSetting(run, w)
    requires turn.env.states.Keys == w.models && turn.env.planner == w.planner
    ensures longer == run + [turn] && Legal(cfg, longer) && Timely(longer, turn.env.now) && InSetting(longer, w)
    ensures After(cfg, longer) == Step(cfg, turn.env, After(cfg, run), turn.event)
  {
    longer := run + [turn];
    assert longer[..|longer| - 1] == run && longer[|longer| - 1] == turn;
  }

  lemma {:induction false} TimelyLater(run: seq<Turn>, now: int, later: int)
    requires Timely(run, now) && now <= later
    ensures Timely(run, later)
  {
  }

  // ----------------------------------------------------------------------- opening

  /** The swap starts while the models it stops run. */
  lemma Opening(cfg: Config, w: Setting, ready: set<string>) returns (run: seq<Turn>)
    requires w.Valid() && ready <= w.models && w.x !in ready && w.planner(w.x, ready) == w.evict
    ensures Scene(cfg, run, w, [], 1, 1)
    ensures forall p :: Get(After(cfg, run).bursts, p) == 0
    ensures run == [Turn(SceneEnv(w, ready, 1), Request(Req(0, w.x, 0)))] && SwapStarted(w.x, w.evict) in After(cfg, run).log
  {
    var env, req := SceneEnv(w, ready, 1), Req(0, w.x, 0);
    run := Take(cfg, [], Turn(env, Request(req)), w);
    var admitted := Admit(EMPTY, req);
    ReadyRun(w, ready, 1);
    assert RunningSet(env, EMPTY.active, w.x) == ready;
    assert Decide(cfg, env, admitted, req) == StartSwap(cfg, admitted, req, w.evict);
    LogStep([], Admitted(0, w.x));
    LogStep(admitted.log, SwapStarted(w.x, w.evict));
  }

  // ----------------------------------------------------------------- queued requests

  /** The model's requests cannot be decided while the swap is active: it stops the
      model, or the model would stop `x`. */
  predicate Blocked(w: Setting, ready: set<string>, q: string)
  {
    q in w.models && q != w.x && q != w.z && (q in w.evict || w.x in w.planner(q, ready + {w.x}))
  }

  lemma Asked(w: Setting, ready: set<string>, now: int, s: State, q: string)
    requires ready <= w.models && Staged(s, w) && q != w.x
    ensures Evictions(SceneEnv(w, ready, now), s.active, q) == w.planner(q, ready + {w.x})
  {
    ReadyRun(w, ready, now);
    assert RunningSet(SceneEnv(w, ready, now), s.active, q) == ready + {w.x};
  }

  lemma BlockedCollides(w: Setting, ready: set<string>, now: int, s: State, q: string)
    requires ready <= w.models && Blocked(w, ready, q) && Staged(s, w)
    ensures
      var env := SceneEnv(w, ready, now);
      && q in env.states && q !in s.active && Collides(q, Evictions(env, s.active, q), s.active)
  {
    Asked(w, ready, now, s, q);
    assert CollidesWithOne(q, w.planner(q, ready + {w.x}), w.x, s.active[w.x]);
  }

  function WithRequest(cfg: Config, queue: seq<Req>, r: Req): seq<Req>
  {
    var i := QueuePlace(cfg, queue, cfg.Priority(r.model));
    queue[..i] + [r] + queue[i..]
  }

  /** A blocked request that arrives is queued. */
  lemma Park(cfg: Config, run: seq<Turn>, w: Setting, ready: set<string>, queue: seq<Req>, n: nat, was: int,
      q: string, now: int) returns (longer: seq<Turn>)
    requires cfg.Valid() && Scene(cfg, run, w, queue, n, was) && was <= now && ready <= w.models
    requires Blocked(w, ready, q) && CountModel(queue, q) < cfg.Limit(q)
    ensures Scene(cfg, longer, w, WithRequest(cfg, queue, Req(n, q, now)), n + 1, now)
    ensures After(cfg, longer).bursts == After(cfg, run).bursts
  {
    var env, req, s := SceneEnv(w, ready, now), Req(n, q, 0), After(cfg, run);
    TimelyLater(run, was, now);
    SlotsAreConserved(cfg, run, q);
    longer := Take(cfg, run, Turn(env, Request(req)), w);
    BlockedCollides(w, ready, now, Admit(s, req), q);
    assert Decide(cfg, env, Admit(s, req), req) == Enqueue(cfg, env, Admit(s, req), req);
    LogStep(s.log, Admitted(n, q));
  }

  lemma {:induction false} AllRemain(cfg: Config, w: Setting, ready: set<string>, now: int, s: State, pending: seq<Req>)
    requires ready <= w.models && Staged(s, w) && forall r :: r in pending ==> Blocked(w, ready, r.model)
    ensures DrainAll(cfg, SceneEnv(w, ready, now), s, pending) == Pass(s, pending)
  {
    if pending != [] {
      var before, r := pending[..|pending| - 1], pending[|pending| - 1];
      assert pending == before + [r];
      AllRemain(cfg, w, ready, now, s, before);
      BlockedCollides(w, ready, now, s, r.model);
    }
  }

  /** A drain that can decide nobody only reorders the queue. */
  lemma Stirred(cfg: Config, w: Setting, ready: set<string>, now: int, s: State)
    requires cfg.Valid() && ready <= w.models && Staged(s, w) && forall r :: r in s.queued ==> Blocked(w, ready, r.model)
    ensures
      var env := SceneEnv(w, ready, now);
      Drain(cfg, env, s) == s.(queued := FairOrder(cfg, env, s))
  {
    var env := SceneEnv(w, ready, now);
    FairOrderWithin(cfg, env, s);
    AllRemain(cfg, w, ready, now, s, FairOrder(cfg, env, s));
  }

  /** Unloading `z`, which nobody waits for, drains the queue as it is. */
  lemma IdleUnload(cfg: Config, env: Env, s: State, z: string)
    requires z !in s.active && forall r :: r in s.queued ==> r.model != z
    ensures Drained(cfg, env, s, Unload([z], [z])) == Some(s)
  {
    assert [z][..0] == [] && DropSwaps(s, []) == s;
    assert DropSwaps(s, [z]) == s;
    FilterUniform(s.queued, Targeted([z]), false);
    FilterUniform(s.queued, Untargeted([z]), true);
  }

  lemma Stir(cfg: Config, run: seq<Turn>, w: Setting, ready: set<string>, queue: seq<Req>, n: nat, was: int, now: int)
    returns (longer: seq<Turn>)
    requires cfg.Valid() && Scene(cfg, run, w, queue, n, was) && was <= now && ready <= w.models
    requires forall r :: r in queue ==> Blocked(w, ready, r.model)
    ensures Scene(cfg, longer, w, FairOrder(cfg, SceneEnv(w, ready, now), After(cfg, run)), n, now)
    ensures After(cfg, longer).bursts == After(cfg, run).bursts
  {
    var env, s := SceneEnv(w, ready, now), After(cfg, run);
    TimelyLater(run, was, now);
    longer := Take(cfg, run, Turn(env, Unload([w.z], [w.z])), w);
    IdleUnload(cfg, env, s, w.z);
    DrainsThere(cfg, env, s, Unload([w.z], [w.z]));
    Stirred(cfg, w, ready, now, s);
  }

  // ------------------------------------------------------------ overtaking requests

  /** Asking for a lease that is lent, or serving under it, admits nothing. */
  lemma LentFrame(cfg: Config, env: Env, s: State, r: Req, model: string)
    requires env.lends(r.id)
    ensures
      var asked := if model in cfg.leaseAware then LeaseAskedFor(env, s, r.id, model) else s;
      && asked.inFlight == s.inFlight && asked.serving == s.serving && asked.finishing == s.finishing
      && AdmittedIn(asked.log) == AdmittedIn(s.log)
  {
    LogStep(s.log, LeaseAsked(model, true));
  }

  /** A caller that is there, and lent its lease, is served. */
  lemma GrantedCounts(cfg: Config, env: Env, s: State, r: Req, model: string)
    requires env.lends(r.id) && env.receives(r.id)
    ensures
      var t := GrantHandler(cfg, env, s, r, model);
      && t.inFlight == s.inFlight[model := Get(s.inFlight, model) + 1]
      && t.serving == s.serving[model := Get(s.serving, model) + 1] && t.finishing == s.finishing
      && AdmittedIn(t.log) == AdmittedIn(s.log)
  {
    var asked := if model in cfg.leaseAware then LeaseAskedFor(env, s, r.id, model) else s;
    LentFrame(cfg, env, s, r, model);
    LogStep(asked.log, Served(r.id, model, Evictors(asked.active, model)));
  }

  /** `a` and `b` run. The swap stops `a`, which would stop `x` in turn while `b` runs;
      so a request for `a` waits, cold, since time 1, and `b`, of the same resident-first
      pool, has been served `count` times past it. */
  ghost predicate Passing(cfg: Config, run: seq<Turn>, w: Setting, a: string, b: string, n: nat, count: nat)
  {
    && Scene(cfg, run, w, [Req(1, a, 1)], n, 1) && Rivals(cfg, w, a, b)
    && Get(After(cfg, run).bursts, cfg.PoolFor(a)) == count
  }

  ghost predicate Rivals(cfg: Config, w: Setting, a: string, b: string)
  {
    && w.models == {a, b, w.x, w.z} && w.evict == [a] && a != b && w.x != a && w.x != b && w.z != a && w.z != b
    && w.planner(a, {a, b, w.x}) == [w.x] && w.planner(b, {a, b, w.x}) == []
    && var pool := cfg.PoolFor(a);
    && pool != "" && pool in cfg.pools && cfg.pools[pool].residentFirst && cfg.PoolFor(b) == pool
  }

  lemma OneCold(cfg: Config, env: Env, active: map<string, Swap>, r: Req)
    requires IsCold(env, active, r.model)
    ensures OldestCold(cfg, env, active, [r], cfg.PoolFor(r.model)) == Some(r)
  {
    assert [r][..0] == [];
  }

  lemma CountOther(r: Req, q: string)
    requires r.model != q
    ensures CountModel([r], q) == 0
  {
    FilterUniform([r], (r: Req) => r.model == q, false);
  }

  /** What is known while that request waits. */
  ghost predicate Waits(s: State, w: Setting, a: string) { Staged(s, w) && s.queued == [Req(1, a, 1)] }

  /** `b` is served at once while the bound is not reached. */
  lemma PassDecided(cfg: Config, env: Env, s: State, w: Setting, a: string, b: string, n: nat, count: nat)
    requires w.Valid() && Rivals(cfg, w, a, b) && env == SceneEnv(w, {a, b}, 1) && Waits(s, w, a)
    requires
      var pool := cfg.PoolFor(a);
      Get(s.bursts, pool) == count && (cfg.pools[pool].maxResidentBurst > 0 ==> count < cfg.pools[pool].maxResidentBurst)
    ensures ColdWaits(cfg, env, s, b) && Decide(cfg, env, s, Req(n, b, 0)) == ServedAtOnce(cfg, env, s, Req(n, b, 0))
  {
    assert {a, b} + {w.x} == {a, b, w.x};
    Asked(w, {a, b}, 1, s, a);
    Asked(w, {a, b}, 1, s, b);
    OneCold(cfg, env, s.active, Req(1, a, 1));
    assert !Collides(b, [], s.active);
    assert !ShouldYield(cfg, env, s, b);
  }

  /** A handler for `b` runs. */
  ghost predicate Started(cfg: Config, s: State, w: Setting, a: string, b: string, n: nat, count: nat)
  {
    && Waits(s, w, a) && s.inFlight == map[b := 1]
    && Newest(s.log, n) && Get(s.bursts, cfg.PoolFor(a)) == count && Get(s.serving, b) > 0
  }

  lemma PassRoom(cfg: Config, run: seq<Turn>, w: Setting, a: string, b: string, n: nat, count: nat)
    requires cfg.Valid() && Passing(cfg, run, w, a, b, n, count)
    ensures Get(After(cfg, run).reserved, b) == 0 < cfg.Limit(b) && Get(After(cfg, run).serving, b) >= 0
  {
    SlotsAreConserved(cfg, run, b);
    CountOther(Req(1, a, 1), b);
    RunsKeepInvariant(cfg, run);
    assert MeteredFor(cfg, After(cfg, run), b);
  }

  lemma PassStep(cfg: Config, env: Env, s: State, w: Setting, a: string, b: string, n: nat, count: nat)
    requires w.Valid() && Rivals(cfg, w, a, b) && env == SceneEnv(w, {a, b}, 1) && Waits(s, w, a) && s.inFlight == map[]
    requires Newest(s.log, n) && Get(s.reserved, b) < cfg.Limit(b) && Get(s.serving, b) >= 0
    requires
      var pool := cfg.PoolFor(a);
      Get(s.bursts, pool) == count && (cfg.pools[pool].maxResidentBurst > 0 ==> count < cfg.pools[pool].maxResidentBurst)
    ensures Started(cfg, OnRequest(cfg, env, s, Req(n, b, 0)), w, a, b, n + 1, count + 1)
  {
    var req := Req(n, b, 0);
    var admitted := Admit(s, req);
    PassDecided(cfg, env, admitted, w, a, b, n, count);
    PassCounts(cfg, env, admitted, req, a);
    LogStep(s.log, Admitted(n, b));
    assert OnRequest(cfg, env, s, req) == ServedAtOnce(cfg, env, admitted, req);
  }

  lemma PassStarts(cfg: Config, run: seq<Turn>, w: Setting, a: string, b: string, n: nat, count: nat) returns (longer: seq<Turn>)
    requires cfg.Valid() && Passing(cfg, run, w, a, b, n, count)
    requires var policy := cfg.pools[cfg.PoolFor(a)]; policy.maxResidentBurst > 0 ==> count < policy.maxResidentBurst
    ensures Legal(cfg, longer) && Timely(longer, 1) && InSetting(longer, w)
    ensures Started(cfg, After(cfg, longer), w, a, b, n + 1, count + 1)
  {
    var env := SceneEnv(w, {a, b}, 1);
    PassRoom(cfg, run, w, a, b, n, count);
    PassStep(cfg, env, After(cfg, run), w, a, b, n, count);
    longer := Take(cfg, run, Turn(env, Request(Req(n, b, 0))), w);
  }

  lemma PassCounts(cfg: Config, env: Env, s: State, req: Req, a: string)
    requires env.lends(req.id) && env.receives(req.id) && ColdWaits(cfg, env, s, req.model)
    requires cfg.PoolFor(req.model) == cfg.PoolFor(a)
    ensures
      var t := ServedAtOnce(cfg, env, s, req);
      && t.active == s.active && t.queued == s.queued
      && t.inFlight == s.inFlight[req.model := Get(s.inFlight, req.model) + 1]
      && Get(t.bursts, cfg.PoolFor(a)) == Get(s.bursts, cfg.PoolFor(a)) + 1
      && Get(t.serving, req.model) == Get(s.serving, req.model) + 1 && AdmittedIn(t.log) == AdmittedIn(s.log)
  {
    var e := FastPath(req.id, req.model, ColdWaits(cfg, env, s, req.model));
    var noted := RecordResident(cfg, env, Log(s, e), req.model);
    LogStep(s.log, e);
    GrantedCounts(cfg, env, noted, req, req.model);
    assert Framed(noted, ServedAtOnce(cfg, env, s, req));
  }

  /** It returns. */
  lemma PassReturns(cfg: Config, run: seq<Turn>, w: Setting, a: string, b: string, n: nat, count: nat) returns (longer: seq<Turn>)
    requires cfg.Valid() && Legal(cfg, run) && Timely(run, 1) && InSetting(run, w)
    requires Started(cfg, After(cfg, run), w, a, b, n, count)
    ensures Legal(cfg, longer) && Timely(longer, 1) && InSetting(longer, w)
    ensures
      var s := After(cfg, longer);
      && Waits(s, w, a) && s.inFlight == map[b := 1]
      && Newest(s.log, n) && s.bursts == After(cfg, run).bursts && Get(s.finishing, b) > 0
  {
    var env, s := SceneEnv(w, {a, b}, 1), After(cfg, run);
    RunsKeepInvariant(cfg, run);
    assert MeteredFor(cfg, s, b);
    LogStep(s.log, LeaseReturned(b));
    longer := Take(cfg, run, Turn(env, HandlerReturns(b)), w);
  }

  /** It reports, and everything but the burst is as before. */
  lemma PassReports(cfg: Config, run: seq<Turn>, w: Setting, a: string, b: string, n: nat) returns (longer: seq<Turn>)
    requires cfg.Valid() && w.Valid() && Rivals(cfg, w, a, b) && Legal(cfg, run) && Timely(run, 1) && InSetting(run, w)
    requires
      var s := After(cfg, run);
      Waits(s, w, a) && s.inFlight == map[b := 1] && Newest(s.log, n) && Get(s.finishing, b) > 0
    ensures Scene(cfg, longer, w, [Req(1, a, 1)], n, 1) && After(cfg, longer).bursts == After(cfg, run).bursts
  {
    var env, s := SceneEnv(w, {a, b}, 1), After(cfg, run);
    longer := Take(cfg, run, Turn(env, ServeDone(b)), w);
    var done := Release(Reported(s, b), b).(inFlight := s.inFlight - {b});
    assert done.inFlight == map[] && After(cfg, longer) == Drain(cfg, env, done);
    Stirred(cfg, w, {a, b}, 1, done);
    assert FairOrder(cfg, env, done) == done.queued;
  }

  lemma {:induction false} PassMany(cfg: Config, run: seq<Turn>, w: Setting, a: string, b: string, count: nat)
    returns (longer: seq<Turn>, n: nat)
    requires cfg.Valid() && Passing(cfg, run, w, a, b, 2, 0)
    requires count == 0 || count <= cfg.pools[cfg.PoolFor(a)].maxResidentBurst
    ensures Passing(cfg, longer, w, a, b, n, count)
  {
    longer, n := run, 2;
    if count > 0 {
      longer, n := PassMany(cfg, run, w, a, b, count - 1);
      longer := PassStarts(cfg, longer, w, a, b, n, count - 1);
      longer := PassReturns(cfg, longer, w, a, b, n + 1, count);
      longer := PassReports(cfg, longer, w, a, b, n + 1);
      n := n + 1;
    }
  }

  // --------------------------------------------------------------- the wrong request

  /** A legal run and one more event, whose drain promotes a request that is not the oldest. */
  ghost predicate Wrongs(cfg: Config, run: seq<Turn>, turn: Turn, pool: string)
  {
    && Legal(cfg, run) && Timely(run, turn.env.now) && Enabled(After(cfg, run), turn.event)
    && var t := Drained(cfg, turn.env, After(cfg, run), turn.event);
    t.Some? && !PromotesOldest(cfg, turn.env, t.value, pool)
  }

  /** Only models that run are stopped, and none for itself. */
  ghost predicate StopsRunning(planner: Planner)
  {
    forall q, running, v :: v in planner(q, running) ==> v in running && v != q
  }

  /** The same with one planner, that stops only running models, and these models only. */
  ghost predicate WrongsWith(cfg: Config, run: seq<Turn>, turn: Turn, pool: string, w: Setting, models: set<string>)
  {
    Wrongs(cfg, run, turn, pool) && w.models == models && InSetting(run + [turn], w) && StopsRunning(w.planner)
  }

  /** In a scene the unload of `z` drains the queue as it is. */
  lemma WrongAtLast(cfg: Config, run: seq<Turn>, w: Setting, ready: set<string>, queue: seq<Req>, n: nat, was: int, now: int, pool: string)
    requires Scene(cfg, run, w, queue, n, was) && was <= now && StopsRunning(w.planner)
    requires forall r :: r in queue ==> r.model != w.z
    requires !PromotesOldest(cfg, SceneEnv(w, ready, now), After(cfg, run), pool)
    ensures exists turn :: WrongsWith(cfg, run, turn, pool, w, w.models)
  {
    var turn := Turn(SceneEnv(w, ready, now), Unload([w.z], [w.z]));
    TimelyLater(run, was, now);
    IdleUnload(cfg, turn.env, After(cfg, run), w.z);
    assert WrongsWith(cfg, run, turn, pool, w, w.models);
  }

  /** If a bound is reached and a later cold request is older than the first, the first
      is moved all the same. */
  lemma FirstIsNotOldest(cfg: Config, env: Env, s: State, pool: string, j: nat)
    requires cfg.Valid() && Managed(cfg, env, s, pool) && Promotes(cfg, env, s, pool)
    requires
      var cold := Filter(s.queued, ColdIn(cfg, env, s.active, pool));
      j < |cold| && cold[j].queuedAt < cold[0].queuedAt
    ensures !PromotesOldest(cfg, env, s, pool)
  {
    FirstIsPromoted(cfg, env, s, pool);
    OldestColdIsOldest(cfg, env, s.active, s.queued, pool);
  }

  lemma FilterPair(p: Req, q: Req, keep: Req -> bool)
    ensures Filter([p, q], keep) == (if keep(p) then [p] else []) + if keep(q) then [q] else []
  {
    FilterConcat([p], [q], keep);
    assert [p] + [q] == [p, q] && [p][..0] == [] && [q][..0] == [];
  }

  /** A queue of two requests for models of one pool, one cold and one resident. */
  ghost predicate Pair(cfg: Config, env: Env, s: State, pool: string, cold: Req, resident: Req)
  {
    && (s.queued == [cold, resident] || s.queued == [resident, cold])
    && cfg.PoolFor(cold.model) == cfg.PoolFor(resident.model) == pool
    && IsCold(env, s.active, cold.model) && !IsCold(env, s.active, resident.model)
  }

  lemma PairClasses(cfg: Config, env: Env, s: State, pool: string, cold: Req, resident: Req)
    requires Pair(cfg, env, s, pool, cold, resident)
    ensures Filter(s.queued, ColdIn(cfg, env, s.active, pool)) == [cold]
    ensures Filter(s.queued, ResidentIn(cfg, env, s.active, pool)) == [resident]
    ensures OldestCold(cfg, env, s.active, s.queued, pool) == Some(cold)
  {
    var isCold, isResident := ColdIn(cfg, env, s.active, pool), ResidentIn(cfg, env, s.active, pool);
    if s.queued == [cold, resident] {
      FilterPair(cold, resident, isCold);
      FilterPair(cold, resident, isResident);
    } else {
      FilterPair(resident, cold, isCold);
      FilterPair(resident, cold, isResident);
    }
    OnlyCold(cfg, env, s, pool, cold);
  }

  lemma OnlyCold(cfg: Config, env: Env, s: State, pool: string, cold: Req)
    requires Filter(s.queued, ColdIn(cfg, env, s.active, pool)) == [cold]
    ensures OldestCold(cfg, env, s.active, s.queued, pool) == Some(cold)
  {
    OldestColdIsOldest(cfg, env, s.active, s.queued, pool);
  }

  /** What a drain does to one managed pool. */
  lemma PoolReordered(cfg: Config, env: Env, s: State, pool: string)
    requires cfg.Valid() && Managed(cfg, env, s, pool) && |s.queued| >= 2
    ensures
      var out := FairOrder(cfg, env, s);
      && |out| == |s.queued| && (forall i :: 0 <= i < |out| ==> cfg.PoolFor(out[i].model) == cfg.PoolFor(s.queued[i].model))
      && Filter(out, InPool(cfg, pool)) ==
           Ordered(Filter(s.queued, ResidentIn(cfg, env, s.active, pool)), Filter(s.queued, ColdIn(cfg, env, s.active, pool)),
                   Promotes(cfg, env, s, pool))
  {
    FairOrderIsFair(cfg, env, s);
    assert pool in Elements(cfg.poolNames);
  }

  lemma PoolIsAll(cfg: Config, out: seq<Req>, pool: string)
    requires forall i :: 0 <= i < |out| ==> cfg.PoolFor(out[i].model) == pool
    ensures Filter(out, InPool(cfg, pool)) == out
  {
    FilterUniform(out, InPool(cfg, pool), true);
  }

  /** With a bound reached the cold one comes first. */
  lemma PairPromoted(cfg: Config, env: Env, s: State, pool: string, cold: Req, resident: Req)
    requires cfg.Valid() && pool in cfg.pools && cfg.pools[pool].residentFirst && Pair(cfg, env, s, pool, cold, resident)
    requires BoundReached(cfg.pools[pool], Get(s.bursts, pool), env.now, cold)
    ensures FairOrder(cfg, env, s) == [cold, resident]
  {
    PairClasses(cfg, env, s, pool, cold, resident);
    PairPools(cfg, s.queued, pool, cold, resident);
    PairOrdered(cfg, env, s, pool, cold, resident);
    PoolReordered(cfg, env, s, pool);
    var out := FairOrder(cfg, env, s);
    PoolIsAll(cfg, out, pool);
  }

  lemma PairPools(cfg: Config, queue: seq<Req>, pool: string, p: Req, q: Req)
    requires queue == [p, q] || queue == [q, p]
    requires cfg.PoolFor(p.model) == cfg.PoolFor(q.model) == pool
    ensures |queue| == 2 && forall i :: 0 <= i < |queue| ==> cfg.PoolFor(queue[i].model) == pool
  {
  }

  lemma PairOrdered(cfg: Config, env: Env, s: State, pool: string, cold: Req, resident: Req)
    requires Managed(cfg, env, s, pool) && OldestCold(cfg, env, s.active, s.queued, pool) == Some(cold)
    requires BoundReached(cfg.pools[pool], Get(s.bursts, pool), env.now, cold)
    ensures Ordered([resident], [cold], Promotes(cfg, env, s, pool)) == [cold, resident]
  {
  }

  lemma CountNone(queue: seq<Req>, q: string)
    requires forall r :: r in queue ==> r.model != q
    ensures CountModel(queue, q) == 0
  {
    FilterUniform(queue, (r: Req) => r.model == q, false);
  }

  lemma LongerDiffers(a: string, b: string, c: string)
    ensures
      var x, z := a + b + c + "x", a + b + c + "zz";
      x != z && x != a && x != b && x != c && z != a && z != b && z != c
  {
    assert |a + b + c + "x"| == |a| + |b| + |c| + 1 && |a + b + c + "zz"| == |a| + |b| + |c| + 2;
  }

  lemma PairPlaced(cfg: Config, first: Req, r: Req)
    ensures WithRequest(cfg, [first], r) == [first, r] || WithRequest(cfg, [first], r) == [r, first]
  {
    var i := QueuePlace(cfg, [first], cfg.Priority(r.model));
    if i == 0 {
      assert [first][..0] + [r] + [first][0..] == [r, first];
    } else {
      assert [first][..1] + [r] + [first][1..] == [first, r];
    }
  }

  /** `x` stops `a`; `a` would stop `x` while `b` runs; `b`, stopped, would stop `x`. */
  function PairPlanner(a: string, b: string, x: string): Planner
  {
    (q: string, running: set<string>) =>
      if q == x then (if a in running then [a] else [])
      else if q == a then (if b in running && x in running then [x] else [])
      else if q == b then (if b !in running && x in running then [x] else [])
      else []
  }

  function PairSetting(a: string, b: string, x: string, z: string): Setting
  {
    Setting({a, b, x, z}, PairPlanner(a, b, x), x, [a], z)
  }

  ghost predicate Apart(a: string, b: string, x: string, z: string)
  {
    a != b && x != a && x != b && z != a && z != b && x != z
  }

  lemma PairQueued(cfg: Config, pool: string, a: string, b: string, x: string, z: string) returns (run: seq<Turn>)
    requires cfg.Valid() && pool != "" && pool in cfg.pools && cfg.pools[pool].residentFirst && Apart(a, b, x, z)
    requires cfg.PoolFor(a) == cfg.PoolFor(b) == pool
    ensures Passing(cfg, run, PairSetting(a, b, x, z), a, b, 2, 0)
  {
    var w := PairSetting(a, b, x, z);
    var before := Opening(cfg, w, {a, b});
    CountNone([], a);
    run := Park(cfg, before, w, {a, b}, [], 1, 1, a, 1);
    assert WithRequest(cfg, [], Req(1, a, 1)) == [Req(1, a, 1)];
  }

  /** `a` waits since time 1; `b` is served past it up to the burst bound, goes idle and
      then waits too, since time 2. */
  lemma PairWaits(cfg: Config, pool: string, a: string, b: string, x: string, z: string) returns (run: seq<Turn>, n: nat)
    requires cfg.Valid() && pool != "" && pool in cfg.pools && cfg.pools[pool].residentFirst && Apart(a, b, x, z)
    requires cfg.PoolFor(a) == cfg.PoolFor(b) == pool
    ensures
      var s := After(cfg, run);
      && Scene(cfg, run, PairSetting(a, b, x, z), s.queued, n + 1, 2)
      && (cfg.pools[pool].maxResidentBurst > 0 ==> Get(s.bursts, pool) == cfg.pools[pool].maxResidentBurst)
      && (s.queued == [Req(1, a, 1), Req(n, b, 2)] || s.queued == [Req(n, b, 2), Req(1, a, 1)])
  {
    var w, burst := PairSetting(a, b, x, z), cfg.pools[pool].maxResidentBurst;
    var queued := PairQueued(cfg, pool, a, b, x, z);
    var passed;
    passed, n := PassMany(cfg, queued, w, a, b, if burst > 0 then burst else 0);
    CountNone([Req(1, a, 1)], b);
    run := Park(cfg, passed, w, {a}, [Req(1, a, 1)], n, 1, b, 2);
    PairPlaced(cfg, Req(1, a, 1), Req(n, b, 2));
  }

  /** While `a` still runs it is resident, and `b` is promoted before it. */
  lemma PairSwapped(cfg: Config, pool: string, a: string, b: string, x: string, z: string, now: int)
    returns (run: seq<Turn>, n: nat)
    requires cfg.Valid() && pool != "" && pool in cfg.pools && cfg.pools[pool].residentFirst && Apart(a, b, x, z)
    requires cfg.PoolFor(a) == cfg.PoolFor(b) == pool
    requires
      var policy := cfg.pools[pool];
      now >= 2 && (policy.maxResidentBurst > 0 || (policy.maxResidentWait > 0 && now >= 2 + policy.maxResidentWait))
    ensures Scene(cfg, run, PairSetting(a, b, x, z), [Req(n, b, 2), Req(1, a, 1)], n + 1, now)
    ensures cfg.pools[pool].maxResidentBurst > 0 ==> Get(After(cfg, run).bursts, pool) == cfg.pools[pool].maxResidentBurst
  {
    var w := PairSetting(a, b, x, z);
    var before;
    before, n := PairWaits(cfg, pool, a, b, x, z);
    var s, env := After(cfg, before), SceneEnv(w, {a}, now);
    Asked(w, {a}, now, s, a);
    PairPromoted(cfg, env, s, pool, Req(n, b, 2), Req(1, a, 1));
    run := Stir(cfg, before, w, {a}, s.queued, n + 1, 2, now);
  }

  /** Once `a` is stopped both are cold, and the younger is first. */
  lemma PairIsWrong(cfg: Config, env: Env, s: State, pool: string, younger: Req, elder: Req)
    requires cfg.Valid() && pool in cfg.pools && cfg.pools[pool].residentFirst && s.queued == [younger, elder]
    requires cfg.PoolFor(younger.model) == cfg.PoolFor(elder.model) == pool && elder.queuedAt < younger.queuedAt
    requires IsCold(env, s.active, younger.model) && IsCold(env, s.active, elder.model)
    requires BoundReached(cfg.pools[pool], Get(s.bursts, pool), env.now, elder)
    ensures !PromotesOldest(cfg, env, s, pool)
  {
    FilterPair(younger, elder, ColdIn(cfg, env, s.active, pool));
    OldestColdIsOldest(cfg, env, s.active, s.queued, pool);
    FirstIsNotOldest(cfg, env, s, pool, 1);
  }

  /** Any two models of a bounded pool, given two more models. */
  lemma SharedMisplaces(cfg: Config, pool: string, a: string, b: string, x: string, z: string)
    requires cfg.Valid() && pool != "" && pool in cfg.pools && cfg.pools[pool].residentFirst
    requires cfg.pools[pool].maxResidentBurst > 0 || cfg.pools[pool].maxResidentWait > 0
    requires Apart(a, b, x, z) && cfg.PoolFor(a) == cfg.PoolFor(b) == pool
    ensures exists run, turn, w :: WrongsWith(cfg, run, turn, pool, w, {a, b, x, z})
  {
    var w, wait := PairSetting(a, b, x, z), cfg.pools[pool].maxResidentWait;
    var now := if wait > 0 then 2 + wait else 2;
    var run, n := PairSwapped(cfg, pool, a, b, x, z, now);
    var env := SceneEnv(w, {}, now);
    PairIsWrong(cfg, env, After(cfg, run), pool, Req(n, b, 2), Req(1, a, 1));
    WrongAtLast(cfg, run, w, {}, [Req(n, b, 2), Req(1, a, 1)], n + 1, now, now, pool);
  }

  // --------------------------------------------------- one model, straddled by others

  /** Behind requests of no lower priority a request is placed last. */
  lemma LastPlace(cfg: Config, queue: seq<Req>, r: Req)
    requires forall q :: q in queue ==> cfg.Priority(q.model) >= cfg.Priority(r.model)
    ensures WithRequest(cfg, queue, r) == queue + [r]
  {
    var i := QueuePlace(cfg, queue, cfg.Priority(r.model));
    QueuePlaceIsFirstLower(cfg, queue, cfg.Priority(r.model));
    forall k | 0 <= k < |queue|
      ensures cfg.Priority(queue[k].model) >= cfg.Priority(r.model)
    {
      assert queue[k] in queue;
    }
    assert queue[..|queue|] == queue;
  }

  lemma FilterTriple(p: Req, q: Req, r: Req, keep: Req -> bool)
    ensures Filter([p, q, r], keep) ==
      (if keep(p) then [p] else []) + (if keep(q) then [q] else []) + if keep(r) then [r] else []
  {
    FilterPair(p, q, keep);
    FilterConcat([p, q], [r], keep);
    assert [p, q] + [r] == [p, q, r] && [r][..0] == [];
  }

  /** While `low` still runs it is resident and goes before `high`. */
  lemma TripleOrdered(cfg: Config, env: Env, s: State, high: Req, r: Req, low: Req)
    requires cfg.Valid() && Straddles(cfg, r.model, low.model, high.model) && s.queued == [high, r, low]
    requires IsCold(env, s.active, high.model) && IsCold(env, s.active, r.model) && !IsCold(env, s.active, low.model)
    requires cfg.PoolFor(r.model) in cfg.pools && cfg.pools[cfg.PoolFor(r.model)].residentFirst
    requires var other := cfg.PoolFor(low.model); !BoundReached(cfg.pools[other], Get(s.bursts, other), env.now, high)
    ensures FairOrder(cfg, env, s) == [low, r, high]
  {
    var pool, other, out := cfg.PoolFor(r.model), cfg.PoolFor(low.model), FairOrder(cfg, env, s);
    TripleReordered(cfg, env, s, high, r, low);
    assert cfg.PoolFor(out[0].model) == other && cfg.PoolFor(out[2].model) == other && cfg.PoolFor(out[1].model) == pool;
    TriplePicked(cfg, out, pool, other, low, r, high);
  }

  lemma TripleReordered(cfg: Config, env: Env, s: State, high: Req, r: Req, low: Req)
    requires cfg.Valid() && Straddles(cfg, r.model, low.model, high.model) && s.queued == [high, r, low]
    requires IsCold(env, s.active, high.model) && IsCold(env, s.active, r.model) && !IsCold(env, s.active, low.model)
    requires cfg.PoolFor(r.model) in cfg.pools && cfg.pools[cfg.PoolFor(r.model)].residentFirst
    requires var other := cfg.PoolFor(low.model); !BoundReached(cfg.pools[other], Get(s.bursts, other), env.now, high)
    ensures
      var out := FairOrder(cfg, env, s);
      && |out| == 3 && (forall i :: 0 <= i < 3 ==> cfg.PoolFor(out[i].model) == cfg.PoolFor(s.queued[i].model))
      && Filter(out, InPool(cfg, cfg.PoolFor(low.model))) == [low, high] && Filter(out, InPool(cfg, cfg.PoolFor(r.model))) == [r]
  {
    TripleClasses(cfg, env, s, high, r, low);
    PoolReordered(cfg, env, s, cfg.PoolFor(low.model));
    PoolReordered(cfg, env, s, cfg.PoolFor(r.model));
    assert Ordered([low], [high], false) == [low, high];
    assert Ordered([], [r], Promotes(cfg, env, s, cfg.PoolFor(r.model))) == [r];
  }

  lemma TriplePicked(cfg: Config, out: seq<Req>, pool: string, other: string, p: Req, q: Req, r: Req)
    requires pool != other && |out| == 3
    requires cfg.PoolFor(out[0].model) == cfg.PoolFor(out[2].model) == other && cfg.PoolFor(out[1].model) == pool
    requires Filter(out, InPool(cfg, other)) == [p, r] && Filter(out, InPool(cfg, pool)) == [q]
    ensures out == [p, q, r]
  {
    assert out == [out[0], out[1], out[2]];
    FilterTriple(out[0], out[1], out[2], InPool(cfg, other));
    FilterTriple(out[0], out[1], out[2], InPool(cfg, pool));
    assert [out[0]] + [] + [out[2]] == [p, r] && [] + [out[1]] + [] == [q];
    assert [p, r][0] == p && [p, r][1] == r && [q][0] == q;
  }

  lemma TripleClasses(cfg: Config, env: Env, s: State, high: Req, r: Req, low: Req)
    requires Straddles(cfg, r.model, low.model, high.model) && s.queued == [high, r, low]
    requires IsCold(env, s.active, high.model) && IsCold(env, s.active, r.model) && !IsCold(env, s.active, low.model)
    ensures
      var pool, other := cfg.PoolFor(r.model), cfg.PoolFor(low.model);
      && Filter(s.queued, ColdIn(cfg, env, s.active, pool)) == [r] && Filter(s.queued, ResidentIn(cfg, env, s.active, pool)) == []
      && Filter(s.queued, ColdIn(cfg, env, s.active, other)) == [high]
      && Filter(s.queued, ResidentIn(cfg, env, s.active, other)) == [low]
      && OldestCold(cfg, env, s.active, s.queued, pool) == Some(r) && OldestCold(cfg, env, s.active, s.queued, other) == Some(high)
  {
    var pool, other := cfg.PoolFor(r.model), cfg.PoolFor(low.model);
    FilterTriple(high, r, low, ColdIn(cfg, env, s.active, pool));
    FilterTriple(high, r, low, ResidentIn(cfg, env, s.active, pool));
    FilterTriple(high, r, low, ColdIn(cfg, env, s.active, other));
    FilterTriple(high, r, low, ResidentIn(cfg, env, s.active, other));
    OnlyCold(cfg, env, s, pool, r);
    OnlyCold(cfg, env, s, other, high);
  }

  /** `x` stops `low`; `high` and `m` would stop `x`. */
  function TriplePlanner(high: string, m: string, low: string, x: string): Planner
  {
    (q: string, running: set<string>) =>
      if q == x then (if low in running then [low] else [])
      else if (q == high || q == m) && x in running then [x]
      else []
  }

  function TripleSetting(high: string, m: string, low: string, x: string, z: string): Setting
  {
    Setting({high, m, low, x, z}, TriplePlanner(high, m, low, x), x, [low], z)
  }

  ghost predicate Straddled(cfg: Config, high: string, m: string, low: string, x: string, z: string)
  {
    Straddles(cfg, m, low, high) && x != z && x != high && x != m && x != low && z != high && z != m && z != low
  }

  lemma OneWaits(cfg: Config, high: string, m: string, low: string, x: string, z: string) returns (run: seq<Turn>)
    requires cfg.Valid() && Straddled(cfg, high, m, low, x, z)
    ensures Scene(cfg, run, TripleSetting(high, m, low, x, z), [Req(1, high, 1)], 2, 1)
    ensures forall p :: Get(After(cfg, run).bursts, p) == 0
  {
    var w, h := TripleSetting(high, m, low, x, z), Req(1, high, 1);
    var before := Opening(cfg, w, {low});
    CountNone([], high);
    run := Park(cfg, before, w, {low}, [], 1, 1, high, 1);
    assert WithRequest(cfg, [], h) == [h];
  }

  /** Requests for `high` and `m` wait since time 1, while `low` runs. */
  lemma TwoWait(cfg: Config, high: string, m: string, low: string, x: string, z: string) returns (run: seq<Turn>)
    requires cfg.Valid() && Straddled(cfg, high, m, low, x, z)
    ensures Scene(cfg, run, TripleSetting(high, m, low, x, z), [Req(1, high, 1), Req(2, m, 1)], 3, 1)
    ensures forall p :: Get(After(cfg, run).bursts, p) == 0
  {
    var w, h := TripleSetting(high, m, low, x, z), Req(1, high, 1);
    var before := OneWaits(cfg, high, m, low, x, z);
    CountNone([h], m);
    run := Park(cfg, before, w, {low}, [h], 2, 1, m, 1);
    LastPlace(cfg, [h], Req(2, m, 1));
    assert [h] + [Req(2, m, 1)] == [h, Req(2, m, 1)];
  }

  /** And one for `low`. */
  lemma TripleWaits(cfg: Config, high: string, m: string, low: string, x: string, z: string) returns (run: seq<Turn>)
    requires cfg.Valid() && Straddled(cfg, high, m, low, x, z)
    ensures Scene(cfg, run, TripleSetting(high, m, low, x, z), [Req(1, high, 1), Req(2, m, 1), Req(3, low, 1)], 4, 1)
    ensures forall p :: Get(After(cfg, run).bursts, p) == 0
  {
    var w, queue, l := TripleSetting(high, m, low, x, z), [Req(1, high, 1), Req(2, m, 1)], Req(3, low, 1);
    var before := TwoWait(cfg, high, m, low, x, z);
    CountNone(queue, low);
    run := Park(cfg, before, w, {low}, queue, 3, 1, low, 1);
    LastPlace(cfg, queue, l);
    assert queue + [l] == [queue[0], queue[1], l];
  }

  /** The three in their new order. */
  lemma TripleStirred(cfg: Config, pool: string, high: string, m: string, low: string, x: string, z: string)
    returns (run: seq<Turn>)
    requires cfg.Valid() && pool in cfg.pools && cfg.pools[pool].residentFirst && cfg.PoolFor(m) == pool
    requires Straddled(cfg, high, m, low, x, z)
    ensures Scene(cfg, run, TripleSetting(high, m, low, x, z), [Req(3, low, 1), Req(2, m, 1), Req(1, high, 1)], 4, 1)
  {
    var w, queue := TripleSetting(high, m, low, x, z), [Req(1, high, 1), Req(2, m, 1), Req(3, low, 1)];
    var r1 := TripleWaits(cfg, high, m, low, x, z);
    var s, env := After(cfg, r1), SceneEnv(w, {low}, 1);
    Asked(w, {low}, 1, s, low);
    TripleOrdered(cfg, env, s, queue[0], queue[1], queue[2]);
    run := Stir(cfg, r1, w, {low}, queue, 4, 1, 1);
  }

  /** A second request for `m` then goes before everything. */
  lemma TripleOvertaken(cfg: Config, pool: string, high: string, m: string, low: string, x: string, z: string)
    returns (run: seq<Turn>)
    requires cfg.Valid() && pool in cfg.pools && cfg.pools[pool].residentFirst && cfg.PoolFor(m) == pool && cfg.Limit(m) >= 2
    requires Straddled(cfg, high, m, low, x, z)
    ensures Scene(cfg, run, TripleSetting(high, m, low, x, z),
                  [Req(4, m, 2), Req(3, low, 1), Req(2, m, 1), Req(1, high, 1)], 5, 2)
  {
    var h, r, l := Req(1, high, 1), Req(2, m, 1), Req(3, low, 1);
    var before := TripleStirred(cfg, pool, high, m, low, x, z);
    FilterTriple(l, r, h, (q: Req) => q.model == m);
    run := Park(cfg, before, TripleSetting(high, m, low, x, z), {}, [l, r, h], 4, 1, m, 2);
    assert QueuePlace(cfg, [l, r, h], cfg.Priority(m)) == 0;
    assert [l, r, h][..0] + [Req(4, m, 2)] + [l, r, h][0..] == [Req(4, m, 2), l, r, h];
  }

  /** When the wait is over and nothing runs, the second is promoted. */
  lemma TripleIsWrong(cfg: Config, pool: string, high: string, m: string, low: string, x: string, z: string, s: State)
    requires cfg.Valid() && pool in cfg.pools && cfg.pools[pool].residentFirst && cfg.pools[pool].maxResidentWait > 0
    requires cfg.PoolFor(m) == pool && Straddled(cfg, high, m, low, x, z)
    requires s.queued == [Req(4, m, 2), Req(3, low, 1), Req(2, m, 1), Req(1, high, 1)] && Staged(s, TripleSetting(high, m, low, x, z))
    ensures !PromotesOldest(cfg, SceneEnv(TripleSetting(high, m, low, x, z), {}, 2 + cfg.pools[pool].maxResidentWait), s, pool)
  {
    OvertakerIsWrong(cfg, SceneEnv(TripleSetting(high, m, low, x, z), {}, 2 + cfg.pools[pool].maxResidentWait), s, pool,
                     s.queued[0], s.queued[1], s.queued[2], s.queued[3]);
  }

  lemma TripleStops(high: string, m: string, low: string, x: string)
    requires x != high && x != m && x != low
    ensures StopsRunning(TriplePlanner(high, m, low, x))
  {
  }

  /** Any model that may queue twice and is straddled, given two more models. */
  lemma OvertakableMisplaces(cfg: Config, pool: string, m: string, low: string, high: string, x: string, z: string)
    requires cfg.Valid() && pool in cfg.pools && cfg.pools[pool].residentFirst && cfg.pools[pool].maxResidentWait > 0
    requires cfg.PoolFor(m) == pool && cfg.Limit(m) >= 2 && Straddled(cfg, high, m, low, x, z)
    ensures exists run, turn, w :: WrongsWith(cfg, run, turn, pool, w, {high, m, low, x, z})
  {
    var w := TripleSetting(high, m, low, x, z);
    var queue := [Req(4, m, 2), Req(3, low, 1), Req(2, m, 1), Req(1, high, 1)];
    var run := TripleOvertaken(cfg, pool, high, m, low, x, z);
    var now := 2 + cfg.pools[pool].maxResidentWait;
    TripleIsWrong(cfg, pool, high, m, low, x, z, After(cfg, run));
    TripleStops(high, m, low, x);
    WrongAtLast(cfg, run, w, {}, queue, 5, 2, now, pool);
    var turn :| WrongsWith(cfg, run, turn, pool, w, w.models);
  }

  lemma OvertakerIsWrong(cfg: Config, env: Env, s: State, pool: string, late: Req, low: Req, early: Req, high: Req)
    requires cfg.Valid() && pool in cfg.pools && cfg.pools[pool].residentFirst && s.queued == [late, low, early, high]
    requires cfg.PoolFor(late.model) == cfg.PoolFor(early.model) == pool && early.queuedAt < late.queuedAt
    requires cfg.PoolFor(low.model) != pool && cfg.PoolFor(high.model) != pool
    requires IsCold(env, s.active, late.model) && IsCold(env, s.active, early.model)
    requires BoundReached(cfg.pools[pool], Get(s.bursts, pool), env.now, early)
    ensures !PromotesOldest(cfg, env, s, pool)
  {
    var keep := ColdIn(cfg, env, s.active, pool);
    FilterPair(late, low, keep);
    FilterPair(early, high, keep);
    FilterConcat([late, low], [early, high], keep);
    assert [late, low] + [early, high] == s.queued;
    OldestColdIsOldest(cfg, env, s.active, s.queued, pool);
    FirstIsNotOldest(cfg, env, s, pool, 1);
  }

  // ----------------------------------------------------------------------- exactly when

  /** In a resident-first pool some drain of some run promotes a cold request that has
      not waited longest, exactly when the configuration lets it: a bound is set and the
      pool has two models; or waiting is bounded, and a model of the pool may queue twice
      and another resident-first pool straddles its priority. */
  lemma PromotedIsOldestExactlyWhen(cfg: Config, pool: string)
    requires cfg.Valid() && pool != "" && pool in cfg.pools && cfg.pools[pool].residentFirst
    ensures (exists run, turn :: Wrongs(cfg, run, turn, pool)) <==> Misplaces(cfg, pool)
  {
    if Misplaces(cfg, pool) {
      SomeRunMisplaces(cfg, pool);
    } else {
      forall run, turn: Turn | Wrongs(cfg, run, turn, pool)
        ensures false
      {
        GoodConfigurations(cfg, run, turn, pool);
      }
    }
  }

  lemma SomeRunMisplaces(cfg: Config, pool: string)
    requires cfg.Valid() && pool != "" && pool in cfg.pools && cfg.pools[pool].residentFirst && Misplaces(cfg, pool)
    ensures exists run, turn :: Wrongs(cfg, run, turn, pool)
  {
    var policy := cfg.pools[pool];
    if (policy.maxResidentBurst > 0 || policy.maxResidentWait > 0) && Shared(cfg, pool) {
      var a, b :| a != b && cfg.PoolFor(a) == pool && cfg.PoolFor(b) == pool;
      var x, z := a + b + "" + "x", a + b + "" + "zz";
      LongerDiffers(a, b, "");
      SharedMisplaces(cfg, pool, a, b, x, z);
      var run, turn, w :| WrongsWith(cfg, run, turn, pool, w, {a, b, x, z});
      assert Wrongs(cfg, run, turn, pool);
    } else {
      var m, low, high :| cfg.PoolFor(m) == pool && cfg.Limit(m) >= 2 && Straddles(cfg, m, low, high);
      var x, z := high + m + low + "x", high + m + low + "zz";
      LongerDiffers(high, m, low);
      OvertakableMisplaces(cfg, pool, m, low, high, x, z);
      var run, turn, w :| WrongsWith(cfg, run, turn, pool, w, {high, m, low, x, z});
      assert Wrongs(cfg, run, turn, pool);
    }
  }
}
