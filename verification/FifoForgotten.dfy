/** What an unload leaves open when it drops an active swap whose goroutine goes on: the
    models that swap is stopping may be served again. */
module FifoForgotten {
  import opened Names
  import opened FifoSpec
  import opened FifoInvariant
  import opened FifoLeases
  import opened FifoOrder
  import opened FifoPromotion
  import opened FifoQueue
  import opened FifoRuns
  import opened FifoScenes

  // --------------------------------------------------------------- who may be served

  /** The event gives the request a running handler. */
  ghost predicate ServedNow(cfg: Config, env: Env, s: State, req: Req)
  {
    Get(OnRequest(cfg, env, s, req).serving, req.model) > Get(s.serving, req.model)
  }

  lemma OthersNotServed(cfg: Config, env: Env, s: State, req: Req)
    ensures Enqueue(cfg, env, s, req).serving == s.serving
    ensures StartSwap(cfg, s, req, Evictions(env, s.active, req.model)).serving == s.serving
    ensures req.model in s.active ==> Join(s, req).serving == s.serving
  {
  }

  lemma ServedMeans(cfg: Config, env: Env, s: State, req: Req)
    requires Get(Decide(cfg, env, s, req).serving, req.model) > Get(s.serving, req.model)
    ensures req.model !in s.active && Evictors(s.active, req.model) == {}
  {
    OthersNotServed(cfg, env, s, req);
    var evict := Evictions(env, s.active, req.model);
    assert req.model !in s.active;
    assert env.IsReady(req.model) && evict == [] && !Collides(req.model, evict, s.active);
    NoEvictors(s.active, req.model, []);
  }

  function AskedFor(s: State, m: string): set<string> { {m} + set r | r in s.queued :: r.model }

  /** An environment that leaves nothing in the way: every process asked for is ready and
      the planner stops nobody. */
  function Welcoming(s: State, m: string): Env
  {
    Env(map q | q in AskedFor(s, m) :: Ready, (q: string, running: set<string>) => [],
        (id: nat) => true, (id: nat) => true, (id: nat) => true, 1)
  }

  lemma NobodyCold(cfg: Config, s: State, t: State, m: string, pool: string)
    requires t.queued == s.queued
    ensures OldestCold(cfg, Welcoming(s, m), t.active, t.queued, pool) == None
  {
    var env := Welcoming(s, m);
    OldestColdIsOldest(cfg, env, t.active, t.queued, pool);
    FilterUniform(t.queued, ColdIn(cfg, env, t.active, pool), false);
  }

  /** A resident model that nothing holds back serves a caller that is there. */
  lemma ServesAtOnce(cfg: Config, env: Env, s: State, req: Req)
    requires env.IsReady(req.model) && Get(s.reserved, req.model) < cfg.Limit(req.model) && req.model !in s.active
    requires Evictions(env, s.active, req.model) == [] && !Collides(req.model, [], s.active)
    requires !ShouldYield(cfg, env, Admit(s, req), req.model)
    requires env.listening(req.id) && env.lends(req.id) && env.receives(req.id)
    ensures ServedNow(cfg, env, s, req) && OnRequest(cfg, env, s, req).active == s.active
  {
    var admitted := Admit(s, req);
    assert OnRequest(cfg, env, s, req) == ServedAtOnce(cfg, env, admitted, req);
    var noted := Log(admitted, FastPath(req.id, req.model, ColdWaits(cfg, env, admitted, req.model)));
    var recorded := RecordResident(cfg, env, noted, req.model);
    GrantedCounts(cfg, env, recorded, req, req.model);
    assert Framed(recorded, ServedAtOnce(cfg, env, admitted, req));
  }

  lemma WelcomeServes(cfg: Config, s: State, n: nat, m: string)
    requires m !in s.active && Evictors(s.active, m) == {} && Get(s.reserved, m) < cfg.Limit(m)
    ensures ServedNow(cfg, Welcoming(s, m), s, Req(n, m, 0))
  {
    forall id | id in s.active
      ensures m !in s.active[id].evict
    {
      assert m in s.active[id].evict ==> id in Evictors(s.active, m);
    }
    assert !Collides(m, [], s.active);
    NobodyCold(cfg, s, Admit(s, Req(n, m, 0)), m, cfg.PoolFor(m));
    ServesAtOnce(cfg, Welcoming(s, m), s, Req(n, m, 0));
  }

  /** A new request may be served at once, depending on its model's process, the planner
      and its caller, exactly when its model is not about to be swapped in, no active
      swap stops it, and it has a slot left. */
  lemma ServedExactlyWhen(cfg: Config, s: State, n: nat, m: string)
    ensures
      (exists env :: ServedNow(cfg, env, s, Req(n, m, 0))) <==>
      (m !in s.active && Evictors(s.active, m) == {} && Get(s.reserved, m) < cfg.Limit(m))
  {
    if env :| ServedNow(cfg, env, s, Req(n, m, 0)) {
      var req := Req(n, m, 0);
      assert OnRequest(cfg, env, s, req) == Decide(cfg, env, Admit(s, req), req);
      ServedMeans(cfg, env, Admit(s, req), req);
    }
    if m !in s.active && Evictors(s.active, m) == {} && Get(s.reserved, m) < cfg.Limit(m) {
      WelcomeServes(cfg, s, n, m);
    }
  }

  // ----------------------------------------------------------- after a forgotten swap

  /** The swaps after an unload: those it did not drop, and those its drain started. */
  lemma UnloadGoesOn(cfg: Config, env: Env, s: State, targets: seq<string>, order: seq<string>)
    ensures
      var t := OnUnload(cfg, env, s, targets, order);
      forall id :: id in s.active && id !in order ==> id in t.active && t.active[id].evict == s.active[id].evict
  {
    var mid := DropSwaps(s, order);
    var dropped := DropQueued(mid, targets);
    DropsOnly(s, order);
    ErrorKeepsSwaps(mid, Filter(mid.queued, Targeted(targets)));
    DrainAllGoesOn(cfg, env, dropped, FairOrder(cfg, env, dropped));
  }

  /** A swap that an event has started. */
  ghost predicate StartedSince(s: State, t: State, order: seq<string>, id: string)
  {
    id in t.active && (id !in s.active || id in order)
  }

  /** An unload drops the swap for `a`, which was stopping `m` and goes on doing so. A new
      request for `m` may then be served at once exactly when `m` itself is not being
      swapped in, it has a slot left, and no swap that this unload's own drain started
      stops it. */
  lemma ServedDespiteForgottenSwap(cfg: Config, run: seq<Turn>, turn: Turn, n: nat, a: string, m: string)
    requires cfg.Valid() && Legal(cfg, run) && turn.event.Unload? && Enabled(After(cfg, run), turn.event)
    requires a in turn.event.order && a in After(cfg, run).active && m in After(cfg, run).active[a].evict
    ensures
      var s, t := After(cfg, run), Step(cfg, turn.env, After(cfg, run), turn.event);
      (exists env :: ServedNow(cfg, env, t, Req(n, m, 0))) <==>
      (&& m !in t.active && Get(t.reserved, m) < cfg.Limit(m)
       && forall id :: StartedSince(s, t, turn.event.order, id) ==> m !in t.active[id].evict)
  {
    var s, t, order := After(cfg, run), Step(cfg, turn.env, After(cfg, run), turn.event), turn.event.order;
    RunsKeepInvariant(cfg, run);
    UnloadGoesOn(cfg, turn.env, s, turn.event.targets, order);
    ServedExactlyWhen(cfg, t, n, m);
    forall id | id in t.active && m in t.active[id].evict
      ensures StartedSince(s, t, order, id)
    {
      OneStops(s.active, a, id, m);
    }
    assert forall id :: id in Evictors(t.active, m) <==> id in t.active && m in t.active[id].evict;
  }

  /** Compatible swaps do not stop the same model. */
  lemma OneStops(active: map<string, Swap>, a: string, id: string, m: string)
    requires Compatible(active) && a in active && m in active[a].evict
    ensures id in active && id != a ==> m !in active[id].evict
  {
    var i :| 0 <= i < |active[a].evict| && active[a].evict[i] == m;
    assert id in active && m in active[id].evict ==> Overlap(active[a].evict, active[id].evict);
  }

  // ------------------------------------------------------------------- such a run

  /** The swap goroutine for `x` has not reported. */
  ghost predicate Unreported(run: seq<Turn>, x: string)
  {
    forall i :: 0 <= i < |run| ==> !(run[i].event.SwapDone? && run[i].event.model == x)
  }

  /** The swap for `x` was started to stop `m`; it has not reported, yet it is no longer
      active and a handler for `m` runs. */
  ghost predicate ServedWhileStopped(cfg: Config, run: seq<Turn>, x: string, m: string)
  {
    && Legal(cfg, run) && SwapStarted(x, [m]) in After(cfg, run).log && Unreported(run, x)
    && x !in After(cfg, run).active && Get(After(cfg, run).serving, m) > 0
  }

  /** `x` stops `m`, whoever asks. */
  function OneSetting(x: string, m: string): Setting
  {
    Setting({m, x}, (q: string, running: set<string>) => if q == x && m in running then [m] else [], x, [m], m)
  }

  /** A run for any two models: `m` runs; a swap for `x` starts to stop it; `x` is
      unloaded, which drops the swap but not its goroutine; and `m`, still running, is
      asked for. */
  lemma ForgottenSwapServes(cfg: Config, x: string, m: string)
    requires cfg.Valid() && x != m
    ensures exists run :: ServedWhileStopped(cfg, run, x, m)
  {
    var w := OneSetting(x, m);
    var opening := Opening(cfg, w, {m});
    var forgetting := Forgets(cfg, opening, w, x, m);
    var run := AsksAgain(cfg, forgetting, w, x, m);
    ThreeUnreported(opening, forgetting, run, x);
    assert ServedWhileStopped(cfg, run, x, m);
  }

  lemma ThreeUnreported(one: seq<Turn>, two: seq<Turn>, three: seq<Turn>, x: string)
    requires |one| == 1 && |two| == 2 && |three| == 3 && two[..1] == one && three[..2] == two
    requires !one[0].event.SwapDone? && !two[1].event.SwapDone? && !three[2].event.SwapDone?
    ensures Unreported(three, x)
  {
    assert three[0] == two[0] == one[0] && three[1] == two[1];
  }

  lemma AsksAgain(cfg: Config, run: seq<Turn>, w: Setting, x: string, m: string) returns (longer: seq<Turn>)
    requires cfg.Valid() && x != m && w == OneSetting(x, m) && Legal(cfg, run) && Timely(run, 1) && InSetting(run, w)
    requires
      var s := After(cfg, run);
      && s.active == map[] && s.queued == [] && s.inFlight == map[] && Newest(s.log, 1) && SwapStarted(x, [m]) in s.log
    ensures longer == run + [Turn(SceneEnv(w, {m}, 1), Request(Req(1, m, 0)))] && Legal(cfg, longer)
    ensures
      var t := After(cfg, longer);
      t.active == map[] && Get(t.serving, m) > 0 && SwapStarted(x, [m]) in t.log
  {
    var s, env, req := After(cfg, run), SceneEnv(w, {m}, 1), Req(1, m, 0);
    SlotsAreConserved(cfg, run, m);
    RunsKeepInvariant(cfg, run);
    assert MeteredFor(cfg, s, m);
    assert OldestCold(cfg, env, s.active, [], cfg.PoolFor(m)) == None;
    ServesAtOnce(cfg, env, s, req);
    RequestFollows(cfg, env, s, req, None, m);
    longer := Take(cfg, run, Turn(env, Request(req)), w);
  }

  lemma Forgets(cfg: Config, run: seq<Turn>, w: Setting, x: string, m: string) returns (longer: seq<Turn>)
    requires cfg.Valid() && x != m && w == OneSetting(x, m) && Scene(cfg, run, w, [], 1, 1)
    requires SwapStarted(x, [m]) in After(cfg, run).log
    ensures longer == run + [Turn(SceneEnv(w, {m}, 1), Unload([x], [x]))]
    ensures Legal(cfg, longer) && Timely(longer, 1) && InSetting(longer, w)
    ensures
      var s := After(cfg, longer);
      && s.active == map[] && s.queued == [] && s.inFlight == map[] && Newest(s.log, 1) && SwapStarted(x, [m]) in s.log
  {
    var s, env := After(cfg, run), SceneEnv(w, {m}, 1);
    longer := Take(cfg, run, Turn(env, Unload([x], [x])), w);
    var t := DropSwap(s, x);
    ErrorsOnly(s.(active := s.active - {x}), s.active[x].waiters, SwapStarted(x, [m]));
    assert [x][..0] == [] && DropSwaps(s, []) == s && DropSwaps(s, [x]) == t;
    assert DropQueued(t, [x]) == t;
    assert After(cfg, longer) == t;
  }

  /** Errors admit nothing, and the log keeps what it has. */
  lemma {:induction false} ErrorsOnly(s: State, reqs: seq<Req>, e: Effect)
    ensures
      var t := ErrorEach(s, reqs, Unloaded);
      && t.active == s.active && t.queued == s.queued && t.inFlight == s.inFlight
      && AdmittedIn(t.log) == AdmittedIn(s.log) && (e in s.log ==> e in t.log)
  {
    if reqs != [] {
      var before, r := ErrorEach(s, reqs[..|reqs| - 1], Unloaded), reqs[|reqs| - 1];
      ErrorsOnly(s, reqs[..|reqs| - 1], e);
      LogStep(before.log, Errored(r.id, Unloaded));
    }
  }
}
