/** The router and one provider manager together. Every lease call that the router makes
    for a model of the provider is a step of the provider, answered by its state at that
    moment; all other provider steps happen whenever they like, also in the middle of a
    turn of the router's run loop. */
module LeaseCoupling {
  import F = FifoSpec
  import FI = FifoInvariant
  import FR = FifoRuns
  import FL = FifoLeases
  import P = ProviderSpec
  import PR = ProviderRuns

  datatype Both = Both(f: F.State, p: P.State)

  datatype Step =
    | Turn(env: F.Env, event: F.Event, during: seq<P.Step>)
    | Lifecycle(step: P.Step)

  /** The provider can take these steps one after the other. */
  ghost predicate CanTake(pcfg: P.Config, p: P.State, steps: seq<P.Step>)
    decreases |steps|, 0
  {
    steps == [] ||
    (CanTake(pcfg, p, steps[..|steps| - 1]) && P.Enabled(Taken(pcfg, p, steps[..|steps| - 1]), steps[|steps| - 1]))
  }

  ghost function Taken(pcfg: P.Config, p: P.State, steps: seq<P.Step>): P.State
    requires CanTake(pcfg, p, steps)
    decreases |steps|, 1
  {
    if steps == [] then p else P.Next(pcfg, Taken(pcfg, p, steps[..|steps| - 1]), steps[|steps| - 1])
  }

  /** The lease call that a provider step answers, if it is one. */
  function CallOf(p: P.State, step: P.Step): seq<F.Effect>
  {
    match step
    case Acquire(a) => [F.LeaseAsked(a, P.Servable(p, a))]
    case Release(a) => [F.LeaseReturned(a)]
    case _ => []
  }

  ghost function Answering(pcfg: P.Config, p: P.State, steps: seq<P.Step>): seq<F.Effect>
    requires CanTake(pcfg, p, steps)
  {
    if steps == [] then []
    else
      var before := steps[..|steps| - 1];
      Answering(pcfg, p, before) + CallOf(Taken(pcfg, p, before), steps[|steps| - 1])
  }

  predicate IsCall(pcfg: P.Config, e: F.Effect)
  {
    (e.LeaseAsked? || e.LeaseReturned?) && e.model in pcfg.bindings
  }

  /** The lease calls for models of this provider, in order. */
  function Calls(pcfg: P.Config, effects: seq<F.Effect>): seq<F.Effect>
  {
    if effects == [] then []
    else
      var e := effects[|effects| - 1];
      Calls(pcfg, effects[..|effects| - 1]) + if IsCall(pcfg, e) then [e] else []
  }

  // ------------------------------------------------------------------- joint runs

  /** What a turn adds to the router's log. */
  ghost function Noted(cfg: F.Config, f: F.State, env: F.Env, event: F.Event): seq<F.Effect>
  {
    var t := F.Step(cfg, env, f, event);
    if |f.log| <= |t.log| then t.log[|f.log|..] else []
  }

  /** During a turn the provider answers exactly the turn's lease calls; on its own it
      does anything else. */
  ghost predicate Enabled(cfg: F.Config, pcfg: P.Config, b: Both, step: Step)
  {
    match step
    case Turn(env, event, during) =>
      && FR.Enabled(b.f, event) && CanTake(pcfg, b.p, during)
      && Answering(pcfg, b.p, during) == Calls(pcfg, Noted(cfg, b.f, env, event))
    case Lifecycle(step) => P.Enabled(b.p, step) && !step.Acquire? && !step.Release?
  }

  ghost function Next(cfg: F.Config, pcfg: P.Config, b: Both, step: Step): Both
    requires Enabled(cfg, pcfg, b, step)
  {
    match step
    case Turn(env, event, during) => Both(F.Step(cfg, env, b.f, event), Taken(pcfg, b.p, during))
    case Lifecycle(step) => b.(p := P.Next(pcfg, b.p, step))
  }

  ghost function After(cfg: F.Config, pcfg: P.Config, run: seq<Step>): Both
    requires Legal(cfg, pcfg, run)
    decreases |run|, 1
  {
    if run == [] then Both(F.EMPTY, PR.Initial(pcfg))
    else Next(cfg, pcfg, After(cfg, pcfg, run[..|run| - 1]), run[|run| - 1])
  }

  ghost predicate Legal(cfg: F.Config, pcfg: P.Config, run: seq<Step>)
    decreases |run|, 0
  {
    run == [] ||
    (Legal(cfg, pcfg, run[..|run| - 1]) && Enabled(cfg, pcfg, After(cfg, pcfg, run[..|run| - 1]), run[|run| - 1]))
  }

  // --------------------------------------------------------------------- agreement

  /** The provider counts the leases that the router holds. */
  ghost predicate Agreed(pcfg: P.Config, b: Both)
  {
    forall m :: m in pcfg.bindings ==> P.Get(b.p.active, m) == F.Get(b.f.leases, m)
  }

  /** One provider step changes a count as its call does. */
  lemma StepCounts(pcfg: P.Config, p: P.State, step: P.Step, m: string)
    requires P.Enabled(p, step) && m in pcfg.bindings
    ensures P.Get(P.Next(pcfg, p, step).active, m) == FL.Replay(P.Get(p.active, m), CallOf(p, step), m)
  {
    if step.Acquire? || step.Release? {
      assert CallOf(p, step)[..0] == [];
    } else if !step.Health? {
      PR.MostStepsAreCalm(pcfg, p, step);
    }
  }

  lemma {:induction false} StepsCount(pcfg: P.Config, p: P.State, steps: seq<P.Step>, m: string)
    requires CanTake(pcfg, p, steps) && m in pcfg.bindings
    ensures P.Get(Taken(pcfg, p, steps).active, m) == FL.Replay(P.Get(p.active, m), Answering(pcfg, p, steps), m)
  {
    if steps != [] {
      var before, last := steps[..|steps| - 1], steps[|steps| - 1];
      StepsCount(pcfg, p, before, m);
      StepCounts(pcfg, Taken(pcfg, p, before), last, m);
      FL.ReplaySplit(P.Get(p.active, m), Answering(pcfg, p, before), CallOf(Taken(pcfg, p, before), last), m);
    }
  }

  /** Only the calls for a provider's models matter to their counts. */
  lemma {:induction false} CallsCount(pcfg: P.Config, n: int, effects: seq<F.Effect>, m: string)
    requires m in pcfg.bindings
    ensures FL.Replay(n, Calls(pcfg, effects), m) == FL.Replay(n, effects, m)
    ensures FL.AsksFor(Calls(pcfg, effects), m) ==> FL.AsksFor(effects, m)
  {
    if effects != [] {
      var before, e := effects[..|effects| - 1], effects[|effects| - 1];
      var one := if IsCall(pcfg, e) then [e] else [];
      CallsCount(pcfg, n, before, m);
      FL.ReplaySplit(n, Calls(pcfg, before), one, m);
      FL.AsksOfBoth(Calls(pcfg, before), one, m);
      if FL.AsksFor(before, m) {
        var i :| 0 <= i < |before| && before[i].LeaseAsked? && before[i].model == m;
        assert effects[i] == before[i];
      }
      if FL.AsksFor(one, m) {
        assert effects[|effects| - 1] == one[0];
      }
      assert one == [e] ==> one[..0] == [];
    }
  }

  lemma TurnAgrees(cfg: F.Config, pcfg: P.Config, b: Both, step: Step, m: string)
    requires cfg.Valid() && FI.Inv(cfg, b.f) && Agreed(pcfg, b) && step.Turn? && Enabled(cfg, pcfg, b, step)
    requires m in pcfg.bindings
    ensures var n := Next(cfg, pcfg, b, step); P.Get(n.p.active, m) == F.Get(n.f.leases, m)
  {
    FL.EventFollows(cfg, step.env, b.f, step.event, F.None, m);
    StepsCount(pcfg, b.p, step.during, m);
    CallsCount(pcfg, F.Get(b.f.leases, m), Noted(cfg, b.f, step.env, step.event), m);
  }

  lemma StepAgrees(cfg: F.Config, pcfg: P.Config, b: Both, step: Step)
    requires cfg.Valid() && FI.Inv(cfg, b.f) && Agreed(pcfg, b) && Enabled(cfg, pcfg, b, step)
    ensures FI.Inv(cfg, Next(cfg, pcfg, b, step).f) && Agreed(pcfg, Next(cfg, pcfg, b, step))
  {
    if step.Turn? {
      FR.EventKeepsInvariant(cfg, step.env, b.f, step.event);
    }
    forall m | m in pcfg.bindings
      ensures P.Get(Next(cfg, pcfg, b, step).p.active, m) == F.Get(Next(cfg, pcfg, b, step).f.leases, m)
    {
      if step.Turn? {
        TurnAgrees(cfg, pcfg, b, step, m);
      } else {
        StepCounts(pcfg, b.p, step.step, m);
      }
    }
  }

  lemma {:induction false} RunsAgree(cfg: F.Config, pcfg: P.Config, run: seq<Step>)
    requires cfg.Valid() && Legal(cfg, pcfg, run)
    ensures FI.Inv(cfg, After(cfg, pcfg, run).f) && Agreed(pcfg, After(cfg, pcfg, run))
  {
    if run == [] {
      FR.EmptyInv(cfg);
    } else {
      RunsAgree(cfg, pcfg, run[..|run| - 1]);
      StepAgrees(cfg, pcfg, After(cfg, pcfg, run[..|run| - 1]), run[|run| - 1]);
    }
  }

  // ------------------------------------------------- unloads find nobody being served

  /** While a swap is active the provider has no lease on any of its models that the
      swap stops; so whatever unloads one of them for the swap finds none, neither when
      it checks nor when it calls the provider. */
  lemma StoppedModelsAreUnleased(cfg: F.Config, pcfg: P.Config, run: seq<Step>, a: string, m: string)
    requires cfg.Valid() && Legal(cfg, pcfg, run) && m in pcfg.bindings
    requires a in After(cfg, pcfg, run).f.active && m in After(cfg, pcfg, run).f.active[a].evict
    ensures P.Get(After(cfg, pcfg, run).p.active, m) == 0
  {
    RunsAgree(cfg, pcfg, run);
    FR.EvicteeIsIdle(cfg, After(cfg, pcfg, run).f, a, m);
  }

  /** While a swap goes on, no turn asks for a lease on a model it stops. */
  lemma NobodyAsks(cfg: F.Config, pcfg: P.Config, b: Both, step: Step, a: string, m: string)
    requires FI.Inv(cfg, b.f) && a in b.f.active && m in b.f.active[a].evict && m in pcfg.bindings
    requires step.Turn? && Enabled(cfg, pcfg, b, step) && !FL.Ends(step.event, a)
    ensures !FL.AsksFor(Answering(pcfg, b.p, step.during), m)
  {
    FL.EventFollows(cfg, step.env, b.f, step.event, F.Some(a), m);
    CallsCount(pcfg, 0, Noted(cfg, b.f, step.env, step.event), m);
  }

  lemma FewerAsks(early: seq<F.Effect>, all: seq<F.Effect>, m: string)
    requires early <= all && !FL.AsksFor(all, m)
    ensures !FL.AsksFor(early, m)
  {
    assert forall i :: 0 <= i < |early| ==> early[i] == all[i];
  }

  /** The same in the middle of a turn, after any of the provider's steps during it,
      unless the turn ends the swap. */
  lemma NorDuringATurn(cfg: F.Config, pcfg: P.Config, run: seq<Step>, step: Step, k: nat, a: string, m: string)
    requires cfg.Valid() && Legal(cfg, pcfg, run) && m in pcfg.bindings
    requires a in After(cfg, pcfg, run).f.active && m in After(cfg, pcfg, run).f.active[a].evict
    requires step.Turn? && Enabled(cfg, pcfg, After(cfg, pcfg, run), step) && !FL.Ends(step.event, a) && k <= |step.during|
    ensures
      var p := After(cfg, pcfg, run).p;
      CanTake(pcfg, p, step.during[..k]) && P.Get(Taken(pcfg, p, step.during[..k]).active, m) == 0
  {
    var b := After(cfg, pcfg, run);
    RunsAgree(cfg, pcfg, run);
    StoppedModelsAreUnleased(cfg, pcfg, run, a, m);
    NobodyAsks(cfg, pcfg, b, step, a, m);
    FirstSteps(pcfg, b.p, step.during, k);
    var early := Answering(pcfg, b.p, step.during[..k]);
    FewerAsks(early, Answering(pcfg, b.p, step.during), m);
    StepsCount(pcfg, b.p, step.during[..k], m);
    FL.NothingAsked(early, m);
  }

  lemma {:induction false} FirstSteps(pcfg: P.Config, p: P.State, steps: seq<P.Step>, k: nat)
    requires CanTake(pcfg, p, steps) && k <= |steps|
    ensures CanTake(pcfg, p, steps[..k]) && Answering(pcfg, p, steps[..k]) <= Answering(pcfg, p, steps)
  {
    if k < |steps| {
      FirstSteps(pcfg, p, steps[..|steps| - 1], k);
      assert steps[..|steps| - 1][..k] == steps[..k];
    } else {
      assert steps[..k] == steps;
    }
  }
}
