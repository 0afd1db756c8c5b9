/** Which leases an ordinary unload meets at the provider: those granted after its
    check and not yet returned. */
module UnloadLeases {
  import opened Names
  import opened ProviderSpec
  import opened ProviderRuns

  /** The step is the region that checks whether `a` may be unloaded. */
  ghost predicate Checks(s: State, step: Step, a: string)
  {
    step.Advance? && s.op == Unload(a, UnloadDeciding)
  }

  /** The leases on `a` granted since an unload last checked it. */
  ghost function Granted(cfg: Config, run: seq<Step>, a: string): nat
    requires Legal(cfg, run)
  {
    if run == [] then 0
    else
      var before, step := run[..|run| - 1], run[|run| - 1];
      if Checks(After(cfg, before), step, a) then 0
      else Granted(cfg, before, a) + if step == Acquire(a) && Servable(After(cfg, before), a) then 1 else 0
  }

  /** The leases on `a` returned since. */
  ghost function Returned(cfg: Config, run: seq<Step>, a: string): nat
    requires Legal(cfg, run)
  {
    if run == [] then 0
    else
      var before, step := run[..|run| - 1], run[|run| - 1];
      var s := After(cfg, before);
      if Checks(s, step, a) then 0
      else Returned(cfg, before, a) + if step == Release(a) && a in cfg.bindings && Get(s.active, a) > 0 then 1 else 0
  }

  lemma CountsNext(cfg: Config, run: seq<Step>, step: Step, a: string)
    requires Legal(cfg, run) && Legal(cfg, run + [step])
    ensures
      var s := After(cfg, run);
      && Granted(cfg, run + [step], a) ==
           (if Checks(s, step, a) then 0
            else Granted(cfg, run, a) + if step == Acquire(a) && Servable(s, a) then 1 else 0)
      && Returned(cfg, run + [step], a) ==
           (if Checks(s, step, a) then 0
            else Returned(cfg, run, a) + if step == Release(a) && a in cfg.bindings && Get(s.active, a) > 0 then 1 else 0)
  {
    assert (run + [step])[..|run|] == run;
  }

  /** The unload of `a` has passed its check and not been settled. */
  ghost predicate Underway(op: Op, a: string)
  {
    op == Unload(a, UnloadMarking) || op == Unload(a, UnloadCalling)
  }

  /** From the check on, the leases held are those granted less those returned; from
      the mark on, the model is unloading. */
  ghost predicate Metered(cfg: Config, run: seq<Step>, a: string)
    requires Legal(cfg, run)
  {
    var s := After(cfg, run);
    && (Underway(s.op, a) ==> Get(s.active, a) == Granted(cfg, run, a) - Returned(cfg, run, a))
    && (s.op == Unload(a, UnloadCalling) ==> StateOf(s, a) == Some(Unloading))
    && (s.op.Reconciling? ==> !Underway(s.op.ok, a) && !Underway(s.op.err, a))
  }

  ghost predicate Meters(s: State, step: Step, n: State, a: string)
  {
    && (Underway(n.op, a) ==> Underway(s.op, a) || (Checks(s, step, a) && Get(n.active, a) == 0))
    && (n.op.Reconciling? ==> !Underway(n.op.ok, a) && !Underway(n.op.err, a))
    && (n.op == Unload(a, UnloadCalling) && s.op != n.op ==> StateOf(n, a) == Some(Unloading))
  }

  lemma RestoreMeters(cfg: Config, s: State, a: string)
    requires Formed(s.op) && s.op.Restore?
    ensures Meters(s, Advance, Advanced(cfg, s), a)
  {
    assert !Underway(RestoreDecision(cfg, s, s.op.t, s.op.items, s.op.at).op, a);
  }

  lemma AdvanceMeters(cfg: Config, s: State, a: string)
    requires Enabled(s, Advance) && LeasedFor(s, a)
    ensures Meters(s, Advance, Advanced(cfg, s), a)
  {
    match s.op {
      case Restore(_, _, _) => RestoreMeters(cfg, s, a);
      case Unload(_, _) => UnloadMeters(cfg, s, a);
      case _ =>
    }
  }

  lemma UnloadMeters(cfg: Config, s: State, a: string)
    requires s.op.Unload? && LeasedFor(s, a)
    ensures Meters(s, Advance, Advanced(cfg, s), a)
  {
  }

  lemma StepMeters(cfg: Config, s: State, step: Step, a: string)
    requires Enabled(s, step) && LeasedFor(s, a)
    requires s.op.Reconciling? ==> !Underway(s.op.ok, a) && !Underway(s.op.err, a)
    ensures Meters(s, step, Next(cfg, s, step), a)
  {
    if step.Advance? {
      AdvanceMeters(cfg, s, a);
    }
  }

  lemma LeasesMeter(cfg: Config, s: State, step: Step, a: string)
    requires Enabled(s, step) && Leased(s)
    ensures Get(Next(cfg, s, step).active, a) == Get(s.active, a)
      + (if step == Acquire(a) && Servable(s, a) then 1 else 0)
      - (if step == Release(a) && a in cfg.bindings && Get(s.active, a) > 0 then 1 else 0)
  {
    assert LeasedFor(s, a);
    if !step.Acquire? && !step.Release? && !step.Health? {
      MostStepsAreCalm(cfg, s, step);
    }
  }

  /** While the call is out nobody but a lease or a release touches the state of `a`,
      and neither does to an unloading model. */
  lemma StaysUnloading(cfg: Config, s: State, step: Step, a: string)
    requires Enabled(s, step) && s.op == Unload(a, UnloadCalling) && Next(cfg, s, step).op == s.op
    requires StateOf(s, a) == Some(Unloading)
    ensures StateOf(Next(cfg, s, step), a) == Some(Unloading)
  {
  }

  lemma {:induction false} RunsMeter(cfg: Config, run: seq<Step>, a: string)
    requires Legal(cfg, run)
    ensures Metered(cfg, run, a)
  {
    if run != [] {
      var before, step := run[..|run| - 1], run[|run| - 1];
      var s := After(cfg, before);
      RunsMeter(cfg, before, a);
      RunsKeepInvariant(cfg, before);
      assert run == before + [step];
      CountsNext(cfg, before, step, a);
      assert LeasedFor(s, a);
      StepMeters(cfg, s, step, a);
      LeasesMeter(cfg, s, step, a);
      if s.op == Unload(a, UnloadCalling) && After(cfg, run).op == s.op {
        StaysUnloading(cfg, s, step, a);
      }
    }
  }

  /** When an unload calls the provider, the leases on its model are exactly those
      granted since its check less those returned since; so there is none iff all of
      them are back, and while the call is out none is granted. */
  lemma UnloadFindsWhatWasGranted(cfg: Config, run: seq<Step>, a: string)
    requires Legal(cfg, run) && After(cfg, run).op == Unload(a, UnloadCalling)
    ensures
      var s := After(cfg, run);
      && Get(s.active, a) == Granted(cfg, run, a) - Returned(cfg, run, a)
      && (Get(s.active, a) == 0 <==> Granted(cfg, run, a) == Returned(cfg, run, a))
      && Acquired(s, a) == s
  {
    RunsMeter(cfg, run, a);
  }

  /** The guard that a caller can keep: if it lets nobody lease the model between the
      check and the mark, the provider is called on a model without leases. */
  lemma UnleasedWhenGuarded(cfg: Config, run: seq<Step>, rest: seq<Step>, a: string)
    requires Legal(cfg, run) && After(cfg, run).op == Unload(a, UnloadDeciding) && rest != [] && rest[0] == Advance
    requires Legal(cfg, run + rest) && After(cfg, run + rest).op == Unload(a, UnloadCalling)
    requires forall i :: 0 <= i < |rest| ==> rest[i] != Acquire(a)
    ensures Get(After(cfg, run + rest).active, a) == 0
  {
    NoneGranted(cfg, run, rest, a);
    RunsMeter(cfg, run + rest, a);
    RunsKeepInvariant(cfg, run + rest);
    assert LeasedFor(After(cfg, run + rest), a);
  }

  lemma {:induction false} LegalPrefix(cfg: Config, run: seq<Step>, k: nat)
    requires Legal(cfg, run) && k <= |run|
    ensures Legal(cfg, run[..k])
  {
    if k < |run| {
      LegalPrefix(cfg, run[..|run| - 1], k);
      assert run[..|run| - 1][..k] == run[..k];
    } else {
      assert run[..k] == run;
    }
  }

  lemma {:induction false} NoneGranted(cfg: Config, run: seq<Step>, rest: seq<Step>, a: string)
    requires Legal(cfg, run) && After(cfg, run).op == Unload(a, UnloadDeciding) && rest != [] && rest[0] == Advance
    requires Legal(cfg, run + rest) && forall i :: 0 <= i < |rest| ==> rest[i] != Acquire(a)
    ensures Granted(cfg, run + rest, a) == 0
    decreases |rest|
  {
    var fewer := rest[..|rest| - 1];
    assert run + rest == (run + fewer) + [rest[|rest| - 1]];
    assert (run + rest)[..|run + fewer|] == run + fewer;
    LegalPrefix(cfg, run + rest, |run + fewer|);
    CountsNext(cfg, run + fewer, rest[|rest| - 1], a);
    if fewer == [] {
      assert run + fewer == run;
    } else {
      NoneGranted(cfg, run, fewer, a);
    }
  }

  // -------------------------------------------------------------------- a witness

  /** Without that guard: a run in which the provider is called to unload a model that
      was leased between the check and the mark. */
  lemma UnloadMayFindALease(cfg: Config, a: string)
    requires a in cfg.bindings && cfg.ResidencyOf(a) != Some(External)
    ensures exists run :: UnloadsLeased(cfg, run, a)
  {
    var r1, s1 := Take(cfg, [], BeginReconcile);
    var r2 := ReadyUnleased(cfg, r1, a);
    var r3, s3 := Take(cfg, r2, BeginUnload(a));
    var r4 := ReadyUnleased(cfg, r3, a);
    LeasedUnload(cfg, r4, a);
  }

  /** The provider reports the model as loaded. */
  lemma ReadyUnleased(cfg: Config, run: seq<Step>, a: string) returns (longer: seq<Step>)
    requires Legal(cfg, run) && a in cfg.bindings && After(cfg, run).op.Reconciling? && Get(After(cfg, run).active, a) == 0
    ensures Legal(cfg, longer) && After(cfg, longer).op == After(cfg, run).op.ok
    ensures StateOf(After(cfg, longer), a) == Some(Ready) && Get(After(cfg, longer).active, a) == 0
  {
    var report := [Resident(cfg.bindings[a].providerModel, "", "", true, false)];
    assert Named(report, cfg.bindings[a].providerModel) == Some(report[0]);
    RunsKeepInvariant(cfg, run);
    var r1, s1 := Take(cfg, run, Health(Some(report)));
    longer := r1;
  }

  ghost predicate UnloadsLeased(cfg: Config, run: seq<Step>, a: string)
  {
    Legal(cfg, run) && After(cfg, run).op == Unload(a, UnloadCalling) && Get(After(cfg, run).active, a) == 1
  }

  lemma LeasedUnload(cfg: Config, run: seq<Step>, a: string)
    requires Legal(cfg, run) && a in cfg.bindings && cfg.ResidencyOf(a) != Some(External)
    requires
      var s := After(cfg, run);
      StateOf(s, a) == Some(Ready) && s.op == Unload(a, UnloadDeciding) && Get(s.active, a) == 0
    ensures exists run :: UnloadsLeased(cfg, run, a)
  {
    var r1, s1 := Take(cfg, run, Advance);
    var r2, s2 := Take(cfg, r1, Acquire(a));
    var r3, s3 := Take(cfg, r2, Advance);
    assert UnloadsLeased(cfg, r3, a);
  }
}
