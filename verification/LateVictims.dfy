/** Which displaced models a restoration forgets: those that a swap displaced after
    it had captured the record. */
module LateVictims {
  import opened Names
  import opened ProviderSpec
  import opened ProviderRuns

  /** The preferred models that a swap to `t` displaces. */
  ghost function Displacing(cfg: Config, t: string, victims: seq<string>): set<string>
  {
    if cfg.ResidencyOf(t) == Some(Transient) then set v | v in victims && cfg.ResidencyOf(v) == Some(Preferred) else {}
  }

  /** The step starts a restoration of `t`, which captures the record. */
  ghost predicate Captures(s: State, step: Step, t: string)
  {
    step == BeginRestore(t) && Get(s.active, t) <= 0 && RecordOf(s, t) != [] && Get(s.demand, t) <= 0
  }

  /** The preferred models displaced by swaps to `t` since a restoration last captured
      its record. */
  ghost function Late(cfg: Config, run: seq<Step>, t: string): set<string>
    requires Legal(cfg, run)
  {
    if run == [] then {}
    else
      var before, step := run[..|run| - 1], run[|run| - 1];
      if Captures(After(cfg, before), step, t) then {}
      else if step.BeginSwap? && step.target == t then Late(cfg, before, t) + Displacing(cfg, t, step.victims)
      else Late(cfg, before, t)
  }

  lemma LateNext(cfg: Config, run: seq<Step>, step: Step, t: string)
    requires Legal(cfg, run) && Legal(cfg, run + [step])
    ensures Late(cfg, run + [step], t) ==
      if Captures(After(cfg, run), step, t) then {}
      else if step.BeginSwap? && step.target == t then Late(cfg, run, t) + Displacing(cfg, t, step.victims)
      else Late(cfg, run, t)
  {
    assert (run + [step])[..|run|] == run;
  }

  // -------------------------------------------------------------------- accounting

  /** While a restoration of `t` works on `items`, the record holds these and the late
      ones, and nothing but these has been reloaded. */
  ghost predicate Accounts(s: State, late: set<string>, t: string, items: seq<Displaced>)
  {
    && Aliases(RecordOf(s, t)) == Aliases(items) + late
    && ReloadedSince(s.log) <= Aliases(items)
  }

  ghost predicate Accounted(cfg: Config, run: seq<Step>, op: Op)
    requires Legal(cfg, run)
  {
    op.Restore? ==> Accounts(After(cfg, run), Late(cfg, run, op.t), op.t, op.items)
  }

  ghost predicate AllAccounted(cfg: Config, run: seq<Step>)
    requires Legal(cfg, run)
  {
    var op := After(cfg, run).op;
    Accounted(cfg, run, op) && (op.Reconciling? ==> Accounted(cfg, run, op.ok) && Accounted(cfg, run, op.err))
  }

  lemma SeenIsAlias(items: seq<Displaced>)
    ensures forall a :: a in Aliases(items) <==> Seen(items, a)
  {
    forall a | Seen(items, a)
      ensures a in Aliases(items)
    {
      var i: nat :| i < |items| && items[i].alias == a;
      assert items[i].alias in Aliases(items);
    }
  }

  lemma SwapAccounts(cfg: Config, s: State, t: string, victims: seq<string>)
    requires RecordedFor(cfg, s, t)
    ensures Aliases(RecordOf(SwapBegun(cfg, s, t, victims), t)) == Aliases(RecordOf(s, t)) + Displacing(cfg, t, victims)
  {
    SwapRecords(cfg, s, t, victims);
    SeenIsAlias(RecordOf(s, t));
    SeenIsAlias(RecordOf(SwapBegun(cfg, s, t, victims), t));
  }

  /** The restoration an operation is, or becomes when the provider is heard. */
  ghost predicate Works(op: Op, t: string, items: seq<Displaced>)
  {
    || (op.Restore? && op.t == t && op.items == items)
    || (op.Reconciling? && op.ok.Restore? && op.ok.t == t && op.ok.items == items)
    || (op.Reconciling? && op.err.Restore? && op.err.t == t && op.err.items == items)
  }

  /** A locked region of a restoration notes at most an unload or one of its reloads. */
  ghost predicate NotesWork(s: State, n: State, items: seq<Displaced>)
  {
    || n.log == s.log
    || (|n.log| == |s.log| + 1 && n.log == s.log + [n.log[|s.log|]]
        && (n.log[|s.log|].UnloadCalled? || (n.log[|s.log|].Reloaded? && n.log[|s.log|].alias in Aliases(items))))
  }

  lemma DecisionWorks(cfg: Config, s: State, t: string, items: seq<Displaced>, at: RestoreAt)
    requires InPlace(items, at)
    ensures
      var d := RestoreDecision(cfg, s, t, items, at);
      && !d.op.Reconciling? && (d.op.Restore? ==> d.op.t == t && d.op.items == items)
      && (d.op.Restore? && d.note.Some? ==>
            d.note.value.UnloadCalled? || (d.note.value.Reloaded? && d.note.value.alias in Aliases(items)))
  {
  }

  lemma OthersWorkNot(cfg: Config, s: State)
    requires Formed(s.op) && Enabled(s, Advance) && !s.op.Restore?
    ensures !Advanced(cfg, s).op.Restore? && !Advanced(cfg, s).op.Reconciling?
  {
  }

  lemma RegionWorks(cfg: Config, s: State, t: string, items: seq<Displaced>)
    requires Formed(s.op) && Enabled(s, Advance) && Works(Advanced(cfg, s).op, t, items)
    ensures Works(s.op, t, items) && NotesWork(s, Advanced(cfg, s), items)
  {
    if s.op.Restore? {
      DecisionWorks(cfg, s, s.op.t, s.op.items, s.op.at);
    } else {
      OthersWorkNot(cfg, s);
    }
  }

  /** A step that captures no record goes on with the restoration there was. */
  lemma WorkGoesOn(cfg: Config, s: State, step: Step, t: string, items: seq<Displaced>)
    requires Enabled(s, step) && !Captures(s, step, t) && Works(Next(cfg, s, step).op, t, items)
    ensures Works(s.op, t, items) && NotesWork(s, Next(cfg, s, step), items)
  {
    match step {
      case Advance => RegionWorks(cfg, s, t, items);
      case Answer(ok) =>
        match s.op {
          case Restore(_, _, at) => assert Works(RestoreAnswered(s.op.t, s.op.items, at, ok), t, items);
          case _ =>
        }
      case BeginRestore(_) =>
      case Health(_) =>
      case _ =>
    }
  }

  /** Its record is left to swaps. */
  lemma RecordLeft(cfg: Config, s: State, step: Step, t: string, items: seq<Displaced>)
    requires Enabled(s, step) && Works(s.op, t, items) && Works(Next(cfg, s, step).op, t, items)
    requires !(step.BeginSwap? && step.target == t)
    ensures RecordOf(Next(cfg, s, step), t) == RecordOf(s, t)
  {
    RecordChanges(cfg, s, step, t);
  }

  lemma CaptureAccounts(cfg: Config, s: State, t: string, items: seq<Displaced>)
    requires Enabled(s, BeginRestore(t)) && Captures(s, BeginRestore(t), t) && Works(RestoreBegun(s, t).op, t, items)
    ensures Accounts(RestoreBegun(s, t), {}, t, items)
  {
    LogStep(s.log, Began(t, RecordOf(s, t)));
  }

  lemma StepAccounts(cfg: Config, run: seq<Step>, step: Step, t: string, items: seq<Displaced>)
    requires Legal(cfg, run) && Legal(cfg, run + [step]) && AllAccounted(cfg, run)
    requires After(cfg, run + [step]) == Next(cfg, After(cfg, run), step)
    requires Works(After(cfg, run + [step]).op, t, items)
    ensures Accounts(After(cfg, run + [step]), Late(cfg, run + [step], t), t, items)
  {
    var s := After(cfg, run);
    RunsKeepInvariant(cfg, run);
    LateNext(cfg, run, step, t);
    assert Enabled(s, step) by { assert (run + [step])[..|run|] == run; }
    if Captures(s, step, t) {
      CaptureAccounts(cfg, s, t, items);
    } else {
      WorkGoesOn(cfg, s, step, t, items);
      assert Accounts(s, Late(cfg, run, t), t, items);
      WorkAccounts(cfg, s, step, t, items, Late(cfg, run, t));
    }
  }

  lemma WorkAccounts(cfg: Config, s: State, step: Step, t: string, items: seq<Displaced>, late: set<string>)
    requires Enabled(s, step) && Recorded(cfg, s) && Accounts(s, late, t, items)
    requires Works(s.op, t, items) && Works(Next(cfg, s, step).op, t, items) && NotesWork(s, Next(cfg, s, step), items)
    ensures Accounts(Next(cfg, s, step),
      if step.BeginSwap? && step.target == t then late + Displacing(cfg, t, step.victims) else late, t, items)
  {
    var n := Next(cfg, s, step);
    assert RecordedFor(cfg, s, t);
    if step.BeginSwap? && step.target == t {
      SwapAccounts(cfg, s, t, step.victims);
    } else {
      RecordLeft(cfg, s, step, t, items);
      if n.log != s.log {
        LogStep(s.log, n.log[|s.log|]);
      }
    }
  }

  lemma {:induction false} RunsAccount(cfg: Config, run: seq<Step>)
    requires Legal(cfg, run)
    ensures AllAccounted(cfg, run)
  {
    if run != [] {
      var before, step := run[..|run| - 1], run[|run| - 1];
      RunsAccount(cfg, before);
      assert run == before + [step];
      var op := After(cfg, run).op;
      if op.Restore? {
        StepAccounts(cfg, before, step, op.t, op.items);
      } else if op.Reconciling? {
        if op.ok.Restore? {
          StepAccounts(cfg, before, step, op.ok.t, op.ok.items);
        }
        if op.err.Restore? {
          StepAccounts(cfg, before, step, op.err.t, op.err.items);
        }
      }
    }
  }

  // ---------------------------------------------------------------------- forgetting

  /** When a restoration finishes it has reloaded exactly what it captured; so the
      models whose record it now drops without having reloaded them are exactly those
      displaced since the capture and not captured, and nothing is lost iff every swap
      since then displaced only captured ones. */
  lemma ForgottenExactly(cfg: Config, run: seq<Step>, t: string, items: seq<Displaced>)
    requires Legal(cfg, run) && After(cfg, run).op == Restore(t, items, Finishing)
    ensures
      var s := After(cfg, run);
      && RecordOf(Next(cfg, s, Advance), t) == []
      && ReloadedSince(s.log) == Aliases(items)
      && Aliases(RecordOf(s, t)) - ReloadedSince(s.log) == Late(cfg, run, t) - Aliases(items)
      && (Aliases(RecordOf(s, t)) <= ReloadedSince(s.log) <==> Late(cfg, run, t) <= Aliases(items))
  {
    RunsAccount(cfg, run);
    RunsKeepInvariant(cfg, run);
    assert OnPlan(cfg, After(cfg, run).log, After(cfg, run).op);
  }

  /** The restoration is about to finish and `v` is recorded but was not reloaded. */
  ghost predicate Forgets(cfg: Config, run: seq<Step>, t: string, items: seq<Displaced>, v: string)
  {
    && Legal(cfg, run)
    && var s := After(cfg, run);
    && s.op == Restore(t, items, Finishing) && v in Aliases(RecordOf(s, t)) && v !in ReloadedSince(s.log)
  }

  // ------------------------------------------------------------------ such a run

  /** What the provider reports of a loaded model. */
  function Loaded(cfg: Config, a: string): Resident
    requires a in cfg.bindings
  {
    Resident(cfg.bindings[a].providerModel, "", "", true, false)
  }

  /** The operation is at `op`, the provider last reported `residents`, nobody uses or
      wants `t`, and its record is `d`. */
  ghost predicate At(cfg: Config, run: seq<Step>, t: string, d: Displaced, residents: seq<Resident>, op: Op)
  {
    && Legal(cfg, run)
    && var s := After(cfg, run);
    && s.op == op && s.residents == residents && RecordOf(s, t) == [d] && Get(s.active, t) == 0 && Get(s.demand, t) == 0
  }

  lemma OneVictim(cfg: Config, residents: seq<Resident>, p: string)
    requires cfg.ResidencyOf(p) == Some(Preferred)
    ensures InOrder(WithVictims(cfg, residents, [], [p])) == [RecordFor(cfg, residents, p)]
  {
    assert [p][..0] == [] && [RecordFor(cfg, residents, p)][..0] == [];
    assert WithVictims(cfg, residents, [], []) == [] && !Seen([], p);
  }

  lemma NamedOne(r: Resident)
    ensures Named([r], r.name) == Some(r)
  {
  }

  lemma ReportedReady(cfg: Config, s: State, a: string)
    requires a in cfg.bindings && Get(s.active, a) == 0
    ensures StateOf(Reconciled(cfg, s, [Loaded(cfg, a)]), a) == Some(Ready)
  {
    NamedOne(Loaded(cfg, a));
  }

  /** The preferred model `p` is loaded, and a swap to `t` displaces it. */
  lemma VictimDisplaced(cfg: Config, t: string, p: string) returns (run: seq<Step>, d: Displaced)
    requires cfg.ResidencyOf(t) == Some(Transient) && cfg.ResidencyOf(p) == Some(Preferred)
    ensures d.alias == p && At(cfg, run, t, d, [Loaded(cfg, p)], Free) && Get(After(cfg, run).active, p) == 0
  {
    var report := [Loaded(cfg, p)];
    d := RecordFor(cfg, report, p);
    OneVictim(cfg, report, p);
    var r1, s1 := Take(cfg, [], BeginReconcile);
    var r2, s2 := Take(cfg, r1, Health(Some(report)));
    var r3, s3 := Take(cfg, r2, BeginSwap(t, [p]));
    run := r3;
  }

  /** It is unloaded for that. */
  lemma VictimChecked(cfg: Config, run: seq<Step>, t: string, p: string, d: Displaced) returns (longer: seq<Step>)
    requires cfg.ResidencyOf(p) == Some(Preferred)
    requires At(cfg, run, t, d, [Loaded(cfg, p)], Free) && Get(After(cfg, run).active, p) == 0
    ensures At(cfg, longer, t, d, [Loaded(cfg, p)], Unload(p, UnloadDeciding))
    ensures Get(After(cfg, longer).active, p) == 0 && StateOf(After(cfg, longer), p) == Some(Ready)
  {
    var r1, s1 := Take(cfg, run, BeginUnload(p));
    ReportedReady(cfg, s1, p);
    var r2, s2 := Take(cfg, r1, Health(Some([Loaded(cfg, p)])));
    longer := r2;
  }

  lemma VictimStopping(cfg: Config, run: seq<Step>, t: string, p: string, d: Displaced) returns (longer: seq<Step>)
    requires cfg.ResidencyOf(p) == Some(Preferred)
    requires At(cfg, run, t, d, [Loaded(cfg, p)], Unload(p, UnloadDeciding))
    requires Get(After(cfg, run).active, p) == 0 && StateOf(After(cfg, run), p) == Some(Ready)
    ensures At(cfg, longer, t, d, [Loaded(cfg, p)], Unload(p, UnloadCalling))
  {
    var r1, s1 := Take(cfg, run, Advance);
    assert At(cfg, r1, t, d, [Loaded(cfg, p)], Unload(p, UnloadMarking));
    var r2, s2 := Take(cfg, r1, Advance);
    longer := r2;
  }

  lemma VictimStopped(cfg: Config, run: seq<Step>, t: string, p: string, d: Displaced) returns (longer: seq<Step>)
    requires p in cfg.bindings && At(cfg, run, t, d, [Loaded(cfg, p)], Unload(p, UnloadCalling))
    ensures At(cfg, longer, t, d, [], Free)
  {
    var r1, s1 := Take(cfg, run, Answer(true));
    var r2, s2 := Take(cfg, r1, Health(Some([])));
    assert At(cfg, r2, t, d, [], Unload(p, UnloadSettling));
    var r3, s3 := Take(cfg, r2, Advance);
    longer := r3;
  }

  /** The same while the load of `t` wants it. */
  ghost predicate Wanting(cfg: Config, run: seq<Step>, t: string, d: Displaced, residents: seq<Resident>, op: Op)
  {
    && Legal(cfg, run)
    && var s := After(cfg, run);
    && s.op == op && s.residents == residents && RecordOf(s, t) == [d] && Get(s.active, t) == 0 && Get(s.demand, t) == 1
  }

  /** The transient is loaded in its place. */
  lemma TransientWanted(cfg: Config, run: seq<Step>, t: string, d: Displaced) returns (longer: seq<Step>)
    requires cfg.ResidencyOf(t) == Some(Transient) && At(cfg, run, t, d, [], Free)
    ensures Wanting(cfg, longer, t, d, [], Load(t, LoadDeciding)) && StateOf(After(cfg, longer), t) == Some(Unloaded)
  {
    var r1, s1 := Take(cfg, run, DemandUp(t));
    var r2, s2 := Take(cfg, r1, BeginLoad(t));
    var r3, s3 := Take(cfg, r2, Health(Some([])));
    longer := r3;
  }

  lemma TransientLoading(cfg: Config, run: seq<Step>, t: string, d: Displaced) returns (longer: seq<Step>)
    requires cfg.ResidencyOf(t) == Some(Transient) && cfg.PoolOf(t).capacity > 0
    requires Wanting(cfg, run, t, d, [], Load(t, LoadDeciding)) && StateOf(After(cfg, run), t) == Some(Unloaded)
    ensures Wanting(cfg, longer, t, d, [], Load(t, LoadCalling))
  {
    assert Occupied([]) == 0;
    var r1, s1 := Take(cfg, run, Advance);
    assert Wanting(cfg, r1, t, d, [], Load(t, LoadMarking));
    var r2, s2 := Take(cfg, r1, Advance);
    longer := r2;
  }

  lemma TransientReported(cfg: Config, run: seq<Step>, t: string, d: Displaced) returns (longer: seq<Step>)
    requires t in cfg.bindings && Wanting(cfg, run, t, d, [], Load(t, LoadCalling))
    ensures Wanting(cfg, longer, t, d, [Loaded(cfg, t)], Load(t, LoadSettling))
    ensures StateOf(After(cfg, longer), t) == Some(Ready)
  {
    var r1, s1 := Take(cfg, run, Answer(true));
    ReportedReady(cfg, s1, t);
    var r2, s2 := Take(cfg, r1, Health(Some([Loaded(cfg, t)])));
    longer := r2;
  }

  lemma TransientLoaded(cfg: Config, run: seq<Step>, t: string, d: Displaced) returns (longer: seq<Step>)
    requires t in cfg.bindings && Wanting(cfg, run, t, d, [Loaded(cfg, t)], Load(t, LoadSettling))
    requires StateOf(After(cfg, run), t) == Some(Ready)
    ensures At(cfg, longer, t, d, [Loaded(cfg, t)], Free) && StateOf(After(cfg, longer), t) == Some(Ready)
  {
    var r1, s1 := Take(cfg, run, Advance);
    assert Wanting(cfg, r1, t, d, [Loaded(cfg, t)], Free);
    var r2, s2 := Take(cfg, r1, DemandDown(t));
    longer := r2;
  }

  /** It serves one request; the idle timer this leaves behind runs out. */
  lemma TransientServed(cfg: Config, run: seq<Step>, t: string, d: Displaced) returns (longer: seq<Step>)
    requires cfg.ResidencyOf(t) == Some(Transient) && cfg.PoolOf(t).restorePreferred
    requires At(cfg, run, t, d, [Loaded(cfg, t)], Free) && StateOf(After(cfg, run), t) == Some(Ready)
    requires forall a :: Get(After(cfg, run).timers.due, a) >= 0
    ensures At(cfg, longer, t, d, [Loaded(cfg, t)], Free) && Get(After(cfg, longer).timers.due, t) > 0
  {
    var r1, s1 := Take(cfg, run, Acquire(t));
    var r2, s2 := Take(cfg, r1, Release(t));
    assert t in s2.timers.armed;
    var r3, s3 := Take(cfg, r2, Fire(t));
    longer := r3;
  }

  /** So its restoration begins, unloads it, */
  lemma RestorationBegins(cfg: Config, run: seq<Step>, t: string, d: Displaced) returns (longer: seq<Step>)
    requires t in cfg.bindings && At(cfg, run, t, d, [Loaded(cfg, t)], Free) && Get(After(cfg, run).timers.due, t) > 0
    ensures At(cfg, longer, t, d, [Loaded(cfg, t)], Restore(t, [d], Deciding))
  {
    var r1, s1 := Take(cfg, run, BeginRestore(t));
    var r2, s2 := Take(cfg, r1, Health(Some([Loaded(cfg, t)])));
    longer := r2;
  }

  lemma TransientDrained(cfg: Config, run: seq<Step>, t: string, d: Displaced) returns (longer: seq<Step>)
    requires t in cfg.bindings && At(cfg, run, t, d, [Loaded(cfg, t)], Restore(t, [d], Deciding))
    ensures At(cfg, longer, t, d, [], Restore(t, [d], AtItem(0)))
  {
    var r1, s1 := Take(cfg, run, Advance);
    var r2, s2 := Take(cfg, r1, Advance);
    assert s2.op == Restore(t, [d], DrainCalling);
    var r3, s3 := Take(cfg, r2, Answer(true));
    var r4, s4 := Take(cfg, r3, Health(Some([])));
    longer := r4;
  }

  /** and reloads the victim, while somebody else has loaded `v`. */
  lemma VictimPlaced(cfg: Config, run: seq<Step>, t: string, d: Displaced) returns (longer: seq<Step>)
    requires At(cfg, run, t, d, [], Restore(t, [d], AtItem(0))) && d.alias in cfg.bindings && cfg.PoolOf(d.alias).capacity > 0
    ensures At(cfg, longer, t, d, [], Restore(t, [d], Trying(0, 0)))
  {
    var r1, s1 := Take(cfg, run, Advance);
    assert At(cfg, r1, t, d, [], Restore(t, [d], Placing(0)));
    var r2, s2 := Take(cfg, r1, Advance);
    longer := r2;
  }

  lemma VictimReloaded(cfg: Config, run: seq<Step>, t: string, d: Displaced, report: seq<Resident>) returns (longer: seq<Step>)
    requires At(cfg, run, t, d, [], Restore(t, [d], Trying(0, 0)))
    ensures At(cfg, longer, t, d, report, Restore(t, [d], Confirming(0)))
  {
    var r1, s1 := Take(cfg, run, Advance);
    assert At(cfg, r1, t, d, [], Restore(t, [d], Reloading(0, 0)));
    var r2, s2 := Take(cfg, r1, Answer(true));
    var r3, s3 := Take(cfg, r2, Health(Some(report)));
    longer := r3;
  }

  lemma RestorationFinishing(cfg: Config, run: seq<Step>, t: string, d: Displaced, report: seq<Resident>) returns (longer: seq<Step>)
    requires At(cfg, run, t, d, report, Restore(t, [d], Confirming(0)))
    ensures At(cfg, longer, t, d, report, Restore(t, [d], Finishing))
  {
    var r1, s1 := Take(cfg, run, Advance);
    assert At(cfg, r1, t, d, report, Restore(t, [d], AtItem(1)));
    var r2, s2 := Take(cfg, r1, Advance);
    longer := r2;
  }

  /** Up to where the transient has been used and its restoration is due. */
  lemma RestorationDue(cfg: Config, t: string, p: string) returns (run: seq<Step>, d: Displaced)
    requires cfg.ResidencyOf(t) == Some(Transient) && cfg.ResidencyOf(p) == Some(Preferred)
    requires cfg.PoolOf(t).capacity > 0 && cfg.PoolOf(t).restorePreferred
    ensures d.alias == p && At(cfg, run, t, d, [Loaded(cfg, t)], Free) && Get(After(cfg, run).timers.due, t) > 0
  {
    var displaced;
    displaced, d := VictimDisplaced(cfg, t, p);
    var empty := ProviderEmptied(cfg, displaced, t, p, d);
    var loaded := TransientTakesOver(cfg, empty, t, d);
    DueCounts(cfg, loaded);
    run := TransientServed(cfg, loaded, t, d);
  }

  lemma ProviderEmptied(cfg: Config, run: seq<Step>, t: string, p: string, d: Displaced) returns (longer: seq<Step>)
    requires cfg.ResidencyOf(p) == Some(Preferred)
    requires At(cfg, run, t, d, [Loaded(cfg, p)], Free) && Get(After(cfg, run).active, p) == 0
    ensures At(cfg, longer, t, d, [], Free)
  {
    var r1 := VictimChecked(cfg, run, t, p, d);
    var r2 := VictimStopping(cfg, r1, t, p, d);
    longer := VictimStopped(cfg, r2, t, p, d);
  }

  lemma TransientTakesOver(cfg: Config, run: seq<Step>, t: string, d: Displaced) returns (longer: seq<Step>)
    requires cfg.ResidencyOf(t) == Some(Transient) && cfg.PoolOf(t).capacity > 0 && At(cfg, run, t, d, [], Free)
    ensures At(cfg, longer, t, d, [Loaded(cfg, t)], Free) && StateOf(After(cfg, longer), t) == Some(Ready)
  {
    var r1 := TransientWanted(cfg, run, t, d);
    var r2 := TransientLoading(cfg, r1, t, d);
    var r3 := TransientReported(cfg, r2, t, d);
    longer := TransientLoaded(cfg, r3, t, d);
  }

  lemma {:induction false} DueCounts(cfg: Config, run: seq<Step>)
    requires Legal(cfg, run)
    ensures forall a :: Get(After(cfg, run).timers.due, a) >= 0
  {
    if run != [] {
      var before := run[..|run| - 1];
      DueCounts(cfg, before);
      forall a
        ensures Get(After(cfg, run).timers.due, a) >= 0
      {
        DueStep(cfg, After(cfg, before), run[|run| - 1], a);
      }
    }
  }

  lemma DueStep(cfg: Config, s: State, step: Step, a: string)
    requires Enabled(s, step) && Get(s.timers.due, a) >= 0
    ensures Get(Next(cfg, s, step).timers.due, a) >= 0
  {
  }

  /** The run: a preferred model `p` is displaced by `t`; when `t` has been idle, its
      restoration reloads `p`; and before it finishes another swap to `t` displaces `v`. */
  lemma LateVictimIsForgotten(cfg: Config, t: string, p: string, v: string)
    requires cfg.ResidencyOf(t) == Some(Transient) && p != v
    requires cfg.ResidencyOf(p) == cfg.ResidencyOf(v) == Some(Preferred)
    requires cfg.PoolOf(t).capacity > 0 && cfg.PoolOf(p).capacity > 0 && cfg.PoolOf(t).restorePreferred
    ensures exists run, items :: Forgets(cfg, run, t, items, v)
  {
    var report := [Loaded(cfg, p), Loaded(cfg, v)];
    var r1, d := RestorationDue(cfg, t, p);
    var r2 := RestorationBegins(cfg, r1, t, d);
    var r3 := TransientDrained(cfg, r2, t, d);
    var r4 := VictimPlaced(cfg, r3, t, d);
    var r5 := VictimReloaded(cfg, r4, t, d, report);
    var r6 := RestorationFinishing(cfg, r5, t, d, report);
    LateSwap(cfg, r6, t, d, report, v);
  }

  lemma LateSwap(cfg: Config, run: seq<Step>, t: string, d: Displaced, report: seq<Resident>, v: string)
    requires At(cfg, run, t, d, report, Restore(t, [d], Finishing)) && d.alias != v
    requires cfg.ResidencyOf(t) == Some(Transient) && cfg.ResidencyOf(v) == Some(Preferred)
    ensures exists run, items :: Forgets(cfg, run, t, items, v)
  {
    var longer, s := Take(cfg, run, BeginSwap(t, [v]));
    RunsKeepInvariant(cfg, run);
    assert RecordedFor(cfg, After(cfg, run), t);
    SwapAccounts(cfg, After(cfg, run), t, [v]);
    assert v in Displacing(cfg, t, [v]);
    ForgottenExactly(cfg, longer, t, [d]);
    assert Forgets(cfg, longer, t, [d], v);
  }
}
