/** What a health report says of a model, and what the lifecycle operations conclude
    from it: when a load succeeds, when the provider is called at all, and how a
    restoration gives way. */
module ProviderReports {
  import opened Names
  import opened ProviderSpec
  import opened ProviderRuns

  // ------------------------------------------------------------------ reading a report

  /** The report's last entry under the name. */
  ghost predicate LastEntry(report: seq<Resident>, name: string, i: int)
  {
    0 <= i < |report| && report[i].name == name && forall j :: i < j < |report| ==> report[j].name != name
  }

  ghost predicate ListsReady(report: seq<Resident>, name: string)
  {
    exists i :: LastEntry(report, name, i) && report[i].loaded && report[i].status in {"", "ready", "loaded"}
  }

  lemma {:induction false} NamedIsLast(report: seq<Resident>, name: string)
    ensures
      match Named(report, name)
      case Some(r) => exists i :: LastEntry(report, name, i) && report[i] == r
      case None => forall i :: 0 <= i < |report| ==> report[i].name != name
  {
    if report != [] {
      var k := |report| - 1;
      if report[k].name == name {
        assert LastEntry(report, name, k);
      } else {
        NamedIsLast(report[..k], name);
        if Named(report[..k], name).Some? {
          var i :| LastEntry(report[..k], name, i) && report[..k][i] == Named(report[..k], name).value;
          assert LastEntry(report, name, i);
        }
      }
    }
  }

  lemma OneLastEntry(report: seq<Resident>, name: string, i: int, j: int)
    requires LastEntry(report, name, i) && LastEntry(report, name, j)
    ensures i == j
  {
  }

  /** What a report means for a model: not listed is unloaded, and otherwise the status of
      its last entry decides. */
  lemma ObservedMeans(cfg: Config, active: map<string, int>, report: seq<Resident>, a: string)
    requires a in cfg.bindings
    ensures
      var name, now := cfg.bindings[a].providerModel, Observed(cfg, active, report, a);
      && ((forall i :: 0 <= i < |report| ==> report[i].name != name) ==> now == Unloaded)
      && forall i :: LastEntry(report, name, i) ==>
           && (report[i].status == "loading" ==> now == Loading)
           && (report[i].status in {"unloading", "evicting"} ==> now == Unloading)
           && (report[i].status in {"failed", "error"} ==> now == Failed)
           && (report[i].status in {"", "ready", "loaded"} ==>
                 now == if !report[i].loaded then Unloaded else if Get(active, a) > 0 then Busy else Ready)
           && (report[i].status !in {"loading", "unloading", "evicting", "failed", "error", "", "ready", "loaded"} ==>
                 now == Unloaded)
  {
    var name := cfg.bindings[a].providerModel;
    NamedIsLast(report, name);
    forall i | LastEntry(report, name, i)
      ensures Named(report, name) == Some(report[i])
    {
      if Named(report, name).Some? {
        var j :| LastEntry(report, name, j) && report[j] == Named(report, name).value;
        OneLastEntry(report, name, i, j);
      }
    }
  }

  /** So a model is ready or busy exactly when it is listed as ready, busy when leased. */
  lemma ReadyMeansListed(cfg: Config, active: map<string, int>, report: seq<Resident>, a: string)
    requires a in cfg.bindings
    ensures
      var listed := ListsReady(report, cfg.bindings[a].providerModel);
      && (Observed(cfg, active, report, a) == Ready <==> listed && Get(active, a) <= 0)
      && (Observed(cfg, active, report, a) == Busy <==> listed && Get(active, a) > 0)
  {
    ObservedMeans(cfg, active, report, a);
    NamedIsLast(report, cfg.bindings[a].providerModel);
  }

  /** The first entry under the name says whether the model was pinned. */
  lemma {:induction false} PinnedMeans(report: seq<Resident>, name: string)
    ensures PinnedNow(report, name) <==>
      exists i :: 0 <= i < |report| && report[i].name == name && report[i].pinned && forall j :: 0 <= j < i ==> report[j].name != name
  {
    if report != [] && report[0].name != name {
      PinnedMeans(report[1..], name);
      assert forall i :: 0 <= i < |report| - 1 ==> report[1..][i] == report[i + 1];
      if i :| 0 <= i < |report| && report[i].name == name && report[i].pinned && forall j :: 0 <= j < i ==> report[j].name != name {
        assert report[1..][i - 1] == report[i];
      }
      if i :| 0 <= i < |report| - 1 && report[1..][i].name == name && report[1..][i].pinned
              && forall j :: 0 <= j < i ==> report[1..][j].name != name {
        assert forall j :: 0 < j < i + 1 ==> report[j] == report[1..][j - 1];
        assert report[i + 1] == report[1..][i];
      }
    }
  }

  // --------------------------------------------------------- fresh looks at the provider

  /** Where an operation looks at the state of its model right after a report. */
  ghost predicate Looks(op: Op)
  {
    || (op.Load? && (op.loadAt.LoadDeciding? || op.loadAt.LoadSettling?))
    || (op.Unload? && op.unloadAt.UnloadDeciding?)
    || (op.Restore? && op.at.Deciding?)
  }

  /** There every model's state is what the last report and its leases by now make of it. */
  ghost predicate Fresh(cfg: Config, s: State, a: string)
    requires a in cfg.bindings
  {
    && (Looks(s.op) ==> StateOf(s, a) == Some(Observed(cfg, s.active, s.residents, a)))
    && (s.op.Reconciling? ==> !Looks(s.op.err))
  }

  lemma RestoreNeverLooks(cfg: Config, s: State)
    requires Formed(s.op) && s.op.Restore?
    ensures
      var n := Advanced(cfg, s);
      (n.op == s.op || !Looks(n.op)) && (Looks(s.op) ==> n.op != s.op) && !n.op.Reconciling?
  {
  }

  lemma AdvanceNeverLooks(cfg: Config, s: State)
    requires Enabled(s, Advance)
    ensures !Looks(Advanced(cfg, s).op) && !Advanced(cfg, s).op.Reconciling?
  {
    if s.op.Restore? {
      RestoreNeverLooks(cfg, s);
    }
  }

  lemma LeasesStayFresh(cfg: Config, s: State, step: Step, a: string)
    requires a in cfg.bindings && Enabled(s, step) && LeasedFor(s, a) && (step.Acquire? || step.Release?)
    requires StateOf(s, a) == Some(Observed(cfg, s.active, s.residents, a))
    ensures var n := Next(cfg, s, step); StateOf(n, a) == Some(Observed(cfg, n.active, n.residents, a))
  {
  }

  lemma AnswerNeverLooks(op: Op, ok: bool)
    requires Formed(op) && Calls(op)
    ensures !Looks(Answered(op, ok)) && (Answered(op, ok).Reconciling? ==> !Looks(Answered(op, ok).err))
  {
  }

  lemma OthersStayFresh(cfg: Config, s: State, step: Step, a: string)
    requires a in cfg.bindings && Enabled(s, step) && Fresh(cfg, s, a)
    requires !step.Advance? && !step.Answer? && !step.Acquire? && !step.Release?
    ensures Fresh(cfg, Next(cfg, s, step), a)
  {
  }

  lemma StepStaysFresh(cfg: Config, s: State, step: Step, a: string)
    requires a in cfg.bindings && Enabled(s, step) && LeasedFor(s, a) && Fresh(cfg, s, a)
    ensures Fresh(cfg, Next(cfg, s, step), a)
  {
    match step {
      case Advance => AdvanceNeverLooks(cfg, s);
      case Acquire(_) =>
        if Looks(s.op) {
          LeasesStayFresh(cfg, s, step, a);
        }
      case Release(_) =>
        if Looks(s.op) {
          LeasesStayFresh(cfg, s, step, a);
        }
      case Answer(ok) => AnswerNeverLooks(s.op, ok);
      case _ => OthersStayFresh(cfg, s, step, a);
    }
  }

  lemma {:induction false} RunsLookFresh(cfg: Config, run: seq<Step>, a: string)
    requires Legal(cfg, run) && a in cfg.bindings
    ensures Fresh(cfg, After(cfg, run), a)
  {
    if run != [] {
      var before := run[..|run| - 1];
      RunsLookFresh(cfg, before, a);
      RunsKeepInvariant(cfg, before);
      assert LeasedFor(After(cfg, before), a);
      StepStaysFresh(cfg, After(cfg, before), run[|run| - 1], a);
    }
  }

  // ------------------------------------------------------------------- how a load ends

  /** A load that the provider carried out succeeds exactly when the report after it
      lists the model as ready and nobody took a lease on it since; otherwise the model
      is marked as failed. */
  lemma LoadEndsExactly(cfg: Config, run: seq<Step>, a: string)
    requires Legal(cfg, run) && a in cfg.bindings && After(cfg, run).op == Load(a, LoadSettling)
    ensures
      var s := After(cfg, run);
      var n := Next(cfg, s, Advance);
      if ListsReady(s.residents, cfg.bindings[a].providerModel) && Get(s.active, a) == 0 then
        n.op.Free? && a in n.owned && StateOf(n, a) == Some(Ready)
      else
        && n.op == Failing(a) && n.owned == s.owned
        && Next(cfg, n, Advance).op.Free? && StateOf(Next(cfg, n, Advance), a) == Some(Failed)
  {
    LooksReady(cfg, run, a);
    SettleDecides(cfg, After(cfg, run), a);
  }

  /** What such a look finds. */
  lemma LooksReady(cfg: Config, run: seq<Step>, a: string)
    requires Legal(cfg, run) && a in cfg.bindings && Looks(After(cfg, run).op)
    ensures
      var s := After(cfg, run);
      StateOf(s, a) == Some(Ready) <==> ListsReady(s.residents, cfg.bindings[a].providerModel) && Get(s.active, a) == 0
  {
    RunsLookFresh(cfg, run, a);
    RunsKeepInvariant(cfg, run);
    assert LeasedFor(After(cfg, run), a);
    ReadyMeansListed(cfg, After(cfg, run).active, After(cfg, run).residents, a);
  }

  lemma SettleDecides(cfg: Config, s: State, a: string)
    requires s.op == Load(a, LoadSettling)
    ensures
      var n := Next(cfg, s, Advance);
      if StateOf(s, a) == Some(Ready) then n.op.Free? && a in n.owned && StateOf(n, a) == Some(Ready)
      else
        && n.op == Failing(a) && n.owned == s.owned
        && Next(cfg, n, Advance).op.Free? && StateOf(Next(cfg, n, Advance), a) == Some(Failed)
  {
  }

  /** A load goes to the provider exactly when its model is not ready and unleased by the
      fresh report, is not somebody else's to load, and an LLM more fits into its pool. */
  lemma LoadGoesOnExactly(cfg: Config, run: seq<Step>, a: string)
    requires Legal(cfg, run) && a in cfg.bindings && After(cfg, run).op == Load(a, LoadDeciding)
    ensures
      var s := After(cfg, run);
      Next(cfg, s, Advance).op ==
        if ListsReady(s.residents, cfg.bindings[a].providerModel) && Get(s.active, a) == 0 then Free
        else if cfg.bindings[a].residency == External then Free
        else if !HasRoom(cfg, s, a) then Free
        else Load(a, LoadMarking)
  {
    LooksReady(cfg, run, a);
    LoadDecides(cfg, After(cfg, run), a);
  }

  lemma LoadDecides(cfg: Config, s: State, a: string)
    requires s.op == Load(a, LoadDeciding) && a in cfg.bindings
    ensures
      Next(cfg, s, Advance).op ==
        if StateOf(s, a) == Some(Ready) || cfg.bindings[a].residency == External || !HasRoom(cfg, s, a) then Free
        else Load(a, LoadMarking)
  {
    OccupiedCounts(s.residents);
  }

  /** By the last report an LLM more fits into the model's pool. */
  ghost predicate HasRoom(cfg: Config, s: State, a: string)
  {
    && a in cfg.bindings && cfg.bindings[a].pool in cfg.pools
    && |set i | 0 <= i < |s.residents| && s.residents[i].kind in {"", "llm"}| < cfg.pools[cfg.bindings[a].pool].capacity
  }

  /** The report lists the model as ready, and a lease makes its load fail. */
  ghost predicate LoadFailsLeased(cfg: Config, run: seq<Step>, a: string)
    requires a in cfg.bindings
  {
    && Legal(cfg, run)
    && var s := After(cfg, run);
    && s.op == Failing(a) && ListsReady(s.residents, cfg.bindings[a].providerModel) && Get(s.active, a) == 1
  }

  /** A run from the start in which that happens: the lease is granted between the report
      and the look at the model's state. */
  lemma LeaseFailsLoad(cfg: Config, a: string)
    requires a in cfg.bindings && cfg.bindings[a].residency != External && cfg.PoolOf(a).capacity > 0
    ensures exists run :: LoadFailsLeased(cfg, run, a)
  {
    var asked := LoadAsked(cfg, a);
    var calling := LoadCalled(cfg, asked, a);
    var reported := LoadReported(cfg, calling, a);
    var r1, s1 := Take(cfg, reported, Acquire(a));
    var r2, s2 := Take(cfg, r1, Advance);
    assert LoadFailsLeased(cfg, r2, a);
  }

  lemma LoadAsked(cfg: Config, a: string) returns (run: seq<Step>)
    requires a in cfg.bindings
    ensures Legal(cfg, run) && After(cfg, run).op == Load(a, LoadDeciding) && After(cfg, run).residents == []
    ensures Get(After(cfg, run).active, a) == 0 && StateOf(After(cfg, run), a) == Some(Unloaded)
  {
    var r1, s1 := Take(cfg, [], BeginLoad(a));
    var r2, s2 := Take(cfg, r1, Health(Some([])));
    run := r2;
  }

  lemma LoadCalled(cfg: Config, run: seq<Step>, a: string) returns (longer: seq<Step>)
    requires a in cfg.bindings && cfg.bindings[a].residency != External && cfg.PoolOf(a).capacity > 0
    requires Legal(cfg, run) && After(cfg, run).op == Load(a, LoadDeciding) && After(cfg, run).residents == []
    requires Get(After(cfg, run).active, a) == 0 && StateOf(After(cfg, run), a) == Some(Unloaded)
    ensures Legal(cfg, longer) && After(cfg, longer).op == Load(a, LoadCalling) && Get(After(cfg, longer).active, a) == 0
  {
    assert Occupied([]) == 0;
    var r1, s1 := Take(cfg, run, Advance);
    var r2, s2 := Take(cfg, r1, Advance);
    longer := r2;
  }

  lemma LoadReported(cfg: Config, run: seq<Step>, a: string) returns (longer: seq<Step>)
    requires a in cfg.bindings && Legal(cfg, run) && After(cfg, run).op == Load(a, LoadCalling) && Get(After(cfg, run).active, a) == 0
    ensures Legal(cfg, longer)
    ensures
      var s := After(cfg, longer);
      && s.op == Load(a, LoadSettling) && Get(s.active, a) == 0 && StateOf(s, a) == Some(Ready)
      && ListsReady(s.residents, cfg.bindings[a].providerModel)
  {
    var report := [Resident(cfg.bindings[a].providerModel, "", "", true, false)];
    assert LastEntry(report, cfg.bindings[a].providerModel, 0);
    var r1, s1 := Take(cfg, run, Answer(true));
    ReadyMeansListed(cfg, s1.active, report, a);
    var r2, s2 := Take(cfg, r1, Health(Some(report)));
    longer := r2;
  }

  lemma {:induction false} OccupiedCounts(residents: seq<Resident>)
    ensures Occupied(residents) == |set i | 0 <= i < |residents| && residents[i].kind in {"", "llm"}|
  {
    var all := set i | 0 <= i < |residents| && residents[i].kind in {"", "llm"};
    if residents == [] {
      assert all == {};
    } else {
      var k := |residents| - 1;
      OccupiedCounts(residents[..k]);
      var before := set i | 0 <= i < k && residents[..k][i].kind in {"", "llm"};
      assert all == before + if residents[k].kind in {"", "llm"} then {k} else {};
    }
  }

  // --------------------------------------------------------- when the provider is called

  /** A call under way, or about to be made, is one that may be made. */
  ghost predicate MayCall(cfg: Config, s: State)
  {
    match s.op
    case Load(a, at) => at.LoadMarking? || at.LoadCalling? ==> HasRoom(cfg, s, a) && cfg.bindings[a].residency != External
    case Unload(a, at) =>
      at.UnloadMarking? || at.UnloadCalling? ==>
        StateOf(s, a) != Some(Unloaded) && (a in cfg.bindings && cfg.bindings[a].residency == External ==> a in s.owned)
    case Restore(_, items, at) =>
      && (at.Trying? ==> at.i < |items| && at.attempt < 3 && HasRoom(cfg, s, items[at.i].alias))
      && (at.Reloading? ==> at.i < |items| && at.attempt < 3 && HasRoom(cfg, s, items[at.i].alias))
    case Reconciling(ok, err) => Harmless(ok) && Harmless(err)
    case _ => true
  }

  /** No call is about to be made there. */
  ghost predicate Harmless(op: Op)
  {
    && (op.Load? ==> op.loadAt.LoadDeciding? || op.loadAt.LoadSettling?)
    && (op.Unload? ==> op.unloadAt.UnloadDeciding? || op.unloadAt.UnloadSettling?)
    && (op.Restore? ==> !op.at.Trying? && !op.at.Reloading?)
    && !op.Reconciling?
  }

  lemma RestoreMayCall(cfg: Config, s: State)
    requires Enabled(s, Advance) && s.op.Restore? && MayCall(cfg, s)
    ensures MayCall(cfg, Advanced(cfg, s))
  {
    var d := RestoreDecision(cfg, s, s.op.t, s.op.items, s.op.at);
    assert Advanced(cfg, s).residents == s.residents && Advanced(cfg, s).op == d.op;
    if s.op.at.Placing? {
      OccupiedCounts(s.residents);
    }
  }

  lemma AdvanceMayCall(cfg: Config, s: State)
    requires Enabled(s, Advance) && MayCall(cfg, s)
    ensures MayCall(cfg, Advanced(cfg, s))
  {
    match s.op {
      case Restore(_, _, _) => RestoreMayCall(cfg, s);
      case Load(_, _) => OccupiedCounts(s.residents);
      case _ =>
    }
  }

  lemma AnswerMayCall(cfg: Config, s: State, ok: bool)
    requires Enabled(s, Answer(ok)) && MayCall(cfg, s)
    ensures MayCall(cfg, s.(op := Answered(s.op, ok)))
  {
  }

  lemma LeaseMayCall(cfg: Config, s: State, step: Step)
    requires Enabled(s, step) && MayCall(cfg, s) && (step.Acquire? || step.Release?)
    ensures MayCall(cfg, Next(cfg, s, step))
  {
  }

  lemma HealthMayCall(cfg: Config, s: State, report: Option<seq<Resident>>)
    requires Enabled(s, Health(report)) && MayCall(cfg, s)
    ensures MayCall(cfg, Next(cfg, s, Health(report)))
  {
    var n := Next(cfg, s, Health(report));
    assert Harmless(n.op);
  }

  /** Any other step begins an operation, ends one, or leaves it alone. */
  lemma OtherMayCall(cfg: Config, s: State, step: Step)
    requires Enabled(s, step) && MayCall(cfg, s)
    requires !step.Advance? && !step.Answer? && !step.Acquire? && !step.Release? && !step.Health?
    ensures MayCall(cfg, Next(cfg, s, step))
  {
    var n := Next(cfg, s, step);
    if n.op == s.op {
      assert n.states == s.states && n.residents == s.residents && n.owned == s.owned;
    }
  }

  lemma StepMayCall(cfg: Config, s: State, step: Step)
    requires Enabled(s, step) && MayCall(cfg, s)
    ensures MayCall(cfg, Next(cfg, s, step))
  {
    match step {
      case Advance => AdvanceMayCall(cfg, s);
      case Answer(ok) => AnswerMayCall(cfg, s, ok);
      case Acquire(_) => LeaseMayCall(cfg, s, step);
      case Release(_) => LeaseMayCall(cfg, s, step);
      case Health(report) => HealthMayCall(cfg, s, report);
      case _ => OtherMayCall(cfg, s, step);
    }
  }

  lemma {:induction false} RunsMayCall(cfg: Config, run: seq<Step>)
    requires Legal(cfg, run)
    ensures MayCall(cfg, After(cfg, run))
  {
    if run != [] {
      RunsMayCall(cfg, run[..|run| - 1]);
      StepMayCall(cfg, After(cfg, run[..|run| - 1]), run[|run| - 1]);
    }
  }

  /** In every interleaving: the provider is asked to load a model, by a load or by a
      restoration, only while by the last report an LLM more fits into its pool, and by a
      restoration at most three times; it is asked to unload a single model only if that is
      not known to be unloaded, and an external one only if this manager loaded it. */
  lemma CallsAreAllowed(cfg: Config, run: seq<Step>)
    requires Legal(cfg, run)
    ensures
      var s := After(cfg, run);
      match s.op
      case Load(a, LoadCalling) => HasRoom(cfg, s, a) && cfg.bindings[a].residency != External
      case Unload(a, UnloadCalling) =>
        StateOf(s, a) != Some(Unloaded) && (a in cfg.bindings && cfg.bindings[a].residency == External ==> a in s.owned)
      case Restore(_, items, Reloading(i, attempt)) => i < |items| && attempt < 3 && HasRoom(cfg, s, items[i].alias)
      case _ => true
  {
    RunsMayCall(cfg, run);
  }

  /** A call that the provider refused leaves the model failed; a refused reload is tried
      again, up to three times. */
  lemma RefusedCallsFail(cfg: Config, s: State)
    requires Enabled(s, Answer(false))
    ensures
      var n := Next(cfg, s, Answer(false));
      match s.op
      case Load(a, _) => n.op == Failing(a)
      case Unload(a, _) => n.op == Failing(a)
      case UnloadAll(_) => n.op.Free?
      case Restore(t, items, Reloading(i, attempt)) =>
        n.op == if attempt < 2 then Restore(t, items, Trying(i, attempt + 1)) else Failing(items[i].alias)
      case Restore(t, items, Undoing) => n.op == Reconciling(Restore(t, items, Rechecking), Restore(t, items, Rechecking))
      case Restore(t, _, _) => n.op == Failing(t)
      case _ => true
    ensures forall a :: StateOf(Next(cfg, s.(op := Failing(a)), Advance), a) == Some(Failed)
  {
  }

  // --------------------------------------------------------------- how leases come and go

  /** A lease is granted exactly on a ready or busy model; given back, it leaves the count
      and the state as they were, and if it was the last one the idle timer is armed for
      a transient with displaced models in a pool that restores, and for nothing else. */
  lemma LeaseRoundTrip(cfg: Config, s: State, a: string)
    requires a in cfg.bindings && LeasedFor(s, a) && a in s.states
    ensures
      var held := Acquired(s, a);
      var n := Released(cfg, held, a);
      if s.states[a] !in {Ready, Busy} then held == s
      else
        && Get(held.active, a) == Get(s.active, a) + 1 && held.states == s.states[a := Busy] && a !in held.timers.armed
        && Get(n.active, a) == Get(s.active, a) && n.states == s.states[a := if Get(s.active, a) > 0 then Busy else Ready]
        && n.timers.due == s.timers.due
        && (a in n.timers.armed <==>
              && Get(s.active, a) == 0 && cfg.bindings[a].residency == Transient && a in s.displaced && s.displaced[a] != []
              && cfg.bindings[a].pool in cfg.pools && cfg.pools[cfg.bindings[a].pool].restorePreferred)
        && n == s.(states := n.states, active := n.active, timers := n.timers)
  {
  }

  // ------------------------------------------------------------------ displaced records

  /** What is recorded of each model is what the configuration says of it. */
  ghost predicate Copied(cfg: Config, items: seq<Displaced>)
  {
    forall i :: 0 <= i < |items| ==>
      && items[i].alias in cfg.bindings
      && items[i].model == cfg.bindings[items[i].alias].providerModel && items[i].priority == cfg.bindings[items[i].alias].priority
  }

  lemma {:induction false} VictimsCopied(cfg: Config, residents: seq<Resident>, items: seq<Displaced>, victims: seq<string>)
    requires Copied(cfg, items)
    ensures Copied(cfg, WithVictims(cfg, residents, items, victims))
  {
    if victims != [] {
      VictimsCopied(cfg, residents, items, victims[..|victims| - 1]);
    }
  }

  lemma SwapCopied(cfg: Config, s: State, target: string, victims: seq<string>)
    requires Copied(cfg, RecordOf(s, target))
    ensures Copied(cfg, RecordOf(SwapBegun(cfg, s, target, victims), target))
  {
    if cfg.ResidencyOf(target) == Some(Transient) {
      var all := WithVictims(cfg, s.residents, RecordOf(s, target), victims);
      VictimsCopied(cfg, s.residents, RecordOf(s, target), victims);
      InOrderSorts(all);
      SameMembers(all, InOrder(all));
      assert forall i :: 0 <= i < |InOrder(all)| ==> InOrder(all)[i] in all;
    }
  }

  /** Whether a model was pinned when it was displaced. */
  ghost predicate PinNoted(report: seq<Resident>, d: Displaced)
  {
    d.wasPinned <==>
      exists i :: 0 <= i < |report| && report[i].name == d.model && report[i].pinned && forall j :: 0 <= j < i ==> report[j].name != d.model
  }

  lemma {:induction false} VictimsPinNoted(cfg: Config, residents: seq<Resident>, items: seq<Displaced>, victims: seq<string>)
    ensures forall d :: d in WithVictims(cfg, residents, items, victims) ==> d in items || PinNoted(residents, d)
  {
    if victims != [] {
      var v := victims[|victims| - 1];
      VictimsPinNoted(cfg, residents, items, victims[..|victims| - 1]);
      if v in cfg.bindings {
        PinnedMeans(residents, cfg.bindings[v].providerModel);
      }
    }
  }

  /** What a swap records of a model it displaces is whether the last report's first entry
      of it says pinned. */
  lemma SwapNotesPins(cfg: Config, s: State, target: string, victims: seq<string>)
    ensures forall d :: d in RecordOf(SwapBegun(cfg, s, target, victims), target) ==>
      d in RecordOf(s, target) || PinNoted(s.residents, d)
  {
    if cfg.ResidencyOf(target) == Some(Transient) {
      var all := WithVictims(cfg, s.residents, RecordOf(s, target), victims);
      VictimsPinNoted(cfg, s.residents, RecordOf(s, target), victims);
      InOrderSorts(all);
      SameMembers(all, InOrder(all));
    }
  }

  lemma {:induction false} RunsCopy(cfg: Config, run: seq<Step>, t: string)
    requires Legal(cfg, run)
    ensures Copied(cfg, RecordOf(After(cfg, run), t))
  {
    if run != [] {
      var s, step := After(cfg, run[..|run| - 1]), run[|run| - 1];
      RunsCopy(cfg, run[..|run| - 1], t);
      RecordChanges(cfg, s, step, t);
      if step.BeginSwap? && step.target == t {
        SwapCopied(cfg, s, t, step.victims);
      }
    }
  }

  /** In every run a record lists distinct preferred models with what the configuration
      says of them, the smaller priority number first, and among equals the earlier name;
      a restoration reloads them in that order. */
  lemma RecordsAreInOrder(cfg: Config, run: seq<Step>, t: string)
    requires Legal(cfg, run)
    ensures
      var items := RecordOf(After(cfg, run), t);
      && Copied(cfg, items)
      && (forall i :: 0 <= i < |items| ==> cfg.bindings[items[i].alias].residency == Preferred)
      && forall i, j :: 0 <= i < j < |items| ==>
           var a, b := cfg.bindings[items[i].alias], cfg.bindings[items[j].alias];
           a.priority < b.priority || (a.priority == b.priority && Before(items[i].alias, items[j].alias))
  {
    RunsKeepInvariant(cfg, run);
    RunsCopy(cfg, run, t);
    assert RecordedFor(cfg, After(cfg, run), t);
  }

  // --------------------------------------------------------------- giving way to demand

  /** A transient that is wanted comes first: wherever its restoration looks, it reloads
      nothing more and keeps nothing just reloaded, and ends with the transient ready. */
  lemma WantedTransientComesFirst(cfg: Config, s: State)
    requires Enabled(s, Advance) && s.op.Restore? && Get(s.demand, s.op.t) > 0
    ensures
      var t, items, n := s.op.t, s.op.items, Next(cfg, s, Advance);
      match s.op.at
      case Deciding => n.op.Free? && StateOf(n, t) == Some(Ready)
      case AtItem(i) => i < |items| ==> n.op == Restore(t, items, Resuming)
      case Trying(_, _) => n.op == Restore(t, items, Resuming)
      case Confirming(_) => n.op == Restore(t, items, Undoing) && n.log == s.log
      case Rechecking => n.op == Restore(t, items, Resuming)
      case Resuming => n.op == Restore(t, items, if StateOf(s, t) == Some(Unloaded) then ResumeCalling else ResumeMarking)
      case ResumeMarking => n.op.Free? && StateOf(n, t) == Some(Ready)
      case _ => true
  {
  }

  /** What the end of a restoration leaves. */
  ghost predicate Restored(s: State, t: string, items: seq<Displaced>)
  {
    s.op.Free? && StateOf(s, t) == Some(Unloaded) && Aliases(items) <= s.owned && t !in s.displaced
  }

  ghost predicate Continues(cfg: Config, run: seq<Step>, longer: seq<Step>)
  {
    run <= longer && Legal(cfg, longer)
  }

  /** A restoration that found its transient unloaded can be finished from wherever it
      stands, if there is no demand for the transient and its models' pools hold any. */
  lemma {:induction false} RestorationCanFinish(cfg: Config, run: seq<Step>, t: string, items: seq<Displaced>, i: nat)
    requires Legal(cfg, run) && i <= |items| && After(cfg, run).op == Restore(t, items, AtItem(i))
    requires Get(After(cfg, run).demand, t) <= 0 && After(cfg, run).residents == []
    requires forall k :: 0 <= k < |items| ==> items[k].alias in cfg.bindings && cfg.PoolOf(items[k].alias).capacity > 0
    ensures exists longer :: Continues(cfg, run, longer) && Restored(After(cfg, longer), t, items)
    decreases |items| - i
  {
    if i == |items| {
      var finished := AllReloaded(cfg, run, t, items);
      assert Continues(cfg, run, finished) && Restored(After(cfg, finished), t, items);
    } else {
      var placed := ItemPlaced(cfg, run, t, items, i);
      var next := ItemReloaded(cfg, placed, t, items, i);
      RestorationCanFinish(cfg, next, t, items, i + 1);
      var longer :| Continues(cfg, next, longer) && Restored(After(cfg, longer), t, items);
      assert Continues(cfg, run, longer);
    }
  }

  lemma AllReloaded(cfg: Config, run: seq<Step>, t: string, items: seq<Displaced>) returns (longer: seq<Step>)
    requires Legal(cfg, run) && After(cfg, run).op == Restore(t, items, AtItem(|items|))
    ensures Continues(cfg, run, longer) && Restored(After(cfg, longer), t, items)
  {
    var r1, s1 := Take(cfg, run, Advance);
    var r2, s2 := Take(cfg, r1, Advance);
    longer := r2;
  }

  lemma ItemPlaced(cfg: Config, run: seq<Step>, t: string, items: seq<Displaced>, i: nat) returns (longer: seq<Step>)
    requires Legal(cfg, run) && i < |items| && After(cfg, run).op == Restore(t, items, AtItem(i))
    requires Get(After(cfg, run).demand, t) <= 0 && After(cfg, run).residents == []
    requires items[i].alias in cfg.bindings && cfg.PoolOf(items[i].alias).capacity > 0
    ensures Continues(cfg, run, longer) && After(cfg, longer).op == Restore(t, items, Trying(i, 0))
    ensures Get(After(cfg, longer).demand, t) <= 0
  {
    assert Occupied([]) == 0;
    var r1, s1 := Take(cfg, run, Advance);
    assert s1.op == Restore(t, items, Placing(i)) && s1.residents == [] && s1.demand == After(cfg, run).demand;
    var r2, s2 := Take(cfg, r1, Advance);
    longer := r2;
  }

  lemma ItemReloaded(cfg: Config, run: seq<Step>, t: string, items: seq<Displaced>, i: nat) returns (longer: seq<Step>)
    requires Legal(cfg, run) && i < |items| && After(cfg, run).op == Restore(t, items, Trying(i, 0))
    requires Get(After(cfg, run).demand, t) <= 0
    ensures Continues(cfg, run, longer) && After(cfg, longer).op == Restore(t, items, AtItem(i + 1))
    ensures Get(After(cfg, longer).demand, t) <= 0 && After(cfg, longer).residents == []
  {
    var tried := ItemTried(cfg, run, t, items, i);
    var reported := ItemReported(cfg, tried, t, items, i);
    longer := ItemKept(cfg, reported, t, items, i);
  }

  lemma ItemTried(cfg: Config, run: seq<Step>, t: string, items: seq<Displaced>, i: nat) returns (longer: seq<Step>)
    requires Legal(cfg, run) && i < |items| && After(cfg, run).op == Restore(t, items, Trying(i, 0))
    requires Get(After(cfg, run).demand, t) <= 0
    ensures Continues(cfg, run, longer) && After(cfg, longer).op == Restore(t, items, Reloading(i, 0))
    ensures After(cfg, longer).demand == After(cfg, run).demand
  {
    var r1, s1 := Take(cfg, run, Advance);
    longer := r1;
  }

  lemma ItemKept(cfg: Config, run: seq<Step>, t: string, items: seq<Displaced>, i: nat) returns (longer: seq<Step>)
    requires Legal(cfg, run) && i < |items| && After(cfg, run).op == Restore(t, items, Confirming(i))
    requires Get(After(cfg, run).demand, t) <= 0
    ensures Continues(cfg, run, longer) && After(cfg, longer).op == Restore(t, items, AtItem(i + 1))
    ensures After(cfg, longer).demand == After(cfg, run).demand && After(cfg, longer).residents == After(cfg, run).residents
  {
    var r1, s1 := Take(cfg, run, Advance);
    longer := r1;
  }

  lemma ItemReported(cfg: Config, run: seq<Step>, t: string, items: seq<Displaced>, i: nat) returns (longer: seq<Step>)
    requires Legal(cfg, run) && i < |items| && After(cfg, run).op == Restore(t, items, Reloading(i, 0))
    ensures Continues(cfg, run, longer) && After(cfg, longer).op == Restore(t, items, Confirming(i))
    ensures After(cfg, longer).demand == After(cfg, run).demand && After(cfg, longer).residents == []
  {
    var r1, s1 := Take(cfg, run, Answer(true));
    assert s1.op == Reconciling(Restore(t, items, Confirming(i)), Failing(items[i].alias));
    var r2, s2 := Take(cfg, r1, Health(Some([])));
    longer := r2;
  }
}
