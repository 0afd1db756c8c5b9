/** The provider manager's methods on its fields. The code between two locked regions
    runs beside other goroutines: `Others` lets any finite list of lease, demand and
    swap steps happen there. A ghost trace records every step, so the manager is
    always in a state that a run of `ProviderSpec` reaches. */
module ProviderManager {
  import opened Names
  import opened ProviderSpec
  import opened ProviderRuns
  import opened ProviderReports

  /** What the world does: health reports, the provider's answers, whether the manager
      is closed while a reload waits to be retried, and what other goroutines do in
      the n-th gap between locked regions. */
  datatype World = World(
    report: nat -> Option<seq<Resident>>,
    answer: nat -> bool,
    closed: nat -> bool,
    others: nat -> seq<Step>)

  method CountLlms(residents: seq<Resident>) returns (occupied: nat)
    ensures occupied == Occupied(residents)
    ensures occupied == |set i | 0 <= i < |residents| && residents[i].kind in {"", "llm"}|
  {
    OccupiedCounts(residents);
    occupied := 0;
    for i := 0 to |residents|
      invariant occupied == Occupied(residents[..i])
    {
      assert residents[..i + 1][..i] == residents[..i];
      if residents[i].kind == "" || residents[i].kind == "llm" {
        occupied := occupied + 1;
      }
    }
    assert residents[..|residents|] == residents;
  }

  method IsPinned(residents: seq<Resident>, name: string) returns (pinned: bool)
    ensures pinned == PinnedNow(residents, name)
  {
    for i := 0 to |residents|
      invariant PinnedNow(residents, name) == PinnedNow(residents[i..], name)
    {
      assert residents[i..][1..] == residents[i + 1..];
      if residents[i].name == name {
        return residents[i].pinned;
      }
    }
    return false;
  }

  method InsertItem(sorted: seq<Displaced>, x: Displaced) returns (longer: seq<Displaced>)
    ensures longer == Inserted(sorted, x)
  {
    var j := 0;
    while j < |sorted| && !Sooner(x, sorted[j])
      invariant j <= |sorted| && Inserted(sorted, x) == sorted[..j] + Inserted(sorted[j..], x)
    {
      assert sorted[j..][1..] == sorted[j + 1..];
      assert sorted[..j + 1] == sorted[..j] + [sorted[j]];
      j := j + 1;
    }
    assert Inserted(sorted[j..], x) == [x] + sorted[j..];
    longer := sorted[..j] + [x] + sorted[j..];
  }

  /** Sorts a record by repeated insertion. */
  method SortItems(items: seq<Displaced>) returns (sorted: seq<Displaced>)
    ensures sorted == InOrder(items)
  {
    sorted := [];
    for n := 0 to |items|
      invariant sorted == InOrder(items[..n])
    {
      assert items[..n + 1][..n] == items[..n];
      sorted := InsertItem(sorted, items[n]);
    }
    assert items[..|items|] == items;
  }

  /** The resident models by name. */
  method ByName(residents: seq<Resident>) returns (byName: map<string, Resident>)
    ensures forall name :: Named(residents, name) == if name in byName then Some(byName[name]) else None
  {
    byName := map[];
    for i := 0 to |residents|
      invariant forall name :: Named(residents[..i], name) == if name in byName then Some(byName[name]) else None
    {
      assert residents[..i + 1][..i] == residents[..i];
      byName := byName[residents[i].name := residents[i]];
    }
    assert residents[..|residents|] == residents;
  }

  /** The model whose demand the running operation has raised itself; nobody else
      takes that back. */
  class Claim {
    var alias: Option<string>

    constructor ()
      ensures alias == None
    {
      alias := None;
    }
  }

  class Manager {
    const cfg: Config
    const claim: Claim
    var states: map<string, ModelState>
    var active: map<string, int>
    var demand: map<string, int>
    var displaced: map<string, seq<Displaced>>
    var owned: set<string>
    var timers: set<string>
    /** Restorations that nothing can stop any more: their timer fired, or was replaced
        or forgotten while armed. */
    var due: map<string, int>
    var health: seq<Resident>
    var gap: nat
    ghost var trace: seq<Step>
    ghost var state: State

    ghost predicate Traced()
      reads this
    {
      Legal(cfg, trace) && state == After(cfg, trace)
    }

    /** The fields, with the operation under way and the history. */
    ghost function Fields(): State
      reads this
    {
      State(states, active, demand, displaced, owned, Timers(timers, due), health, state.op, state.log)
    }

    ghost predicate Valid()
      reads this, claim
    {
      Traced() && state == Fields() && (claim.alias.Some? ==> Get(demand, claim.alias.value) > 0)
    }

    constructor (cfg: Config)
      ensures Valid() && this.cfg == cfg && state == Initial(cfg) && fresh(claim) && claim.alias == None
    {
      this.cfg := cfg;
      claim := new Claim();
      states := map a | a in cfg.bindings :: Unloaded;
      active, demand, displaced, owned, timers, due, health, gap := map[], map[], map[], {}, {}, map[], [], 0;
      trace, state := [], Initial(cfg);
    }

    ghost method Did(step: Step)
      requires Traced() && Enabled(state, step)
      modifies this`trace, this`state
      ensures Traced() && trace == old(trace) + [step] && state == Next(cfg, old(state), step)
    {
      Extend(cfg, trace, step);
      state := Next(cfg, state, step);
      trace := trace + [step];
    }

    // ------------------------------------------------------ leases and demand

    method Acquire(alias: string) returns (granted: bool)
      requires Valid() && Formed(state.op)
      modifies this
      ensures Valid() && gap == old(gap) && state == Acquired(old(state), alias)
      ensures granted <==> alias in old(states) && old(states)[alias] in {Ready, Busy}
    {
      granted := TakeLease(alias);
      Did(Step.Acquire(alias));
    }

    method TakeLease(alias: string) returns (granted: bool)
      modifies this`timers, this`active, this`states
      ensures Fields() == Acquired(old(Fields()), alias)
      ensures granted <==> Servable(old(Fields()), alias)
    {
      if alias !in states || (states[alias] != Ready && states[alias] != Busy) {
        return false;
      }
      timers := timers - {alias};
      active := active[alias := Get(active, alias) + 1];
      if states[alias] == Ready {
        states := states[alias := Busy];
      }
      assert states == old(states)[alias := Busy];
      return true;
    }

    method Release(alias: string)
      requires Valid() && Formed(state.op)
      modifies this
      ensures Valid() && gap == old(gap) && state == Released(cfg, old(state), alias)
    {
      ReturnLease(alias);
      Did(Step.Release(alias));
    }

    method ReturnLease(alias: string)
      modifies this`timers, this`due, this`active, this`states
      ensures Fields() == Released(cfg, old(Fields()), alias)
    {
      if alias !in cfg.bindings {
        return;
      }
      var n := Get(active, alias);
      if n > 0 {
        n := n - 1;
      }
      active := active[alias := n];
      if n == 0 {
        if alias in states && states[alias] == Busy {
          states := states[alias := Ready];
        }
        var record := if alias in displaced then displaced[alias] else [];
        if RestoreDue(cfg, record, alias) {
          Arm(alias);
        }
      }
    }

    method Arm(alias: string)
      modifies this`timers, this`due
      ensures Timers(timers, due) == old(Timers(timers, due)).Rearmed(alias)
    {
      if alias in timers {
        due := due[alias := Get(due, alias) + 1];
      }
      timers := timers + {alias};
    }

    method TimerFires(t: string)
      requires Valid() && Enabled(state, Fire(t))
      modifies this
      ensures Valid() && gap == old(gap) && state == Next(cfg, old(state), Fire(t)) && Kept(old(state), state)
    {
      Did(Fire(t));
      timers := timers - {t};
      due := due[t := Get(due, t) + 1];
    }

    method AddDemand(alias: string)
      requires Valid() && Formed(state.op)
      modifies this
      ensures Valid() && gap == old(gap) && state == Next(cfg, old(state), DemandUp(alias)) && Kept(old(state), state)
      ensures alias !in timers && Get(demand, alias) == old(Get(demand, alias)) + 1
    {
      Did(DemandUp(alias));
      demand := demand[alias := Get(demand, alias) + 1];
      timers := timers - {alias};
    }

    method DropDemand(alias: string)
      requires Valid() && Enabled(state, DemandDown(alias))
      requires claim.alias == Some(alias) ==> Get(demand, alias) > 1
      modifies this
      ensures Valid() && gap == old(gap) && state == Next(cfg, old(state), DemandDown(alias)) && Kept(old(state), state)
    {
      Did(DemandDown(alias));
      demand := demand[alias := Get(demand, alias) - 1];
    }

    /** The record extended by the victims that are preferred models and not in it yet. */
    method CollectVictims(was: seq<Displaced>, victims: seq<string>) returns (items: seq<Displaced>)
      ensures items == WithVictims(cfg, health, was, victims)
    {
      items := was;
      var seen := set i | 0 <= i < |items| :: items[i].alias;
      for i := 0 to |victims|
        invariant items == WithVictims(cfg, health, was, victims[..i])
        invariant forall a :: a in seen <==> Seen(items, a)
      {
        assert victims[..i + 1][..i] == victims[..i];
        var victim := victims[i];
        if victim !in cfg.bindings || cfg.bindings[victim].residency != Preferred || victim in seen {
          continue;
        }
        var binding := cfg.bindings[victim];
        var pinned := IsPinned(health, binding.providerModel);
        var item := Displaced(victim, binding.providerModel, pinned, binding.priority);
        forall a
          ensures Seen(items + [item], a) <==> Seen(items, a) || a == victim
        {
          SeenNext(items, item, a);
        }
        items := items + [item];
        seen := seen + {victim};
      }
      assert victims[..|victims|] == victims;
    }

    method BeginSwap(target: string, victims: seq<string>)
      requires Valid() && Formed(state.op)
      modifies this
      ensures Valid() && gap == old(gap) && state == SwapBegun(cfg, old(state), target, victims)
    {
      Did(Step.BeginSwap(target, victims));
      if target !in cfg.bindings || cfg.bindings[target].residency != Transient {
        return;
      }
      var items := CollectVictims(if target in displaced then displaced[target] else [], victims);
      var sorted := SortItems(items);
      displaced := displaced[target := sorted];
    }

    // ------------------------------------------------- beside other goroutines

    /** What other goroutines do in the next gap. They take leases, give them back,
        raise demand and drop what they raised, and begin swaps, and timers fire;
        operations wait for their lock. */
    method Others(world: World)
      requires Valid() && Formed(state.op)
      modifies this
      ensures Valid() && gap == old(gap) + 1 && Meanwhile(old(state), state)
    {
      gap := gap + 1;
      var steps := world.others(gap);
      for i := 0 to |steps|
        invariant Valid() && Formed(state.op) && gap == old(gap) + 1 && Meanwhile(old(state), state)
      {
        Other(steps[i]);
      }
    }

    method Other(step: Step)
      requires Valid() && Formed(state.op)
      modifies this
      ensures Valid() && gap == old(gap) && Meanwhile(old(state), state)
    {
      RunsKeepInvariant(cfg, trace);
      match step {
        case Acquire(a) => var _ := Acquire(a);
        case Release(a) => Release(a);
        case DemandUp(a) => AddDemand(a);
        case DemandDown(a) =>
          if Get(demand, a) > (if claim.alias == Some(a) then 1 else 0) {
            DropDemand(a);
          }
        case BeginSwap(target, victims) =>
          SwapGrows(cfg, state, target, victims);
          BeginSwap(target, victims);
        case Fire(t) =>
          if t in timers {
            TimerFires(t);
          }
        case _ =>
      }
    }

    /** What a health report says about one configured model. */
    method ObserveOne(report: seq<Resident>, resident: map<string, Resident>, alias: string) returns (next: ModelState)
      requires alias in cfg.bindings
      requires forall name :: Named(report, name) == if name in resident then Some(resident[name]) else None
      ensures next == Observed(cfg, active, report, alias)
    {
      next := Unloaded;
      var name := cfg.bindings[alias].providerModel;
      assert Named(report, name) == if name in resident then Some(resident[name]) else None;
      if name in resident {
        next := Reported(resident[name]);
      }
      if Get(active, alias) > 0 && next == Ready {
        next := Busy;
      }
    }

    /** What a health report says about every configured model. */
    method Observe(report: seq<Resident>) returns (next: map<string, ModelState>)
      ensures next == states + map a | a in cfg.bindings :: Observed(cfg, active, report, a)
    {
      var resident := ByName(report);
      next := states;
      var left := cfg.bindings.Keys;
      while left != {}
        invariant left <= cfg.bindings.Keys && next.Keys == states.Keys + (cfg.bindings.Keys - left)
        invariant forall a :: a in next ==>
          next[a] == if a in cfg.bindings && a !in left then Observed(cfg, active, report, a) else states[a]
        decreases |left|
      {
        var alias :| alias in left;
        left := left - {alias};
        var one := ObserveOne(report, resident, alias);
        next := next[alias := one];
      }
    }

    /** Takes over a health report; without one, nothing changes. */
    method ReconcileLocked(world: World) returns (ok: bool)
      requires Valid() && Formed(state.op) && state.op.Reconciling?
      modifies this
      ensures Valid() && state.op == (if ok then old(state).op.ok else old(state).op.err) && Kept(old(state), state)
    {
      Others(world);
      var report := world.report(gap);
      if report.Some? {
        states := Observe(report.value);
        health := report.value;
      }
      Did(Health(report));
      return report.Some?;
    }

    /** Hears what the provider answered to the call under way. */
    method Ask(world: World) returns (ok: bool)
      requires Valid() && Formed(state.op) && Calls(state.op)
      modifies this
      ensures Valid() && state.op == Answered(old(state).op, ok) && Kept(old(state), state)
    {
      Others(world);
      ok := world.answer(gap);
      Did(Answer(ok));
    }

    /** The operation ends with the model marked failed. */
    method SetFailed(alias: string, world: World)
      requires Valid() && state.op == Failing(alias)
      modifies this
      ensures Valid() && state.op.Free? && Kept(old(state), state) && StateOf(state, alias) == Some(Failed)
    {
      Others(world);
      states := states[alias := Failed];
      Did(Advance);
    }

    /** A call to the provider and a fresh look at it; a failure of either is noted. */
    method CallAndReconcile(alias: string, ghost ok: Op, world: World) returns (done: bool)
      requires Valid() && Formed(state.op) && Calls(state.op) && !ok.Reconciling? && Runnable(ok)
      requires Answered(state.op, true) == Reconciling(ok, Failing(alias)) && Answered(state.op, false) == Failing(alias)
      modifies this
      ensures Valid() && Kept(old(state), state) && state.op == if done then ok else Free
      ensures !done ==> StateOf(state, alias) == Some(Failed)
    {
      done := Ask(world);
      if done {
        done := ReconcileLocked(world);
      }
      if !done {
        SetFailed(alias, world);
      }
    }

    // -------------------------------------------------------- load and unload

    /** What an outcome of a load says of the report the load ended on and of its model: a
        load that succeeds, or finds nothing to do, has the model listed as ready; one that
        fails leaves it failed; and one is refused only for an external model or for want
        of room. */
    ghost predicate Says(outcome: LoadOutcome, alias: string)
      requires alias in cfg.bindings
      reads this
    {
      match outcome
      case Loaded => ListsReady(health, cfg.bindings[alias].providerModel) && alias in owned
      case Coalesced => ListsReady(health, cfg.bindings[alias].providerModel)
      case LoadFailed => alias in states && states[alias] == Failed
      case NotResident => cfg.bindings[alias].residency == External
      case NoCapacity => !HasRoom(cfg, state, alias) && state.residents == health
      case _ => true
    }

    /** Loads a model unless it is ready already, is not ours to load, or the pool is
        full of models that could not be evicted. Demand for it is visible throughout. */
    method Load(alias: string, world: World) returns (outcome: LoadOutcome)
      requires Valid() && state.op.Free? && claim.alias == None
      modifies this, claim
      ensures Valid() && state.op.Free? && claim.alias == None && Kept(old(state), state)
      ensures outcome == NotConfigured <==> alias !in cfg.bindings
      ensures alias in cfg.bindings ==> Says(outcome, alias)
    {
      if alias !in cfg.bindings {
        return NotConfigured;
      }
      RaiseDemand(alias);
      outcome := LoadLocked(alias, world);
      claim.alias := None;
      DropDemand(alias);
    }

    method RaiseDemand(alias: string)
      requires Valid() && state.op.Free? && claim.alias == None
      modifies this, claim
      ensures Valid() && claim.alias == Some(alias) && state.op.Free? && Kept(old(state), state)
    {
      RunsKeepDemand(cfg, trace, alias);
      AddDemand(alias);
      claim.alias := Some(alias);
    }

    /** With the operation lock held, and the demand that was raised for it. */
    method LoadLocked(alias: string, world: World) returns (outcome: LoadOutcome)
      requires Valid() && state.op.Free? && alias in cfg.bindings && claim.alias == Some(alias)
      modifies this
      ensures Valid() && state.op.Free? && Kept(old(state), state) && Get(demand, alias) > 0
      ensures outcome != NotConfigured && outcome != Proceed && Says(outcome, alias)
    {
      outcome := PrepareLoad(alias, world);
      if outcome == Proceed {
        var loaded := PerformLoad(alias, world);
        outcome := if loaded then Loaded else LoadFailed;
      }
    }

    method PrepareLoad(alias: string, world: World) returns (outcome: LoadOutcome)
      requires Valid() && state.op.Free? && alias in cfg.bindings
      modifies this
      ensures Valid() && Kept(old(state), state)
      ensures outcome in {Proceed, Coalesced, NotResident, NoCapacity, NoReport} && Says(outcome, alias)
      ensures state.op == if outcome == Proceed then Op.Load(alias, LoadMarking) else Free
    {
      Did(BeginLoad(alias));
      var ok := ReconcileLocked(world);
      if !ok {
        return NoReport;
      }
      outcome := DecideLoad(alias, world);
    }

    method PerformLoad(alias: string, world: World) returns (loaded: bool)
      requires Valid() && state.op == Op.Load(alias, LoadMarking) && alias in cfg.bindings
      modifies this
      ensures Valid() && state.op.Free? && Kept(old(state), state)
      ensures Says(if loaded then Loaded else LoadFailed, alias)
    {
      MarkLoading(alias, world);
      loaded := CallAndReconcile(alias, Op.Load(alias, LoadSettling), world);
      if !loaded {
        return;
      }
      loaded := SettleLoad(alias, world);
      if !loaded {
        SetFailed(alias, world);
      }
    }

    method DecideLoad(alias: string, world: World) returns (outcome: LoadOutcome)
      requires Valid() && state.op == Op.Load(alias, LoadDeciding) && alias in cfg.bindings
      modifies this
      ensures Valid() && Kept(old(state), state)
      ensures outcome in {Proceed, Coalesced, NotResident, NoCapacity} && Says(outcome, alias)
      ensures state.op == if outcome == Proceed then Op.Load(alias, LoadMarking) else Free
      ensures outcome == Proceed ==> HasRoom(cfg, state, alias) && cfg.bindings[alias].residency != External
    {
      Others(world);
      LooksReady(cfg, trace, alias);
      var occupied := CountLlms(health);
      Did(Advance);
      if alias in states && states[alias] == Ready {
        return Coalesced;
      }
      if cfg.bindings[alias].residency == External {
        return NotResident;
      }
      if occupied >= cfg.PoolOf(alias).capacity {
        return NoCapacity;
      }
      return Proceed;
    }

    method MarkLoading(alias: string, world: World)
      requires Valid() && state.op == Op.Load(alias, LoadMarking)
      modifies this
      ensures Valid() && Kept(old(state), state) && state.op == Op.Load(alias, LoadCalling)
    {
      Others(world);
      states := states[alias := ModelState.Loading];
      Did(Advance);
    }

    method SettleLoad(alias: string, world: World) returns (ready: bool)
      requires Valid() && state.op == Op.Load(alias, LoadSettling) && alias in cfg.bindings
      modifies this
      ensures Valid() && Kept(old(state), state)
      ensures state.op == if ready then Free else Failing(alias)
      ensures ready <==> ListsReady(health, cfg.bindings[alias].providerModel) && Get(active, alias) == 0
      ensures ready ==> alias in owned
    {
      Others(world);
      LooksReady(cfg, trace, alias);
      ready := alias in states && states[alias] == Ready;
      if ready {
        owned := owned + {alias};
      }
      Did(Advance);
    }

    /** Unloads a model that is resident, ours, and has no lease when it is looked at. */
    method Unload(alias: string, world: World) returns (done: bool)
      requires Valid() && state.op.Free? && alias in cfg.bindings
      modifies this
      ensures Valid() && state.op.Free? && Kept(old(state), state)
      ensures done ==> alias !in owned && StateOf(state, alias) == Some(Unloaded)
    {
      done := PrepareUnload(alias, world);
      if !done {
        return;
      }
      MarkUnloading(alias, world);
      done := CallAndReconcile(alias, Op.Unload(alias, UnloadSettling), world);
      if done {
        SettleUnload(alias, world);
      }
    }

    method PrepareUnload(alias: string, world: World) returns (go: bool)
      requires Valid() && state.op.Free?
      modifies this
      ensures Valid() && Kept(old(state), state)
      ensures state.op == if go then Op.Unload(alias, UnloadMarking) else Free
    {
      Did(BeginUnload(alias));
      go := ReconcileLocked(world);
      if go {
        go := DecideUnload(alias, world);
      }
    }

    method DecideUnload(alias: string, world: World) returns (go: bool)
      requires Valid() && state.op == Op.Unload(alias, UnloadDeciding)
      modifies this
      ensures Valid() && Kept(old(state), state)
      ensures state.op == if go then Op.Unload(alias, UnloadMarking) else Free
      ensures go ==> Get(active, alias) <= 0 && !(cfg.ResidencyOf(alias) == Some(External) && alias !in owned)
    {
      Others(world);
      go := !(Get(active, alias) > 0 || (alias in states && states[alias] == Unloaded)
              || (cfg.ResidencyOf(alias) == Some(External) && alias !in owned));
      Did(Advance);
    }

    method MarkUnloading(alias: string, world: World)
      requires Valid() && state.op == Op.Unload(alias, UnloadMarking)
      modifies this
      ensures Valid() && Kept(old(state), state) && state.op == Op.Unload(alias, UnloadCalling)
    {
      Others(world);
      states := states[alias := Unloading];
      Did(Advance);
    }

    method SettleUnload(alias: string, world: World)
      requires Valid() && state.op == Op.Unload(alias, UnloadSettling)
      modifies this
      ensures Valid() && Kept(old(state), state) && state.op.Free?
      ensures alias !in owned && StateOf(state, alias) == Some(Unloaded)
    {
      Others(world);
      states := states[alias := Unloaded];
      owned := owned - {alias};
      Did(Advance);
    }

    /** Empties the provider; nothing is left to restore. */
    method UnloadAll(world: World) returns (done: bool)
      requires Valid() && state.op.Free?
      modifies this
      ensures Valid() && state.op.Free?
      ensures done ==> forall a :: a in cfg.bindings ==> StateOf(state, a) == Some(Unloaded) && a !in owned && a !in displaced
      ensures !done ==> Kept(old(state), state)
    {
      Did(BeginUnloadAll);
      done := ReconcileLocked(world);
      if !done {
        return;
      }
      done := Ask(world);
      if !done {
        return;
      }
      done := ReconcileLocked(world);
      if done {
        SettleUnloadAll(world);
      }
    }

    method SettleUnloadAll(world: World)
      requires Valid() && state.op == Op.UnloadAll(true)
      modifies this
      ensures Valid() && state.op.Free?
      ensures forall a :: a in cfg.bindings ==> StateOf(state, a) == Some(Unloaded) && a !in owned && a !in displaced
    {
      Others(world);
      ForgetAll();
      Did(Advance);
    }

    method ForgetAll()
      modifies this`states, this`owned, this`displaced
      ensures states == old(states) + map a | a in cfg.bindings :: Unloaded
      ensures owned == old(owned) - cfg.bindings.Keys && displaced == old(displaced) - cfg.bindings.Keys
    {
      var left := cfg.bindings.Keys;
      ghost var was, had, kept := states, owned, displaced;
      while left != {}
        invariant left <= cfg.bindings.Keys && states.Keys == was.Keys + (cfg.bindings.Keys - left)
        invariant forall a :: a in states ==> states[a] == if a in cfg.bindings && a !in left then Unloaded else was[a]
        invariant forall a :: a in owned <==> a in had && (a in cfg.bindings ==> a in left)
        invariant forall a :: a in displaced <==> a in kept && (a in cfg.bindings ==> a in left)
        invariant forall a :: a in displaced ==> displaced[a] == kept[a]
        decreases |left|
      {
        var alias :| alias in left;
        left := left - {alias};
        owned := owned - {alias};
        states := states[alias := Unloaded];
        displaced := displaced - {alias};
      }
    }

    // ---------------------------------------------------------------- restore

    /** Puts the displaced models back once the transient is idle. When it succeeds,
        every model recorded when it began has been reloaded and the record is gone;
        whenever it stops short the record is kept, so that a later idle moment can
        try again. */
    method Restore(t: string, world: World) returns (restored: bool)
      requires Valid() && state.op.Free? && Get(due, t) > 0
      modifies this
      ensures Valid() && state.op.Free?
      ensures restored ==> StateOf(state, t) == Some(Unloaded) && Aliases(RecordOf(old(state), t)) <= owned
      ensures restored ==> t !in displaced && forall i :: 0 <= i < |RecordOf(old(state), t)| ==>
        RecordOf(old(state), t)[i].alias in ReloadedSince(state.log)
      ensures !restored ==> multiset(RecordOf(old(state), t)) <= multiset(RecordOf(state, t))
    {
      var begun, items := StartRestore(t);
      if !begun {
        return false;
      }
      var drained := DrainTransient(t, items, world);
      if !drained {
        return false;
      }
      ghost var from := state;
      for i := 0 to |items|
        invariant Valid() && state.op == Op.Restore(t, items, AtItem(i)) && Kept(from, state)
      {
        var placed := RestoreOne(t, items, i, world);
        if !placed {
          return false;
        }
      }
      FinishRestore(t, items, world);
      return true;
    }

    method StartRestore(t: string) returns (begun: bool, items: seq<Displaced>)
      requires Valid() && state.op.Free? && Get(due, t) > 0
      modifies this
      ensures Valid() && state.displaced == old(state).displaced && items == RecordOf(old(state), t)
      ensures state.op == if begun then Reconciling(Op.Restore(t, items, Deciding), Failing(t)) else Free
      ensures begun <==> Get(active, t) <= 0 && items != [] && Get(demand, t) <= 0
    {
      ForgetTimer(t);
      begun, items := Restorable(t);
      if begun {
        states := states[t := Draining];
      }
      Did(BeginRestore(t));
    }

    /** Whether the transient is unused and unwanted and displaced something. */
    method Restorable(t: string) returns (go: bool, items: seq<Displaced>)
      ensures items == RecordOf(Fields(), t)
      ensures go <==> Get(active, t) <= 0 && items != [] && Get(demand, t) <= 0
    {
      items := if t in displaced then displaced[t] else [];
      go := !(Get(active, t) > 0 || |items| == 0 || Get(demand, t) > 0);
    }

    method ForgetTimer(t: string)
      modifies this`timers, this`due
      ensures Timers(timers, due) == old(Timers(timers, due)).Started(t)
    {
      due := due[t := Get(due, t) - 1 + if t in timers then 1 else 0];
      timers := timers - {t};
    }

    /** After a fresh look at the provider, marks the transient as draining again and
        unloads it, unless somebody came in between. */
    method DrainTransient(t: string, items: seq<Displaced>, world: World) returns (drained: bool)
      requires Valid() && state.op == Reconciling(Op.Restore(t, items, Deciding), Failing(t))
      modifies this
      ensures Valid() && Kept(old(state), state)
      ensures state.op == if drained then Op.Restore(t, items, AtItem(0)) else Free
    {
      var ok := ReconcileLocked(world);
      if !ok {
        SetFailed(t, world);
        return false;
      }
      ok := MarkDraining(t, items, world);
      if !ok {
        return false;
      }
      CallUnload(t, items, world);
      drained := CallAndReconcile(t, Op.Restore(t, items, AtItem(0)), world);
    }

    method MarkDraining(t: string, items: seq<Displaced>, world: World) returns (idle: bool)
      requires Valid() && state.op == Op.Restore(t, items, Deciding)
      modifies this
      ensures Valid() && Kept(old(state), state)
      ensures state.op == if idle then Op.Restore(t, items, Drained) else Free
    {
      Others(world);
      idle := !(Get(active, t) > 0 || Get(demand, t) > 0);
      states := states[t := if idle then Draining else Ready];
      Did(Advance);
    }

    /** The transient is still draining and idle, so it is never found unloaded here. */
    method CallUnload(t: string, items: seq<Displaced>, world: World)
      requires Valid() && state.op == Op.Restore(t, items, Drained)
      modifies this
      ensures Valid() && Kept(old(state), state)
      ensures state.op == Op.Restore(t, items, DrainCalling)
    {
      Others(world);
      RunsKeepInvariant(cfg, trace);
      assert StateOf(state, t) == Some(Draining);
      Did(Advance);
    }

    /** Whether there is demand for the transient. */
    method HasDemand(t: string, items: seq<Displaced>, ghost at: RestoreAt, world: World) returns (wanted: bool)
      requires Valid() && state.op == Op.Restore(t, items, at) && InPlace(items, at)
      requires (at.AtItem? && at.i < |items|) || at.Trying? || at.Rechecking?
      modifies this
      ensures Valid() && Kept(old(state), state)
      ensures state.op ==
        if wanted then Op.Restore(t, items, Resuming)
        else if at.AtItem? then Op.Restore(t, items, Placing(at.i))
        else if at.Trying? then Op.Restore(t, items, Reloading(at.i, at.attempt))
        else Free
    {
      Others(world);
      wanted := Get(demand, t) > 0;
      Did(Advance);
    }

    /** Whether new demand for the transient takes over; if so the transient is loaded
        again unless it is still there, and the restoration ends. */
    method ResumeDemanded(t: string, items: seq<Displaced>, ghost at: RestoreAt, world: World) returns (resumed: bool)
      requires Valid() && state.op == Op.Restore(t, items, at) && InPlace(items, at)
      requires (at.AtItem? && at.i < |items|) || at.Trying? || at.Rechecking?
      modifies this
      ensures Valid() && Kept(old(state), state)
      ensures resumed ==> StateOf(state, t) in {Some(Ready), Some(Failed)}
      ensures state.op ==
        if resumed then Free
        else if at.AtItem? then Op.Restore(t, items, Placing(at.i))
        else if at.Trying? then Op.Restore(t, items, Reloading(at.i, at.attempt))
        else Free
    {
      resumed := HasDemand(t, items, at, world);
      if resumed {
        BringBack(t, items, world);
      }
    }

    method BringBack(t: string, items: seq<Displaced>, world: World)
      requires Valid() && state.op == Op.Restore(t, items, Resuming)
      modifies this
      ensures Valid() && Kept(old(state), state) && state.op.Free? && StateOf(state, t) in {Some(Ready), Some(Failed)}
    {
      var gone := IsGone(t, items, world);
      if gone {
        var ok := CallAndReconcile(t, Op.Restore(t, items, ResumeMarking), world);
        if !ok {
          return;
        }
      }
      MarkReady(t, items, world);
    }

    method MarkReady(t: string, items: seq<Displaced>, world: World)
      requires Valid() && state.op == Op.Restore(t, items, ResumeMarking)
      modifies this
      ensures Valid() && Kept(old(state), state) && state.op.Free? && StateOf(state, t) == Some(Ready)
    {
      Others(world);
      states := states[t := Ready];
      Did(Advance);
    }

    method IsGone(t: string, items: seq<Displaced>, world: World) returns (gone: bool)
      requires Valid() && state.op == Op.Restore(t, items, Resuming)
      modifies this
      ensures Valid() && Kept(old(state), state)
      ensures state.op == Op.Restore(t, items, if gone then ResumeCalling else ResumeMarking)
    {
      Others(world);
      gone := t in states && states[t] == Unloaded;
      Did(Advance);
    }

    /** One displaced model: room, up to three attempts to load it, a fresh look at the
        provider, and back out again if the transient is wanted meanwhile. */
    method RestoreOne(t: string, items: seq<Displaced>, i: nat, world: World) returns (placed: bool)
      requires Valid() && i < |items| && state.op == Op.Restore(t, items, AtItem(i))
      modifies this
      ensures Valid() && Kept(old(state), state)
      ensures state.op == if placed then Op.Restore(t, items, AtItem(i + 1)) else Free
    {
      var resumed := ResumeDemanded(t, items, AtItem(i), world);
      if resumed {
        return false;
      }
      var room := FindRoom(t, items, i, world);
      if !room {
        SetFailed(items[i].alias, world);
        return false;
      }
      var loaded := LoadDisplaced(t, items, i, world);
      if !loaded {
        return false;
      }
      var ok := ReconcileLocked(world);
      if !ok {
        SetFailed(items[i].alias, world);
        return false;
      }
      placed := Confirm(t, items, i, world);
      if !placed {
        GiveWay(t, items, world);
      }
    }

    /** Displaced models are configured, so only their pool's capacity can be in the way. */
    method FindRoom(t: string, items: seq<Displaced>, i: nat, world: World) returns (room: bool)
      requires Valid() && i < |items| && state.op == Op.Restore(t, items, Placing(i))
      modifies this
      ensures Valid() && Kept(old(state), state)
      ensures state.op == if room then Op.Restore(t, items, Trying(i, 0)) else Failing(items[i].alias)
      ensures room <==> Occupied(health) < cfg.PoolOf(items[i].alias).capacity
    {
      Others(world);
      RunsKeepInvariant(cfg, trace);
      assert cfg.ResidencyOf(items[i].alias) == Some(Preferred);
      var pool := cfg.PoolOf(items[i].alias);
      var occupied := CountLlms(health);
      room := occupied < pool.capacity;
      Did(Advance);
    }

    method LoadDisplaced(t: string, items: seq<Displaced>, i: nat, world: World) returns (loaded: bool)
      requires Valid() && i < |items| && state.op == Op.Restore(t, items, Trying(i, 0))
      modifies this
      ensures Valid() && Kept(old(state), state)
      ensures state.op == if loaded then Reconciling(Op.Restore(t, items, Confirming(i)), Failing(items[i].alias)) else Free
    {
      for attempt := 0 to 3
        invariant Valid() && Kept(old(state), state)
        invariant state.op == if attempt < 3 then Op.Restore(t, items, Trying(i, attempt)) else Failing(items[i].alias)
      {
        var resumed := ResumeDemanded(t, items, Trying(i, attempt), world);
        if resumed {
          return false;
        }
        var outcome := TryLoad(t, items, i, attempt, world);
        if outcome != Refused {
          return outcome == Done;
        }
      }
      SetFailed(items[i].alias, world);
      return false;
    }

    /** One attempt to load a displaced model. */
    method TryLoad(t: string, items: seq<Displaced>, i: nat, ghost attempt: nat, world: World) returns (outcome: Outcome)
      requires Valid() && i < |items| && state.op == Op.Restore(t, items, Reloading(i, attempt))
      modifies this
      ensures Valid() && Kept(old(state), state)
      ensures state.op ==
        match outcome
        case Done => Reconciling(Op.Restore(t, items, Confirming(i)), Failing(items[i].alias))
        case Closed => Free
        case Refused => if attempt + 1 < 3 then Op.Restore(t, items, Trying(i, attempt + 1)) else Failing(items[i].alias)
    {
      Others(world);
      var ok := world.answer(gap);
      if !ok && world.closed(gap) {
        Did(Abandon);
        return Closed;
      }
      Did(Answer(ok));
      return if ok then Done else Refused;
    }

    /** The reload stands unless the transient is wanted again. */
    method Confirm(t: string, items: seq<Displaced>, i: nat, world: World) returns (kept: bool)
      requires Valid() && i < |items| && state.op == Op.Restore(t, items, Confirming(i))
      modifies this
      ensures Valid() && Kept(old(state), state)
      ensures state.op == Op.Restore(t, items, if kept then AtItem(i + 1) else Undoing)
    {
      Others(world);
      kept := Get(demand, t) <= 0;
      Did(Advance);
    }

    /** Unloads the model just loaded, whatever the provider says, and lets the
        transient have its place. */
    method GiveWay(t: string, items: seq<Displaced>, world: World)
      requires Valid() && state.op == Op.Restore(t, items, Undoing)
      modifies this
      ensures Valid() && Kept(old(state), state) && state.op.Free?
    {
      var _ := Ask(world);
      var _ := ReconcileLocked(world);
      var _ := ResumeDemanded(t, items, Rechecking, world);
    }

    method FinishRestore(t: string, items: seq<Displaced>, world: World)
      requires Valid() && state.op == Op.Restore(t, items, AtItem(|items|))
      modifies this
      ensures Valid() && state.op.Free? && t !in displaced && StateOf(state, t) == Some(Unloaded) && Aliases(items) <= owned
      ensures forall i :: 0 <= i < |items| ==> items[i].alias in ReloadedSince(state.log)
    {
      AllPlaced(t, items, world);
      FinishedAll(cfg, trace);
      Clear(t, items, world);
    }

    method Clear(t: string, items: seq<Displaced>, world: World)
      requires Valid() && state.op == Op.Restore(t, items, Finishing)
      modifies this
      ensures Valid() && state.op.Free? && t !in displaced && state.log == old(state).log + [Cleared(t)]
      ensures StateOf(state, t) == Some(Unloaded) && Aliases(items) <= owned
    {
      Others(world);
      DropRecord(t, items);
    }

    /** The last locked region: the record goes and the reloaded models are owned. */
    method DropRecord(t: string, items: seq<Displaced>)
      requires Valid() && state.op == Op.Restore(t, items, Finishing)
      modifies this
      ensures Valid() && state.op.Free? && t !in displaced && state.log == old(state).log + [Cleared(t)]
      ensures StateOf(state, t) == Some(Unloaded) && Aliases(items) <= owned
    {
      ghost var next := Advanced(cfg, state);
      TakeOver(t, items);
      Did(Advance);
      assert state == next;
    }

    method TakeOver(t: string, items: seq<Displaced>)
      modifies this`displaced, this`states, this`owned
      ensures displaced == old(displaced) - {t} && states == old(states)[t := Unloaded] && owned == old(owned) + Aliases(items)
    {
      displaced := displaced - {t};
      states := states[t := Unloaded];
      owned := owned + Aliases(items);
    }

    method AllPlaced(t: string, items: seq<Displaced>, world: World)
      requires Valid() && state.op == Op.Restore(t, items, AtItem(|items|))
      modifies this
      ensures Valid() && state.op == Op.Restore(t, items, Finishing)
    {
      Others(world);
      Did(Advance);
    }
  }

  datatype Outcome = Done | Refused | Closed

  /** `NoReport` is a load that ended before it began, for want of a health report. */
  datatype LoadOutcome = Proceed | Loaded | Coalesced | NotConfigured | NotResident | NoCapacity | NoReport | LoadFailed

  /** What may change while an operation is between two locked regions. */
  ghost predicate Meanwhile(s: State, n: State)
  {
    n.op == s.op && n.log == s.log && n.residents == s.residents && Kept(s, n)
  }

  /** No record lost an entry. */
  ghost predicate Kept(s: State, n: State)
  {
    forall t :: multiset(RecordOf(s, t)) <= multiset(RecordOf(n, t))
  }

  lemma FinishedAll(cfg: Config, run: seq<Step>)
    requires Legal(cfg, run) && After(cfg, run).op.Restore? && After(cfg, run).op.at.Finishing?
    ensures
      var s := After(cfg, run);
      forall i :: 0 <= i < |s.op.items| ==> s.op.items[i].alias in ReloadedSince(s.log + [Cleared(s.op.t)])
  {
    RunsKeepInvariant(cfg, run);
    LogStep(After(cfg, run).log, Cleared(After(cfg, run).op.t));
  }

  lemma SwapGrows(cfg: Config, s: State, target: string, victims: seq<string>)
    requires Recorded(cfg, s)
    ensures Meanwhile(s, SwapBegun(cfg, s, target, victims))
  {
    forall t
      ensures multiset(RecordOf(s, t)) <= multiset(RecordOf(SwapBegun(cfg, s, target, victims), t))
    {
      assert RecordedFor(cfg, s, t);
      if t == target {
        SwapRecords(cfg, s, t, victims);
      }
    }
  }
}
