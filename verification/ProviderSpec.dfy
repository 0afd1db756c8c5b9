/** The provider manager as a machine: leases, demand and displaced defaults change
    under one lock at any moment, while one lifecycle operation at a time moves from
    locked region to locked region with calls to the provider in between. */
module ProviderSpec {
  import opened Names

  datatype Option<+T> = None | Some(value: T)

  datatype Residency = HardPinned | Preferred | Transient | External

  datatype Binding = Binding(providerModel: string, residency: Residency, priority: int, pool: string)

  datatype Pool = Pool(capacity: int, restorePreferred: bool)

  datatype Config = Config(bindings: map<string, Binding>, pools: map<string, Pool>)
  {
    /** An unknown pool reads as the zero pool. */
    function PoolOf(alias: string): Pool
    {
      if alias in bindings && bindings[alias].pool in pools then pools[bindings[alias].pool] else Pool(0, false)
    }

    function ResidencyOf(alias: string): Option<Residency>
    {
      if alias in bindings then Some(bindings[alias].residency) else None
    }
  }

  datatype ModelState = Unloaded | Loading | Ready | Busy | Draining | Unloading | Failed

  /** One model of a health report; a missing `loaded` field reads as true. */
  datatype Resident = Resident(name: string, kind: string, status: string, loaded: bool, pinned: bool)

  datatype Displaced = Displaced(alias: string, model: string, wasPinned: bool, priority: int)

  datatype LoadAt = LoadDeciding | LoadMarking | LoadCalling | LoadSettling

  datatype UnloadAt = UnloadDeciding | UnloadMarking | UnloadCalling | UnloadSettling

  /** Where a restoration is: draining and unloading the transient, then reloading the
      `i`-th displaced model, or giving way to new demand for the transient. */
  datatype RestoreAt =
    | Deciding
    | Drained
    | DrainCalling
    | AtItem(i: nat)
    | Placing(i: nat)
    | Trying(i: nat, attempt: nat)
    | Reloading(i: nat, attempt: nat)
    | Confirming(i: nat)
    | Undoing
    | Rechecking
    | Resuming
    | ResumeCalling
    | ResumeMarking
    | Finishing

  /** Where the holder of the operation lock is. `Reconciling(ok, err)` waits for a
      health report and goes on as `ok`, or as `err` if there is none. */
  datatype Op =
    | Free
    | Reconciling(ok: Op, err: Op)
    | Failing(alias: string)
    | Load(alias: string, loadAt: LoadAt)
    | Unload(alias: string, unloadAt: UnloadAt)
    | UnloadAll(settling: bool)
    | Restore(t: string, items: seq<Displaced>, at: RestoreAt)

  /** What happened, in order. `leases` is the transient's lease count at the call. */
  datatype Note =
    | Began(t: string, items: seq<Displaced>)
    | UnloadCalled(t: string, leases: int)
    | Reloaded(alias: string)
    | Cleared(t: string)
    | AllCleared

  /** `armed` are the transients whose idle timer can still be stopped; `due` counts, for
      each, the restorations that nothing can stop any more: those whose timer has fired,
      or was replaced or forgotten while armed. */
  datatype Timers = Timers(armed: set<string>, due: map<string, int>)
  {
    function Stopped(a: string): Timers { this.(armed := armed - {a}) }

    /** A new timer; one that was armed before still fires. */
    function Rearmed(a: string): Timers
    {
      Timers(armed + {a}, if a in armed then due[a := Get(due, a) + 1] else due)
    }

    function Fired(a: string): Timers { Timers(armed - {a}, due[a := Get(due, a) + 1]) }

    /** A restoration that was due starts. It forgets the timer there is, even if that
        is a newer one, which then still fires. */
    function Started(a: string): Timers
    {
      Timers(armed - {a}, due[a := Get(due, a) - 1 + if a in armed then 1 else 0])
    }
  }

  datatype State = State(
    states: map<string, ModelState>,
    active: map<string, int>,
    demand: map<string, int>,
    displaced: map<string, seq<Displaced>>,
    owned: set<string>,
    timers: Timers,
    residents: seq<Resident>,
    op: Op,
    log: seq<Note>)

  function Get(m: map<string, int>, k: string): int { if k in m then m[k] else 0 }

  function StateOf(s: State, alias: string): Option<ModelState>
  {
    if alias in s.states then Some(s.states[alias]) else None
  }

  function RecordOf(s: State, t: string): seq<Displaced>
  {
    if t in s.displaced then s.displaced[t] else []
  }

  // ----------------------------------------------------------- health reports

  predicate IsLlm(r: Resident) { r.kind == "" || r.kind == "llm" }

  function Occupied(residents: seq<Resident>): nat
  {
    if residents == [] then 0
    else Occupied(residents[..|residents| - 1]) + (if IsLlm(residents[|residents| - 1]) then 1 else 0)
  }

  /** The last report of a name counts. */
  function Named(residents: seq<Resident>, name: string): Option<Resident>
  {
    if residents == [] then None
    else if residents[|residents| - 1].name == name then Some(residents[|residents| - 1])
    else Named(residents[..|residents| - 1], name)
  }

  /** The first report of a name says whether it is pinned. */
  function PinnedNow(residents: seq<Resident>, name: string): bool
  {
    residents != [] && if residents[0].name == name then residents[0].pinned else PinnedNow(residents[1..], name)
  }

  function Reported(r: Resident): ModelState
  {
    if r.status == "loading" then Loading
    else if r.status in {"unloading", "evicting"} then Unloading
    else if r.status in {"failed", "error"} then Failed
    else if r.loaded && r.status in {"", "ready", "loaded"} then Ready
    else Unloaded
  }

  function Observed(cfg: Config, active: map<string, int>, residents: seq<Resident>, alias: string): ModelState
    requires alias in cfg.bindings
  {
    var r := Named(residents, cfg.bindings[alias].providerModel);
    var next := if r.None? then Unloaded else Reported(r.value);
    if next == Ready && Get(active, alias) > 0 then Busy else next
  }

  function Reconciled(cfg: Config, s: State, residents: seq<Resident>): State
  {
    s.(states := s.states + map a | a in cfg.bindings :: Observed(cfg, s.active, residents, a), residents := residents)
  }

  // ------------------------------------------------- leases, demand and swaps

  predicate Servable(s: State, alias: string)
  {
    StateOf(s, alias) == Some(Ready) || StateOf(s, alias) == Some(Busy)
  }

  function Acquired(s: State, alias: string): State
  {
    if !Servable(s, alias) then s
    else
      s.(timers := s.timers.Stopped(alias), active := s.active[alias := Get(s.active, alias) + 1], states := s.states[alias := Busy])
  }

  /** An idle transient with displaced models is due for restoration. */
  predicate RestoreDue(cfg: Config, record: seq<Displaced>, alias: string)
  {
    cfg.ResidencyOf(alias) == Some(Transient) && cfg.PoolOf(alias).restorePreferred && record != []
  }

  function Released(cfg: Config, s: State, alias: string): State
  {
    if alias !in cfg.bindings then s
    else
      var n := if Get(s.active, alias) > 0 then Get(s.active, alias) - 1 else Get(s.active, alias);
      var idle := n == 0;
      s.(active := s.active[alias := n],
         states := if idle && StateOf(s, alias) == Some(Busy) then s.states[alias := Ready] else s.states,
         timers := if idle && RestoreDue(cfg, RecordOf(s, alias), alias) then s.timers.Rearmed(alias) else s.timers)
  }

  function RecordFor(cfg: Config, residents: seq<Resident>, victim: string): Displaced
    requires victim in cfg.bindings
  {
    var b := cfg.bindings[victim];
    Displaced(victim, b.providerModel, PinnedNow(residents, b.providerModel), b.priority)
  }

  predicate Seen(items: seq<Displaced>, alias: string)
  {
    exists i :: 0 <= i < |items| && items[i].alias == alias
  }

  /** The record with every victim that is a preferred model and not in it yet. */
  function WithVictims(cfg: Config, residents: seq<Resident>, items: seq<Displaced>, victims: seq<string>): seq<Displaced>
  {
    if victims == [] then items
    else
      var before, v := WithVictims(cfg, residents, items, victims[..|victims| - 1]), victims[|victims| - 1];
      if cfg.ResidencyOf(v) != Some(Preferred) || Seen(before, v) then before
      else before + [RecordFor(cfg, residents, v)]
  }

  /** Restoration order: smaller priority numbers first, then names. */
  predicate Sooner(a: Displaced, b: Displaced)
  {
    a.priority < b.priority || (a.priority == b.priority && Before(a.alias, b.alias))
  }

  function Inserted(sorted: seq<Displaced>, x: Displaced): seq<Displaced>
  {
    if sorted == [] || Sooner(x, sorted[0]) then [x] + sorted else [sorted[0]] + Inserted(sorted[1..], x)
  }

  function InOrder(items: seq<Displaced>): seq<Displaced>
  {
    if items == [] then [] else Inserted(InOrder(items[..|items| - 1]), items[|items| - 1])
  }

  function SwapBegun(cfg: Config, s: State, target: string, victims: seq<string>): State
  {
    if cfg.ResidencyOf(target) != Some(Transient) then s
    else s.(displaced := s.displaced[target := InOrder(WithVictims(cfg, s.residents, RecordOf(s, target), victims))])
  }

  // -------------------------------------------------------------- operations

  function Aliases(items: seq<Displaced>): set<string> { set i | 0 <= i < |items| :: items[i].alias }

  predicate InPlace(items: seq<Displaced>, at: RestoreAt)
  {
    match at
    case AtItem(i) => i <= |items|
    case Placing(i) => i < |items|
    case Trying(i, _) => i < |items|
    case Reloading(i, _) => i < |items|
    case Confirming(i) => i < |items|
    case _ => true
  }

  predicate Runnable(op: Op) { op.Restore? ==> InPlace(op.items, op.at) }

  predicate Formed(op: Op)
  {
    && Runnable(op)
    && (op.Reconciling? ==> !op.ok.Reconciling? && !op.err.Reconciling? && Runnable(op.ok) && Runnable(op.err))
  }

  /** The operation waits for the provider's answer to a call. */
  predicate Calls(op: Op)
  {
    match op
    case Load(_, at) => at.LoadCalling?
    case Unload(_, at) => at.UnloadCalling?
    case UnloadAll(settling) => !settling
    case Restore(_, _, at) => at.DrainCalling? || at.Reloading? || at.Undoing? || at.ResumeCalling?
    case _ => false
  }

  /** What a locked region decides about one model: its new state if any, what it did
      that is worth remembering, and where the operation goes. */
  datatype Decision = Decision(mark: Option<ModelState>, note: Option<Note>, op: Op)

  function Applied(s: State, alias: string, d: Decision): State
  {
    s.(states := if d.mark.Some? then s.states[alias := d.mark.value] else s.states,
       log := if d.note.Some? then s.log + [d.note.value] else s.log, op := d.op)
  }

  function Goto(op: Op): Decision { Decision(None, None, op) }

  function LoadDecision(cfg: Config, s: State, a: string, at: LoadAt): Decision
  {
    match at
    case LoadDeciding =>
      if StateOf(s, a) == Some(Ready) || cfg.ResidencyOf(a) == Some(External) || Occupied(s.residents) >= cfg.PoolOf(a).capacity
      then Goto(Free)
      else Goto(Load(a, LoadMarking))
    case LoadMarking => Decision(Some(Loading), None, Load(a, LoadCalling))
    case LoadCalling => Goto(Load(a, LoadCalling))
    case LoadSettling => Goto(if StateOf(s, a) != Some(Ready) then Failing(a) else Free)
  }

  function UnloadDecision(cfg: Config, s: State, a: string, at: UnloadAt): Decision
  {
    match at
    case UnloadDeciding =>
      if Get(s.active, a) > 0 || StateOf(s, a) == Some(Unloaded) || (cfg.ResidencyOf(a) == Some(External) && a !in s.owned)
      then Goto(Free)
      else Goto(Unload(a, UnloadMarking))
    case UnloadMarking => Decision(Some(Unloading), None, Unload(a, UnloadCalling))
    case UnloadCalling => Goto(Unload(a, UnloadCalling))
    case UnloadSettling => Decision(Some(Unloaded), None, Free)
  }

  function RestoreDecision(cfg: Config, s: State, t: string, items: seq<Displaced>, at: RestoreAt): Decision
    requires InPlace(items, at)
  {
    match at
    case Deciding =>
      if Get(s.active, t) > 0 || Get(s.demand, t) > 0 then Decision(Some(Ready), None, Free)
      else Decision(Some(Draining), None, Restore(t, items, Drained))
    case Drained =>
      if StateOf(s, t) != Some(Unloaded) then
        Decision(None, Some(UnloadCalled(t, Get(s.active, t))), Restore(t, items, DrainCalling))
      else Goto(Restore(t, items, AtItem(0)))
    case AtItem(i) =>
      if i == |items| then Goto(Restore(t, items, Finishing))
      else Goto(Restore(t, items, if Get(s.demand, t) > 0 then Resuming else Placing(i)))
    case Placing(i) =>
      var a := items[i].alias;
      if a !in cfg.bindings then Goto(Restore(t, items, AtItem(i + 1)))
      else if Occupied(s.residents) >= cfg.PoolOf(a).capacity then Goto(Failing(a))
      else Goto(Restore(t, items, Trying(i, 0)))
    case Trying(i, attempt) => Goto(Restore(t, items, if Get(s.demand, t) > 0 then Resuming else Reloading(i, attempt)))
    case Confirming(i) =>
      if Get(s.demand, t) > 0 then Goto(Restore(t, items, Undoing))
      else Decision(None, Some(Reloaded(items[i].alias)), Restore(t, items, AtItem(i + 1)))
    case Rechecking => Goto(if Get(s.demand, t) > 0 then Restore(t, items, Resuming) else Free)
    case Resuming => Goto(Restore(t, items, if StateOf(s, t) == Some(Unloaded) then ResumeCalling else ResumeMarking))
    case ResumeMarking => Decision(Some(Ready), None, Free)
    case Finishing => Decision(Some(Unloaded), Some(Cleared(t)), Free)
    case _ => Goto(Restore(t, items, at))
  }

  /** The next locked region of the operation under way. */
  function Advanced(cfg: Config, s: State): State
    requires Formed(s.op)
  {
    match s.op
    case Failing(a) => Applied(s, a, Decision(Some(Failed), None, Free))
    case Load(a, at) =>
      var n := Applied(s, a, LoadDecision(cfg, s, a, at));
      if at.LoadSettling? && n.op.Free? then n.(owned := s.owned + {a}) else n
    case Unload(a, at) =>
      var n := Applied(s, a, UnloadDecision(cfg, s, a, at));
      if at.UnloadSettling? then n.(owned := s.owned - {a}) else n
    case UnloadAll(_) =>
      s.(states := s.states + map a | a in cfg.bindings :: Unloaded, owned := s.owned - cfg.bindings.Keys,
         displaced := s.displaced - cfg.bindings.Keys, log := s.log + [AllCleared], op := Free)
    case Restore(t, items, at) =>
      var n := Applied(s, t, RestoreDecision(cfg, s, t, items, at));
      if at.Finishing? then n.(displaced := s.displaced - {t}, owned := s.owned + Aliases(items)) else n
    case _ => s
  }

  /** What follows a provider call that succeeded or failed. */
  function Answered(op: Op, ok: bool): Op
    requires Formed(op)
  {
    match op
    case Load(a, _) => if ok then Reconciling(Load(a, LoadSettling), Failing(a)) else Failing(a)
    case Unload(a, _) => if ok then Reconciling(Unload(a, UnloadSettling), Failing(a)) else Failing(a)
    case UnloadAll(_) => if ok then Reconciling(UnloadAll(true), Free) else Free
    case Restore(t, items, at) => RestoreAnswered(t, items, at, ok)
    case _ => op
  }

  function RestoreAnswered(t: string, items: seq<Displaced>, at: RestoreAt, ok: bool): Op
    requires InPlace(items, at)
  {
    match at
    case DrainCalling => if ok then Reconciling(Restore(t, items, AtItem(0)), Failing(t)) else Failing(t)
    case Reloading(i, attempt) =>
      if ok then Reconciling(Restore(t, items, Confirming(i)), Failing(items[i].alias))
      else if attempt + 1 < 3 then Restore(t, items, Trying(i, attempt + 1))
      else Failing(items[i].alias)
    case Undoing => Reconciling(Restore(t, items, Rechecking), Restore(t, items, Rechecking))
    case ResumeCalling => if ok then Reconciling(Restore(t, items, ResumeMarking), Failing(t)) else Failing(t)
    case _ => Restore(t, items, at)
  }

  /** The first locked region of a restoration that was due, entered with the operation
      lock. */
  function RestoreBegun(s: State, t: string): State
  {
    var calm := s.(timers := s.timers.Started(t));
    var items := RecordOf(s, t);
    if Get(s.active, t) > 0 || items == [] || Get(s.demand, t) > 0 then calm
    else Applied(calm, t, Decision(Some(Draining), Some(Began(t, items)), Reconciling(Restore(t, items, Deciding), Failing(t))))
  }

  // -------------------------------------------------------------------- steps

  datatype Step =
    | Acquire(alias: string)
    | Release(alias: string)
    | DemandUp(alias: string)
    | DemandDown(alias: string)
    | BeginSwap(target: string, victims: seq<string>)
    | BeginLoad(alias: string)
    | BeginUnload(alias: string)
    | BeginUnloadAll
    | BeginReconcile
    | Fire(t: string)   // an idle timer runs out
    | BeginRestore(t: string)
    | Health(report: Option<seq<Resident>>)
    | Advance
    | Answer(ok: bool)
    | Abandon   // the manager is closed while a failed reload waits to be retried

  predicate Enabled(s: State, step: Step)
  {
    && Formed(s.op)
    && match step
       case DemandDown(a) => Get(s.demand, a) > 0
       case BeginLoad(_) => s.op.Free?
       case BeginUnload(_) => s.op.Free?
       case BeginUnloadAll => s.op.Free?
       case BeginReconcile => s.op.Free?
       case Fire(t) => t in s.timers.armed
       case BeginRestore(t) => s.op.Free? && Get(s.timers.due, t) > 0
       case Health(_) => s.op.Reconciling?
       case Advance => !s.op.Free? && !s.op.Reconciling? && !Calls(s.op)
       case Answer(_) => Calls(s.op)
       case Abandon => s.op.Restore? && s.op.at.Reloading?
       case _ => true
  }

  function Next(cfg: Config, s: State, step: Step): State
    requires Enabled(s, step)
  {
    match step
    case Acquire(a) => Acquired(s, a)
    case Release(a) => Released(cfg, s, a)
    case DemandUp(a) => s.(demand := s.demand[a := Get(s.demand, a) + 1], timers := s.timers.Stopped(a))
    case DemandDown(a) => s.(demand := s.demand[a := Get(s.demand, a) - 1])
    case BeginSwap(t, victims) => SwapBegun(cfg, s, t, victims)
    case BeginLoad(a) => s.(op := Reconciling(Load(a, LoadDeciding), Free))
    case BeginUnload(a) => s.(op := Reconciling(Unload(a, UnloadDeciding), Free))
    case BeginUnloadAll => s.(op := Reconciling(UnloadAll(false), Free))
    case BeginReconcile => s.(op := Reconciling(Free, Free))
    case Fire(t) => s.(timers := s.timers.Fired(t))
    case BeginRestore(t) => RestoreBegun(s, t)
    case Health(report) =>
      if report.Some? then Reconciled(cfg, s, report.value).(op := s.op.ok) else s.(op := s.op.err)
    case Advance => Advanced(cfg, s)
    case Answer(ok) => s.(op := Answered(s.op, ok))
    case Abandon => s.(op := Free)
  }
}
