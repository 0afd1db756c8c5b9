/** What every interleaving of leases, demand, swaps and lifecycle operations keeps. */
module ProviderRuns {
  import opened Names
  import opened ProviderSpec

  // ------------------------------------------------------------- displaced records

  predicate Ascending(items: seq<Displaced>)
  {
    forall i, j :: 0 <= i < j < |items| ==> Sooner(items[i], items[j])
  }

  predicate Distinct(items: seq<Displaced>)
  {
    forall i, j :: 0 <= i < j < |items| ==> items[i].alias != items[j].alias
  }

  lemma SoonerOrder(a: Displaced, b: Displaced, c: Displaced)
    ensures a.alias != b.alias ==> Sooner(a, b) || Sooner(b, a)
    ensures Sooner(a, b) && Sooner(b, c) ==> Sooner(a, c)
    ensures Sooner(a, b) ==> a.alias != b.alias || a.priority != b.priority
  {
    BeforeTotal(a.alias, b.alias);
    if Before(a.alias, b.alias) && Before(b.alias, c.alias) {
      BeforeTransitive(a.alias, b.alias, c.alias);
    }
  }

  lemma {:induction false} InsertedMembers(sorted: seq<Displaced>, x: Displaced)
    ensures multiset(Inserted(sorted, x)) == multiset(sorted) + multiset{x}
  {
    if sorted != [] && !Sooner(x, sorted[0]) {
      assert sorted == [sorted[0]] + sorted[1..];
      InsertedMembers(sorted[1..], x);
    }
  }

  lemma {:induction false} InsertedAscends(sorted: seq<Displaced>, x: Displaced)
    requires Ascending(sorted) && !Seen(sorted, x.alias)
    ensures Ascending(Inserted(sorted, x))
  {
    if sorted != [] {
      forall i | 0 <= i < |sorted|
        ensures Sooner(x, sorted[0]) ==> Sooner(x, sorted[i])
      {
        SoonerOrder(x, sorted[0], sorted[i]);
      }
      if !Sooner(x, sorted[0]) {
        var rest := Inserted(sorted[1..], x);
        assert forall i :: 0 <= i < |sorted[1..]| ==> sorted[1..][i] == sorted[i + 1];
        InsertedAscends(sorted[1..], x);
        InsertedMembers(sorted[1..], x);
        assert sorted[0].alias != x.alias;
        SoonerOrder(sorted[0], x, x);
        forall i | 0 <= i < |rest|
          ensures Sooner(sorted[0], rest[i])
        {
          assert rest[i] in multiset(rest);
        }
      }
    }
  }

  lemma SameMembers(a: seq<Displaced>, b: seq<Displaced>)
    requires multiset(a) == multiset(b)
    ensures forall x :: x in a <==> x in b
  {
    assert forall x :: x in a <==> x in multiset(a);
    assert forall x :: x in b <==> x in multiset(b);
  }

  /** Sorting keeps the records and, as their names differ, puts them in order. */
  lemma {:induction false} InOrderSorts(items: seq<Displaced>)
    ensures multiset(InOrder(items)) == multiset(items)
    ensures Distinct(items) ==> Ascending(InOrder(items))
  {
    if items != [] {
      var before, x := items[..|items| - 1], items[|items| - 1];
      assert items == before + [x];
      InOrderSorts(before);
      InsertedMembers(InOrder(before), x);
      if Distinct(items) {
        SameMembers(before, InOrder(before));
        assert forall i :: 0 <= i < |InOrder(before)| ==> InOrder(before)[i] in before;
        InsertedAscends(InOrder(before), x);
      }
    }
  }

  ghost predicate AscendingDistinct(items: seq<Displaced>) { Ascending(items) && Distinct(items) }

  ghost predicate AllPreferred(cfg: Config, items: seq<Displaced>)
  {
    forall i :: 0 <= i < |items| ==> cfg.ResidencyOf(items[i].alias) == Some(Preferred)
  }

  predicate Chosen(cfg: Config, victims: seq<string>, v: string)
  {
    v in victims && cfg.ResidencyOf(v) == Some(Preferred)
  }

  lemma SeenNext(items: seq<Displaced>, x: Displaced, a: string)
    ensures Seen(items + [x], a) <==> Seen(items, a) || a == x.alias
  {
    if Seen(items, a) {
      var i :| 0 <= i < |items| && items[i].alias == a;
      assert (items + [x])[i].alias == a;
    }
    assert (items + [x])[|items|] == x;
  }

  lemma {:induction false} WithVictimsAdds(cfg: Config, residents: seq<Resident>, items: seq<Displaced>, victims: seq<string>)
    requires Distinct(items) && AllPreferred(cfg, items)
    ensures
      var all := WithVictims(cfg, residents, items, victims);
      && items <= all && Distinct(all) && AllPreferred(cfg, all)
      && forall a :: Seen(all, a) <==> Seen(items, a) || Chosen(cfg, victims, a)
  {
    if victims != [] {
      var rest, v := victims[..|victims| - 1], victims[|victims| - 1];
      assert victims == rest + [v];
      WithVictimsAdds(cfg, residents, items, rest);
      var before := WithVictims(cfg, residents, items, rest);
      if cfg.ResidencyOf(v) == Some(Preferred) && !Seen(before, v) {
        forall a
          ensures Seen(before + [RecordFor(cfg, residents, v)], a) <==> Seen(before, a) || a == v
        {
          SeenNext(before, RecordFor(cfg, residents, v), a);
        }
      }
    }
  }

  lemma PermutedRecord(cfg: Config, a: seq<Displaced>, b: seq<Displaced>)
    requires multiset(a) == multiset(b)
    ensures AllPreferred(cfg, a) ==> AllPreferred(cfg, b)
    ensures forall x :: Seen(a, x) <==> Seen(b, x)
  {
    SameMembers(a, b);
    forall i | 0 <= i < |b|
      ensures b[i] in a && Seen(a, b[i].alias)
    {
      assert b[i] in b;
    }
    forall i | 0 <= i < |a|
      ensures a[i] in b && Seen(b, a[i].alias)
    {
      assert a[i] in a;
    }
  }

  lemma AscendingIsDistinct(a: seq<Displaced>, b: seq<Displaced>)
    requires multiset(a) == multiset(b) && Distinct(a) && Ascending(b)
    ensures Distinct(b)
  {
    SameMembers(a, b);
    forall i, j | 0 <= i < j < |b|
      ensures b[i].alias != b[j].alias
    {
      assert b[i] in b && b[j] in b;
      BeforeTotal(b[i].alias, b[i].alias);
      assert Sooner(b[i], b[j]);
    }
  }

  /** Sorting a record leaves its models and puts them in restoration order. */
  lemma RecordSorted(cfg: Config, all: seq<Displaced>)
    requires Distinct(all) && AllPreferred(cfg, all)
    ensures
      var now := InOrder(all);
      && AscendingDistinct(now) && AllPreferred(cfg, now) && multiset(now) == multiset(all)
      && forall a :: Seen(now, a) <==> Seen(all, a)
  {
    InOrderSorts(all);
    PermutedRecord(cfg, all, InOrder(all));
    AscendingIsDistinct(all, InOrder(all));
  }

  /** A swap adds exactly the preferred victims that were not recorded yet, keeps what
      was recorded, and leaves the record in restoration order. */
  lemma SwapRecords(cfg: Config, s: State, target: string, victims: seq<string>)
    requires AscendingDistinct(RecordOf(s, target)) && AllPreferred(cfg, RecordOf(s, target))
    ensures
      var was, now := RecordOf(s, target), RecordOf(SwapBegun(cfg, s, target, victims), target);
      && AscendingDistinct(now) && AllPreferred(cfg, now) && multiset(was) <= multiset(now)
      && (cfg.ResidencyOf(target) == Some(Transient) ==>
            forall a :: Seen(now, a) <==> Seen(was, a) || Chosen(cfg, victims, a))
      && (cfg.ResidencyOf(target) != Some(Transient) ==> now == was)
  {
    if cfg.ResidencyOf(target) == Some(Transient) {
      var was := RecordOf(s, target);
      var all := WithVictims(cfg, s.residents, was, victims);
      assert RecordOf(SwapBegun(cfg, s, target, victims), target) == InOrder(all);
      WithVictimsAdds(cfg, s.residents, was, victims);
      assert multiset(was) <= multiset(all) by { assert all == was + all[|was|..]; }
      RecordSorted(cfg, all);
    }
  }

  // ------------------------------------------------------------------- invariant

  /** A busy model has leases. */
  ghost predicate LeasedFor(s: State, a: string)
  {
    Get(s.active, a) >= 0 && (StateOf(s, a) == Some(Busy) ==> Get(s.active, a) > 0)
  }

  ghost predicate Leased(s: State)
  {
    forall a :: LeasedFor(s, a)
  }

  ghost predicate Draws(op: Op) { op.Restore? && (op.at.Drained? || op.at.DrainCalling?) }

  /** From the final draining mark until the unload call returns, the transient stays
      draining and has no lease; so no unload was ever called on a leased one. */
  ghost predicate Quiesced(s: State)
  {
    && (Draws(s.op) ==> StateOf(s, s.op.t) == Some(Draining) && Get(s.active, s.op.t) == 0)
    && (s.op.Reconciling? ==> !Draws(s.op.ok) && !Draws(s.op.err))
    && forall k :: 0 <= k < |s.log| && s.log[k].UnloadCalled? ==> s.log[k].leases == 0
  }

  ghost predicate RecordedFor(cfg: Config, s: State, t: string)
  {
    AscendingDistinct(RecordOf(s, t)) && AllPreferred(cfg, RecordOf(s, t))
  }

  ghost predicate Recorded(cfg: Config, s: State)
  {
    forall t :: RecordedFor(cfg, s, t)
  }

  datatype Begin = Begin(t: string, items: seq<Displaced>)

  ghost function LastBegan(log: seq<Note>): Option<Begin>
  {
    if log == [] then None
    else if log[|log| - 1].Began? then Some(Begin(log[|log| - 1].t, log[|log| - 1].items))
    else LastBegan(log[..|log| - 1])
  }

  /** The models reloaded, and kept, since the last restoration began. */
  ghost function ReloadedSince(log: seq<Note>): set<string>
  {
    if log == [] || log[|log| - 1].Began? then {}
    else ReloadedSince(log[..|log| - 1]) + (if log[|log| - 1].Reloaded? then {log[|log| - 1].alias} else {})
  }

  lemma LogStep(log: seq<Note>, n: Note)
    ensures LastBegan(log + [n]) == if n.Began? then Some(Begin(n.t, n.items)) else LastBegan(log)
    ensures ReloadedSince(log + [n]) ==
      if n.Began? then {} else ReloadedSince(log) + (if n.Reloaded? then {n.alias} else {})
  {
    assert (log + [n])[..|log|] == log;
  }

  /** How many of the displaced models a restoration has reloaded. */
  ghost function Done(items: seq<Displaced>, at: RestoreAt): nat
  {
    match at
    case AtItem(i) => i
    case Placing(i) => i
    case Trying(i, _) => i
    case Reloading(i, _) => i
    case Confirming(i) => i
    case Finishing => |items|
    case _ => 0
  }

  /** A restoration reloads what was displaced when it began, in order. */
  ghost predicate OnPlan(cfg: Config, log: seq<Note>, op: Op)
  {
    op.Restore? ==>
      && LastBegan(log) == Some(Begin(op.t, op.items)) && AllPreferred(cfg, op.items)
      && forall i :: 0 <= i < Done(op.items, op.at) && i < |op.items| ==> op.items[i].alias in ReloadedSince(log)
  }

  /** The record cleared at place `k` was captured when the restoration began, and
      everything in it was reloaded before. */
  ghost predicate ClearedWhole(log: seq<Note>, k: nat)
    requires k < |log|
  {
    log[k].Cleared? ==>
      && LastBegan(log[..k]).Some? && LastBegan(log[..k]).value.t == log[k].t
      && Aliases(LastBegan(log[..k]).value.items) <= ReloadedSince(log[..k])
  }

  ghost predicate AllClearedWhole(log: seq<Note>)
  {
    forall k :: 0 <= k < |log| ==> ClearedWhole(log, k)
  }

  ghost predicate Planned(cfg: Config, s: State)
  {
    && OnPlan(cfg, s.log, s.op)
    && (s.op.Reconciling? ==> OnPlan(cfg, s.log, s.op.ok) && OnPlan(cfg, s.log, s.op.err))
    && AllClearedWhole(s.log)
  }

  ghost predicate Inv(cfg: Config, s: State)
  {
    Formed(s.op) && Leased(s) && Quiesced(s) && Recorded(cfg, s) && Planned(cfg, s)
  }

  // --------------------------------------------------------------------- its proof

  /** What the locked regions of operations leave alone. */
  ghost predicate Calm(s: State, n: State)
  {
    && n.active == s.active
    && forall a :: StateOf(n, a) == StateOf(s, a) || StateOf(n, a) != Some(Busy)
  }

  lemma DecisionsAreCalm(cfg: Config, s: State, t: string, items: seq<Displaced>, at: RestoreAt)
    requires InPlace(items, at)
    ensures var d := RestoreDecision(cfg, s, t, items, at); d.mark != Some(Busy) && Formed(d.op)
    ensures forall a, l :: LoadDecision(cfg, s, a, l).mark != Some(Busy) && Formed(LoadDecision(cfg, s, a, l).op)
    ensures forall a, u :: UnloadDecision(cfg, s, a, u).mark != Some(Busy) && Formed(UnloadDecision(cfg, s, a, u).op)
  {
  }

  lemma AppliedIsCalm(s: State, alias: string, d: Decision)
    requires d.mark != Some(Busy)
    ensures Calm(s, Applied(s, alias, d))
  {
  }

  lemma AdvanceIsCalm(cfg: Config, s: State)
    requires Formed(s.op)
    ensures Calm(s, Advanced(cfg, s)) && Formed(Advanced(cfg, s).op)
  {
    match s.op {
      case Failing(a) => AppliedIsCalm(s, a, Decision(Some(Failed), None, Free));
      case Load(a, at) =>
        DecisionsAreCalm(cfg, s, a, [], Deciding);
        AppliedIsCalm(s, a, LoadDecision(cfg, s, a, at));
      case Unload(a, at) =>
        DecisionsAreCalm(cfg, s, a, [], Deciding);
        AppliedIsCalm(s, a, UnloadDecision(cfg, s, a, at));
      case Restore(t, items, at) =>
        DecisionsAreCalm(cfg, s, t, items, at);
        AppliedIsCalm(s, t, RestoreDecision(cfg, s, t, items, at));
      case _ =>
    }
  }

  lemma MostStepsAreCalm(cfg: Config, s: State, step: Step)
    requires Enabled(s, step) && !step.Acquire? && !step.Release? && !step.Health?
    ensures Calm(s, Next(cfg, s, step)) && Formed(Next(cfg, s, step).op)
  {
    match step {
      case Advance => AdvanceIsCalm(cfg, s);
      case Answer(ok) =>
        if s.op.Restore? {
          assert Formed(RestoreAnswered(s.op.t, s.op.items, s.op.at, ok));
        }
      case BeginRestore(t) =>
      case _ =>
    }
  }

  lemma LeasedKept(cfg: Config, s: State, step: Step)
    requires Leased(s) && Enabled(s, step)
    ensures Leased(Next(cfg, s, step)) && Formed(Next(cfg, s, step).op)
  {
    if !step.Acquire? && !step.Release? && !step.Health? {
      MostStepsAreCalm(cfg, s, step);
    }
    forall a
      ensures LeasedFor(Next(cfg, s, step), a)
    {
      assert LeasedFor(s, a);
      match step {
        case Acquire(x) => AcquireKeeps(s, x, a);
        case Release(x) => ReleaseKeeps(cfg, s, x, a);
        case Health(report) => HealthKeeps(cfg, s, report, a);
        case _ =>
      }
    }
  }

  lemma AcquireKeeps(s: State, x: string, a: string)
    requires LeasedFor(s, a)
    ensures LeasedFor(Acquired(s, x), a)
  {
  }

  lemma ReleaseKeeps(cfg: Config, s: State, x: string, a: string)
    requires LeasedFor(s, a)
    ensures LeasedFor(Released(cfg, s, x), a)
  {
  }

  lemma HealthKeeps(cfg: Config, s: State, report: Option<seq<Resident>>, a: string)
    requires LeasedFor(s, a) && Enabled(s, Health(report))
    ensures LeasedFor(Next(cfg, s, Health(report)), a)
  {
  }

  lemma RestoreQuiesced(cfg: Config, s: State, t: string, items: seq<Displaced>, at: RestoreAt)
    requires InPlace(items, at) && Leased(s) && Quiesced(s) && s.op == Restore(t, items, at)
    ensures Quiesced(Applied(s, t, RestoreDecision(cfg, s, t, items, at)))
  {
    assert LeasedFor(s, t);
  }

  lemma AdvanceQuiesced(cfg: Config, s: State)
    requires Leased(s) && Quiesced(s) && Formed(s.op)
    ensures Quiesced(Advanced(cfg, s))
  {
    match s.op {
      case Restore(t, items, at) => RestoreQuiesced(cfg, s, t, items, at);
      case _ =>
    }
  }

  lemma LeaseQuiesced(cfg: Config, s: State, step: Step)
    requires Leased(s) && Quiesced(s) && Enabled(s, step) && (step.Acquire? || step.Release?)
    ensures Quiesced(Next(cfg, s, step))
  {
  }

  lemma QuiescedKept(cfg: Config, s: State, step: Step)
    requires Leased(s) && Quiesced(s) && Enabled(s, step)
    ensures Quiesced(Next(cfg, s, step))
  {
    if step.Advance? {
      AdvanceQuiesced(cfg, s);
    } else if step.Acquire? || step.Release? {
      LeaseQuiesced(cfg, s, step);
    }
  }

  /** Only a swap changes a record, and only the end of a restoration or a global
      unload removes one. */
  lemma RecordChanges(cfg: Config, s: State, step: Step, t: string)
    requires Enabled(s, step)
    ensures
      var n := Next(cfg, s, step);
      || RecordOf(n, t) == RecordOf(s, t)
      || (step.BeginSwap? && step.target == t)
      || (t !in n.displaced && s.op.Restore? && s.op.t == t && s.op.at.Finishing? && n.log == s.log + [Cleared(t)])
      || (t !in n.displaced && s.op.UnloadAll? && n.log == s.log + [AllCleared])
  {
    match step {
      case Advance =>
      case Acquire(_) =>
      case Release(_) =>
      case BeginRestore(_) =>
      case _ =>
    }
  }

  lemma RecordedKept(cfg: Config, s: State, step: Step)
    requires Recorded(cfg, s) && Enabled(s, step)
    ensures Recorded(cfg, Next(cfg, s, step))
  {
    forall t
      ensures RecordedFor(cfg, Next(cfg, s, step), t)
    {
      assert RecordedFor(cfg, s, t);
      RecordChanges(cfg, s, step, t);
      if step.BeginSwap? && step.target == t {
        SwapRecords(cfg, s, t, step.victims);
      }
    }
  }

  /** Appending a note keeps what was said about the earlier ones. */
  lemma ClearedKept(log: seq<Note>, n: Note)
    requires AllClearedWhole(log)
    requires n.Cleared? ==>
      LastBegan(log).Some? && LastBegan(log).value.t == n.t && Aliases(LastBegan(log).value.items) <= ReloadedSince(log)
    ensures AllClearedWhole(log + [n])
  {
    forall k | 0 <= k <= |log|
      ensures ClearedWhole(log + [n], k)
    {
      assert (log + [n])[..k] == log[..k];
      assert log[..|log|] == log;
      if k < |log| {
        assert ClearedWhole(log, k);
      }
    }
  }

  lemma RestorePlanned(cfg: Config, s: State, t: string, items: seq<Displaced>, at: RestoreAt)
    requires InPlace(items, at) && OnPlan(cfg, s.log, Restore(t, items, at)) && !at.Finishing?
    requires AllClearedWhole(s.log)
    ensures
      var n := Applied(s, t, RestoreDecision(cfg, s, t, items, at));
      OnPlan(cfg, n.log, n.op) && !n.op.Reconciling? && AllClearedWhole(n.log)
  {
    var d := RestoreDecision(cfg, s, t, items, at);
    if d.note.Some? {
      LogStep(s.log, d.note.value);
      ClearedKept(s.log, d.note.value);
    }
    if at.Placing? {
      assert cfg.ResidencyOf(items[at.i].alias) == Some(Preferred);
    }
  }

  /** At the end of a restoration everything it set out to reload is reloaded. */
  lemma FinishPlanned(cfg: Config, log: seq<Note>, t: string, items: seq<Displaced>)
    requires OnPlan(cfg, log, Restore(t, items, Finishing)) && AllClearedWhole(log)
    ensures AllClearedWhole(log + [Cleared(t)])
  {
    ClearedKept(log, Cleared(t));
  }

  lemma RestoreAdvancePlanned(cfg: Config, s: State)
    requires Planned(cfg, s) && Formed(s.op) && s.op.Restore?
    ensures Planned(cfg, Advanced(cfg, s))
  {
    var n := Advanced(cfg, s);
    if s.op.at.Finishing? {
      assert n.op == Free && n.log == s.log + [Cleared(s.op.t)];
      FinishPlanned(cfg, s.log, s.op.t, s.op.items);
    } else {
      RestorePlanned(cfg, s, s.op.t, s.op.items, s.op.at);
      assert n == Applied(s, s.op.t, RestoreDecision(cfg, s, s.op.t, s.op.items, s.op.at));
    }
  }

  lemma AdvancePlanned(cfg: Config, s: State)
    requires Planned(cfg, s) && Formed(s.op) && !s.op.Free? && !s.op.Reconciling? && !Calls(s.op)
    ensures Planned(cfg, Advanced(cfg, s))
  {
    if s.op.UnloadAll? {
      ClearedKept(s.log, AllCleared);
    } else if s.op.Restore? {
      RestoreAdvancePlanned(cfg, s);
    } else {
      OtherAdvances(cfg, s);
    }
  }

  lemma OtherAdvances(cfg: Config, s: State)
    requires Formed(s.op) && (s.op.Failing? || s.op.Load? || s.op.Unload?)
    ensures Advanced(cfg, s).log == s.log && !Advanced(cfg, s).op.Restore? && !Advanced(cfg, s).op.Reconciling?
  {
  }

  lemma BeginPlanned(cfg: Config, s: State, t: string)
    requires Recorded(cfg, s) && Planned(cfg, s) && s.op.Free?
    ensures Planned(cfg, RestoreBegun(s, t))
  {
    assert RecordedFor(cfg, s, t);
    LogStep(s.log, Began(t, RecordOf(s, t)));
    ClearedKept(s.log, Began(t, RecordOf(s, t)));
  }

  lemma AnswerPlanned(cfg: Config, s: State, ok: bool)
    requires Planned(cfg, s) && Formed(s.op) && Calls(s.op)
    ensures Planned(cfg, s.(op := Answered(s.op, ok)))
  {
    match s.op {
      case Restore(t, items, at) =>
        var next := RestoreAnswered(t, items, at, ok);
        assert OnPlan(cfg, s.log, next);
      case _ =>
    }
  }

  lemma PlannedKept(cfg: Config, s: State, step: Step)
    requires Recorded(cfg, s) && Planned(cfg, s) && Enabled(s, step)
    ensures Planned(cfg, Next(cfg, s, step))
  {
    match step {
      case Advance => AdvancePlanned(cfg, s);
      case BeginRestore(t) => BeginPlanned(cfg, s, t);
      case Answer(ok) => AnswerPlanned(cfg, s, ok);
      case Health(_) =>
      case _ =>
    }
  }

  lemma StepKeepsInvariant(cfg: Config, s: State, step: Step)
    requires Inv(cfg, s) && Enabled(s, step)
    ensures Inv(cfg, Next(cfg, s, step))
  {
    LeasedKept(cfg, s, step);
    QuiescedKept(cfg, s, step);
    RecordedKept(cfg, s, step);
    PlannedKept(cfg, s, step);
  }

  // --------------------------------------------------------------------------- runs

  /** Every configured model starts unloaded. */
  function Initial(cfg: Config): State
  {
    State(map a | a in cfg.bindings :: Unloaded, map[], map[], map[], {}, Timers({}, map[]), [], Free, [])
  }

  ghost function After(cfg: Config, run: seq<Step>): State
    requires Legal(cfg, run)
    decreases |run|, 1
  {
    if run == [] then Initial(cfg) else Next(cfg, After(cfg, run[..|run| - 1]), run[|run| - 1])
  }

  ghost predicate Legal(cfg: Config, run: seq<Step>)
    decreases |run|, 0
  {
    run == [] || (Legal(cfg, run[..|run| - 1]) && Enabled(After(cfg, run[..|run| - 1]), run[|run| - 1]))
  }

  lemma Extend(cfg: Config, run: seq<Step>, step: Step)
    requires Legal(cfg, run) && Enabled(After(cfg, run), step)
    ensures Legal(cfg, run + [step]) && After(cfg, run + [step]) == Next(cfg, After(cfg, run), step)
  {
    assert (run + [step])[..|run|] == run;
  }

  /** A run goes on with one more step. */
  lemma Take(cfg: Config, run: seq<Step>, step: Step) returns (longer: seq<Step>, s: State)
    requires Legal(cfg, run) && Enabled(After(cfg, run), step)
    ensures longer == run + [step] && Legal(cfg, longer)
    ensures s == After(cfg, longer) == Next(cfg, After(cfg, run), step)
  {
    Extend(cfg, run, step);
    longer := run + [step];
    s := After(cfg, longer);
  }

  lemma {:induction false} RunsKeepInvariant(cfg: Config, run: seq<Step>)
    requires Legal(cfg, run)
    ensures Inv(cfg, After(cfg, run))
  {
    if run == [] {
      forall t
        ensures LeasedFor(Initial(cfg), t) && RecordedFor(cfg, Initial(cfg), t)
      {}
    } else {
      RunsKeepInvariant(cfg, run[..|run| - 1]);
      StepKeepsInvariant(cfg, After(cfg, run[..|run| - 1]), run[|run| - 1]);
    }
  }

  /** Demand is never below zero. */
  lemma {:induction false} RunsKeepDemand(cfg: Config, run: seq<Step>, a: string)
    requires Legal(cfg, run)
    ensures Get(After(cfg, run).demand, a) >= 0
  {
    if run != [] {
      RunsKeepDemand(cfg, run[..|run| - 1], a);
      DemandStep(cfg, After(cfg, run[..|run| - 1]), run[|run| - 1], a);
    }
  }

  lemma DemandStep(cfg: Config, s: State, step: Step, a: string)
    requires Enabled(s, step) && Get(s.demand, a) >= 0
    ensures Get(Next(cfg, s, step).demand, a) >= 0
  {
  }

  /** In every interleaving: a busy model has a lease; a restoration calls unload on
      its transient only while that has none; and from the final draining mark until
      the call returns no lease on it is granted. */
  lemma DrainingIsExclusive(cfg: Config, run: seq<Step>)
    requires Legal(cfg, run)
    ensures
      var s := After(cfg, run);
      && (forall a :: StateOf(s, a) == Some(Busy) ==> Get(s.active, a) > 0)
      && (forall k :: 0 <= k < |s.log| && s.log[k].UnloadCalled? ==> s.log[k].leases == 0)
      && (Draws(s.op) ==> Get(s.active, s.op.t) == 0 && Acquired(s, s.op.t) == s)
  {
    RunsKeepInvariant(cfg, run);
    var s := After(cfg, run);
    forall a
      ensures StateOf(s, a) == Some(Busy) ==> Get(s.active, a) > 0
    {
      assert LeasedFor(s, a);
    }
  }

  /** A restoration clears the record only after reloading, and keeping, every model
      that was in the record when it began. */
  lemma ClearedAfterReloading(cfg: Config, run: seq<Step>, k: nat)
    requires Legal(cfg, run) && k < |After(cfg, run).log| && After(cfg, run).log[k].Cleared?
    ensures
      var log := After(cfg, run).log;
      var began := LastBegan(log[..k]);
      && began.Some? && began.value.t == log[k].t
      && forall i :: 0 <= i < |began.value.items| ==> began.value.items[i].alias in ReloadedSince(log[..k])
  {
    RunsKeepInvariant(cfg, run);
    var log := After(cfg, run).log;
    assert ClearedWhole(log, k);
    var items := LastBegan(log[..k]).value.items;
    forall i | 0 <= i < |items|
      ensures items[i].alias in ReloadedSince(log[..k])
    {
      assert items[i].alias in Aliases(items);
    }
  }

  /** Otherwise the record of a transient only grows, by the swaps to it, and loses
      nothing but in a global unload; it always lists distinct preferred models in
      restoration order. */
  lemma RecordsAreKept(cfg: Config, run: seq<Step>, step: Step, t: string)
    requires Legal(cfg, run) && Enabled(After(cfg, run), step)
    ensures
      var s := After(cfg, run);
      var n := Next(cfg, s, step);
      && AscendingDistinct(RecordOf(n, t)) && AllPreferred(cfg, RecordOf(n, t))
      && (|| multiset(RecordOf(s, t)) <= multiset(RecordOf(n, t))
          || (RecordOf(n, t) == [] && n.log == s.log + [Cleared(t)])
          || (RecordOf(n, t) == [] && n.log == s.log + [AllCleared]))
  {
    RunsKeepInvariant(cfg, run);
    var s := After(cfg, run);
    StepKeepsInvariant(cfg, s, step);
    assert RecordedFor(cfg, s, t) && RecordedFor(cfg, Next(cfg, s, step), t);
    RecordChanges(cfg, s, step, t);
    if step.BeginSwap? && step.target == t {
      SwapRecords(cfg, s, t, step.victims);
    }
  }
}
