/** Compiled matrix programs: what a solver decision must be, stated over the
    denoted families, and why the frontier yields the cheapest one. */
module MatrixProgram {
  import opened Names
  import opened BitMask
  import opened Frontier

  datatype CompiledSet = CompiledSet(name: string, dsl: string, root: Node, support: Mask)

  datatype Program = Program(sets: seq<CompiledSet>, modelBits: map<string, nat>, words: nat)

  datatype Decision = Decision(
    evict: seq<string>, targetSet: seq<string>, setName: string, dsl: string, totalCost: int)

  /** A numbering gives each model its own bit; which one does not matter. */
  ghost predicate Numbering(bits: map<string, nat>)
  {
    && (forall m :: m in bits ==> bits[m] < |bits|)
    && (forall m, n :: m in bits && n in bits && bits[m] == bits[n] ==> m == n)
  }

  function WordsFor(count: nat): nat { (count + WORD_BITS - 1) / WORD_BITS }

  ghost predicate Encodes(bits: map<string, nat>, mask: Mask, models: set<string>)
  {
    |mask| == WordsFor(|bits|) && models <= bits.Keys && Bits(mask) == set m | m in models :: bits[m]
  }

  lemma EncodesSubset(bits: map<string, nat>, a: Mask, x: set<string>, b: Mask, y: set<string>)
    requires Numbering(bits) && Encodes(bits, a, x) && Encodes(bits, b, y)
    ensures Bits(a) <= Bits(b) <==> x <= y
  {
    if Bits(a) <= Bits(b) {
      forall m | m in x
        ensures m in y
      {
        assert bits[m] in Bits(a);
      }
    }
  }

  lemma EncodesHas(bits: map<string, nat>, mask: Mask, models: set<string>, m: string)
    requires Numbering(bits) && Encodes(bits, mask, models) && m in bits
    ensures bits[m] < WORD_BITS * |mask|
    ensures Has(mask, bits[m]) <==> m in models
  {
    assert bits[m] in Bits(mask) <==> Has(mask, bits[m]);
  }

  ghost predicate Valid(p: Program)
  {
    && Numbering(p.modelBits)
    && p.words == WordsFor(|p.modelBits|)
    && forall i :: 0 <= i < |p.sets| ==> Encodes(p.modelBits, p.sets[i].support, Support(p.sets[i].root))
  }

  // ------------------------------------------------------------- specification

  /** Some set of the expression contains all of the models. */
  ghost predicate Allows(root: Node, models: set<string>)
  {
    exists s :: s in Family(root) && models <= s
  }

  /** The first set of the program that allows the models; |p.sets| when none does. */
  ghost function FirstAllowing(p: Program, models: set<string>, from: nat): (i: nat)
    requires from <= |p.sets|
    ensures from <= i <= |p.sets|
    decreases |p.sets| - from
  {
    if from == |p.sets| || Allows(p.sets[from].root, models) then from
    else FirstAllowing(p, models, from + 1)
  }

  function EvictionCost(costs: map<string, int>, model: string): int
  {
    if model in costs then costs[model] else 1
  }

  /** Total cost of the running models that a choice does not keep. */
  function CostOf(running: seq<string>, kept: set<string>, costs: map<string, int>): int
  {
    if running == [] then 0
    else
      var m := running[|running| - 1];
      CostOf(running[..|running| - 1], kept, costs) + (if m in kept then 0 else EvictionCost(costs, m))
  }

  /** What a list of models costs at these prices. */
  function Sum(models: seq<string>, price: string -> int): int
  {
    if models == [] then 0 else Sum(models[..|models| - 1], price) + price(models[|models| - 1])
  }

  /** A listed model has its listed price, any other costs one. */
  ghost predicate Prices(price: string -> int, costs: map<string, int>)
  {
    forall m :: price(m) == if m in costs then costs[m] else 1
  }

  /** The running models that a choice does not keep, in running order. */
  function LeftOut(running: seq<string>, kept: set<string>): seq<string>
  {
    if running == [] then []
    else
      var m := running[|running| - 1];
      LeftOut(running[..|running| - 1], kept) + (if m in kept then [] else [m])
  }

  /** The scan's best-so-far variables; a negative cost means nothing was found yet. */
  datatype Best = Best(cost: int, found: bool, at: nat, choice: Choice)

  const NOTHING: Best := Best(-1, false, 0, Choice({}, NoWitness))

  datatype Query = Query(target: string, running: seq<string>, costs: map<string, int>)
  {
    ghost function Relevant(): set<string> { {target} + Elements(running) }

    ghost predicate NonNegative()
    {
      forall m :: m in running && m in costs ==> costs[m] >= 0
    }
  }

  function Consider(q: Query, best: Best, i: nat, c: Choice): Best
  {
    if q.target !in c.kept then best
    else
      var cost := CostOf(q.running, c.kept, q.costs);
      if best.cost < 0 || cost < best.cost then Best(cost, true, i, c) else best
  }

  function ConsiderAll(q: Query, best: Best, i: nat, choices: seq<Choice>): Best
  {
    if choices == [] then best
    else Consider(q, ConsiderAll(q, best, i, choices[..|choices| - 1]), i, choices[|choices| - 1])
  }

  /** The scan over the first n sets. Sets that cannot mention the target are skipped. */
  ghost function ConsiderSets(p: Program, q: Query, n: nat): Best
    requires n <= |p.sets|
  {
    if n == 0 then NOTHING
    else
      var best := ConsiderSets(p, q, n - 1);
      if q.target !in Support(p.sets[n - 1].root) then best
      else ConsiderAll(q, best, n - 1, Evaluate(q.Relevant(), p.sets[n - 1].root))
  }

  /** The decision `Solve` returns. */
  ghost function Decide(p: Program, q: Query): Decision
  {
    if q.target in q.running then
      var i := FirstAllowing(p, Elements(q.running), 0);
      if i < |p.sets| then Decision([], q.running, p.sets[i].name, p.sets[i].dsl, 0)
      else Decision([], q.running, "", "", 0)
    else
      var best := ConsiderSets(p, q, |p.sets|);
      BestSetInRange(p, q, |p.sets|);
      if !best.found then Decision(q.running, [q.target], "", "", 0)
      else
        Decision(LeftOut(q.running, best.choice.kept), SortedListing(Named(best.choice.made)),
                 p.sets[best.at].name, p.sets[best.at].dsl, best.cost)
  }

  // ----------------------------------------------------------------- optimality

  lemma {:induction false} CostShrinks(running: seq<string>, less: set<string>, more: set<string>, costs: map<string, int>)
    requires forall m :: m in running ==> EvictionCost(costs, m) >= 0
    requires less * Elements(running) <= more
    ensures 0 <= CostOf(running, more, costs) <= CostOf(running, less, costs)
  {
    if running != [] {
      var k := |running| - 1;
      assert running[k] in running && forall m :: m in running[..k] ==> m in running;
      CostShrinks(running[..k], less, more, costs);
    }
  }

  lemma {:induction false} OnlyRelevantMatters(running: seq<string>, s: set<string>, relevant: set<string>, costs: map<string, int>)
    requires Elements(running) <= relevant
    ensures CostOf(running, s * relevant, costs) == CostOf(running, s, costs)
    ensures LeftOut(running, s * relevant) == LeftOut(running, s)
  {
    if running != [] {
      var k := |running| - 1;
      assert running[k] in Elements(running);
      assert Elements(running[..k]) <= Elements(running);
      OnlyRelevantMatters(running[..k], s, relevant, costs);
    }
  }

  /** A choice that costs nothing leaves nothing out, when every cost is positive. */
  lemma {:induction false} FreeMeansKept(running: seq<string>, kept: set<string>, costs: map<string, int>)
    requires forall m :: m in running ==> EvictionCost(costs, m) > 0
    ensures CostOf(running, kept, costs) >= 0
    ensures CostOf(running, kept, costs) == 0 ==> LeftOut(running, kept) == []
  {
    if running != [] {
      var k := |running| - 1;
      assert running[k] in running && forall m :: m in running[..k] ==> m in running;
      FreeMeansKept(running[..k], kept, costs);
    }
  }

  ghost predicate Settled(best: Best)
  {
    if best.found then best.cost >= 0 else best == NOTHING
  }

  lemma {:induction false} ConsiderAllBest(q: Query, best: Best, i: nat, choices: seq<Choice>)
    requires q.NonNegative() && Settled(best)
    ensures
      var r := ConsiderAll(q, best, i, choices);
      && Settled(r)
      && (best.found ==> r.found && r.cost <= best.cost)
      && (forall c :: c in choices && q.target in c.kept ==> r.found && r.cost <= CostOf(q.running, c.kept, q.costs))
      && (r == best
          || (r.found && r.at == i && r.choice in choices && q.target in r.choice.kept
              && r.cost == CostOf(q.running, r.choice.kept, q.costs)))
  {
    if choices != [] {
      var k := |choices| - 1;
      ConsiderAllBest(q, best, i, choices[..k]);
      CostShrinks(q.running, choices[k].kept, choices[k].kept, q.costs);
      assert choices == choices[..k] + [choices[k]];
    }
  }

  lemma {:induction false} BestSetInRange(p: Program, q: Query, n: nat)
    requires n <= |p.sets|
    ensures var r := ConsiderSets(p, q, n); r.found ==> r.at < n
  {
    if n > 0 {
      BestSetInRange(p, q, n - 1);
      if q.target in Support(p.sets[n - 1].root) {
        KeepsOrigin(q, ConsiderSets(p, q, n - 1), n - 1, Evaluate(q.Relevant(), p.sets[n - 1].root));
      }
    }
  }

  lemma {:induction false} KeepsOrigin(q: Query, best: Best, i: nat, choices: seq<Choice>)
    ensures var r := ConsiderAll(q, best, i, choices); r == best || (r.found && r.at == i)
  {
    if choices != [] {
      KeepsOrigin(q, best, i, choices[..|choices| - 1]);
    }
  }

  ghost predicate Denotes(p: Program, i: nat, target: string, s: set<string>)
  {
    i < |p.sets| && s in Family(p.sets[i].root) && target in s
  }

  lemma {:induction false} ScanBest(p: Program, q: Query, n: nat)
    requires n <= |p.sets| && q.NonNegative()
    ensures
      var r := ConsiderSets(p, q, n);
      && Settled(r)
      && (forall i: nat, s :: i < n && Denotes(p, i, q.target, s) ==> r.found && r.cost <= CostOf(q.running, s, q.costs))
      && (r.found ==>
            exists s ::
              && r.at < n && Denotes(p, r.at, q.target, s) && Projects(q.Relevant(), r.choice, s)
              && r.cost == CostOf(q.running, s, q.costs))
  {
    if n > 0 {
      ScanBest(p, q, n - 1);
      var root := p.sets[n - 1].root;
      var before := ConsiderSets(p, q, n - 1);
      var r := ConsiderSets(p, q, n);
      var choices := Evaluate(q.Relevant(), root);
      if q.target in Support(root) {
        EvaluateStandsFor(q.Relevant(), root);
        ConsiderAllBest(q, before, n - 1, choices);
        forall s | Denotes(p, n - 1, q.target, s)
          ensures r.found && r.cost <= CostOf(q.running, s, q.costs)
        {
          var j :| 0 <= j < |choices| && s * q.Relevant() <= choices[j].kept;
          assert choices[j] in choices && q.target in s * q.Relevant();
          CostShrinks(q.running, s, choices[j].kept, q.costs);
        }
        if r != before {
          assert Backed(q.Relevant(), r.choice, Family(root));
          var s :| s in Family(root) && Projects(q.Relevant(), r.choice, s);
          OnlyRelevantMatters(q.running, s, q.Relevant(), q.costs);
          assert Denotes(p, n - 1, q.target, s);
        }
      } else {
        forall s | s in Family(root)
          ensures q.target !in s
        {
          FamilyWithinSupport(root, s);
        }
      }
    }
  }

  lemma DecideFindsBest(p: Program, q: Query)
    requires q.target !in q.running && q.NonNegative()
    ensures
      var d := Decide(p, q);
      if exists i: nat, s :: Denotes(p, i, q.target, s) then
        exists i: nat, s ::
          && Denotes(p, i, q.target, s)
          && d.setName == p.sets[i].name && d.dsl == p.sets[i].dsl
          && StrictlySorted(d.targetSet) && Elements(d.targetSet) == s - {""}
          && d.evict == LeftOut(q.running, s)
          && d.totalCost == CostOf(q.running, s, q.costs)
          && forall j: nat, t :: Denotes(p, j, q.target, t) ==> d.totalCost <= CostOf(q.running, t, q.costs)
      else
        d == Decision(q.running, [q.target], "", "", 0)
  {
    ScanBest(p, q, |p.sets|);
    var best := ConsiderSets(p, q, |p.sets|);
    var d := Decide(p, q);
    if best.found {
      var s :| Denotes(p, best.at, q.target, s) && Projects(q.Relevant(), best.choice, s)
               && best.cost == CostOf(q.running, s, q.costs);
      OnlyRelevantMatters(q.running, s, q.Relevant(), q.costs);
      assert Elements(d.targetSet) == s - {""};
    }
  }

  lemma {:induction false} CostIsSum(running: seq<string>, kept: set<string>, costs: map<string, int>, price: string -> int)
    requires Prices(price, costs)
    ensures CostOf(running, kept, costs) == Sum(LeftOut(running, kept), price)
  {
    if running != [] {
      var before := LeftOut(running[..|running| - 1], kept);
      CostIsSum(running[..|running| - 1], kept, costs, price);
      assert (before + [running[|running| - 1]])[..|before|] == before && before + [] == before;
    }
  }

  /** The main result. For a target that is not running: when some denoted set
      contains it, the decision names one such set, evicts exactly the running
      models outside it, and no denoted set containing the target leaves out
      running models whose prices sum to less. Otherwise everything is evicted. */
  lemma DecideIsOptimal(p: Program, q: Query, price: string -> int)
    requires q.target !in q.running && q.NonNegative() && Prices(price, q.costs)
    ensures
      var d := Decide(p, q);
      if exists i: nat, s :: Denotes(p, i, q.target, s) then
        exists i: nat, s ::
          && Denotes(p, i, q.target, s)
          && d.setName == p.sets[i].name && d.dsl == p.sets[i].dsl
          && StrictlySorted(d.targetSet) && Elements(d.targetSet) == s - {""}
          && d.evict == LeftOut(q.running, s)
          && d.totalCost == Sum(d.evict, price)
          && forall j: nat, t :: Denotes(p, j, q.target, t) ==> d.totalCost <= Sum(LeftOut(q.running, t), price)
      else
        d == Decision(q.running, [q.target], "", "", 0)
  {
    DecideFindsBest(p, q);
    forall t
      ensures CostOf(q.running, t, q.costs) == Sum(LeftOut(q.running, t), price)
    {
      CostIsSum(q.running, t, q.costs, price);
    }
  }

  /** Where one denoted set with the target leaves out only `m` and another only `n`, the
      dearer of the two is not evicted; a model without a listed cost costs one. */
  lemma DearerIsSpared(p: Program, q: Query, i: nat, s: set<string>, m: string, n: string, price: string -> int)
    requires q.target !in q.running && q.NonNegative() && Prices(price, q.costs)
    requires Denotes(p, i, q.target, s) && LeftOut(q.running, s) == [m]
    requires
      (if m in q.costs then q.costs[m] else 1) < (if n in q.costs then q.costs[n] else 1)
    ensures n !in Decide(p, q).evict
  {
    DecideIsOptimal(p, q, price);
    var d := Decide(p, q);
    assert [m][..0] == [] && Sum([m], price) == price(m);
    LeftOutWithin(p, q);
    if n in d.evict {
      MemberCosts(d.evict, n, price);
      assert false;
    }
  }

  /** Only running models are evicted. */
  lemma LeftOutWithin(p: Program, q: Query)
    requires q.target !in q.running && q.NonNegative()
    ensures forall m :: m in Decide(p, q).evict ==> m in q.running
  {
    DecideFindsBest(p, q);
    if exists i: nat, s :: Denotes(p, i, q.target, s) {
      var i: nat, s :| Denotes(p, i, q.target, s) && Decide(p, q).evict == LeftOut(q.running, s);
      forall m | m in LeftOut(q.running, s)
        ensures m in q.running
      {
        LeftOutExact(q.running, s, m);
        assert m in multiset(LeftOut(q.running, s)) && m in multiset(q.running);
      }
    }
  }

  /** A list without negative prices costs at least what each of its models does. */
  lemma {:induction false} MemberCosts(models: seq<string>, m: string, price: string -> int)
    requires forall x :: x in models ==> price(x) >= 0
    ensures Sum(models, price) >= 0 && (m in models ==> Sum(models, price) >= price(m))
  {
    if models != [] {
      var k := |models| - 1;
      assert models == models[..k] + [models[k]];
      MemberCosts(models[..k], m, price);
    }
  }

  /** `LeftOut` keeps running order: its models stand at ascending places of the list. */
  lemma {:induction false} LeftOutInOrder(running: seq<string>, s: set<string>) returns (places: seq<nat>)
    ensures |places| == |LeftOut(running, s)|
    ensures forall i :: 0 <= i < |places| ==> places[i] < |running| && running[places[i]] == LeftOut(running, s)[i]
    ensures forall i, j :: 0 <= i < j < |places| ==> places[i] < places[j]
  {
    places := [];
    if running != [] {
      var k := |running| - 1;
      places := LeftOutInOrder(running[..k], s);
      if running[k] !in s {
        places := places + [k];
      }
    }
  }

  /** A target that runs already changes nothing: no model is evicted, the set is the
      running list, and it is named after the first set that denotes all of it, if any. */
  lemma RunningTargetStays(p: Program, q: Query)
    requires q.target in q.running
    ensures
      var d := Decide(p, q);
      && d.evict == [] && d.totalCost == 0 && d.targetSet == q.running
      && if exists i :: 0 <= i < |p.sets| && Allows(p.sets[i].root, Elements(q.running)) then
           exists i ::
             && 0 <= i < |p.sets| && Allows(p.sets[i].root, Elements(q.running))
             && (forall j :: 0 <= j < i ==> !Allows(p.sets[j].root, Elements(q.running)))
             && d.setName == p.sets[i].name && d.dsl == p.sets[i].dsl
         else d.setName == "" && d.dsl == ""
  {
    FirstAllowingFinds(p, Elements(q.running), 0);
  }

  lemma {:induction false} FirstAllowingFinds(p: Program, models: set<string>, from: nat)
    requires from <= |p.sets|
    ensures
      var i := FirstAllowing(p, models, from);
      && (i < |p.sets| ==> Allows(p.sets[i].root, models))
      && forall j :: from <= j < i ==> !Allows(p.sets[j].root, models)
    decreases |p.sets| - from
  {
    if from < |p.sets| && !Allows(p.sets[from].root, models) {
      FirstAllowingFinds(p, models, from + 1);
    }
  }

  /** `LeftOut` is exactly the running models outside the set, repetitions kept. */
  lemma {:induction false} LeftOutExact(running: seq<string>, s: set<string>, m: string)
    ensures multiset(LeftOut(running, s))[m] == if m in s then 0 else multiset(running)[m]
  {
    if running != [] {
      var k := |running| - 1;
      LeftOutExact(running[..k], s, m);
      assert running == running[..k] + [running[k]];
    }
  }

  /** Targets that may all appear together never evict one another: whichever of
      them run, starting another one evicts nothing, when costs are positive. */
  lemma CoexistingTargetsEvictNothing(p: Program, targets: set<string>, q: Query)
    requires exists i :: 0 <= i < |p.sets| && Allows(p.sets[i].root, targets)
    requires q.target in targets && Elements(q.running) <= targets
    requires forall m :: m in q.running && m in q.costs ==> q.costs[m] > 0
    ensures Decide(p, q).evict == []
  {
    if q.target !in q.running {
      var i :| 0 <= i < |p.sets| && Allows(p.sets[i].root, targets);
      var t :| t in Family(p.sets[i].root) && targets <= t;
      assert Denotes(p, i, q.target, t);
      DecideFindsBest(p, q);
      CostShrinks(q.running, t, t, q.costs);
      KeptIsFree(q.running, t, q.costs);
      var s :| Decide(p, q).evict == LeftOut(q.running, s) && Decide(p, q).totalCost == CostOf(q.running, s, q.costs);
      FreeMeansKept(q.running, s, q.costs);
    }
  }

  lemma {:induction false} KeptIsFree(running: seq<string>, kept: set<string>, costs: map<string, int>)
    requires Elements(running) <= kept
    ensures CostOf(running, kept, costs) == 0
  {
    if running != [] {
      var k := |running| - 1;
      assert running[k] in Elements(running) && Elements(running[..k]) <= Elements(running);
      KeptIsFree(running[..k], kept, costs);
    }
  }
}
