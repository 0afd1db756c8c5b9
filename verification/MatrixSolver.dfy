/** The solver itself: memoised evaluation over bit masks, `Solve`,
    `CanContainAll`, the support pre-filter and the one-entry decision cache. */
module MatrixSolver {
  import opened Names
  import opened BitMask
  import opened Frontier
  import opened MatrixProgram

  datatype State = State(mask: Mask, made: Witness)

  /** Numbers the models of a query in the order they are first seen. */
  method NumberModels(relevant: seq<string>) returns (bits: map<string, nat>)
    ensures Numbering(bits) && bits.Keys == Elements(relevant)
  {
    bits := map[];
    for i := 0 to |relevant|
      invariant Numbering(bits) && bits.Keys == Elements(relevant[..i])
    {
      assert relevant[..i + 1] == relevant[..i] + [relevant[i]];
      if relevant[i] !in bits {
        NumberingGrows(bits, relevant[i]);
        bits := bits[relevant[i] := |bits|];
      }
    }
    assert relevant[..|relevant|] == relevant;
  }

  lemma NumberingGrows(bits: map<string, nat>, m: string)
    requires Numbering(bits) && m !in bits
    ensures Numbering(bits[m := |bits|])
  {
    assert bits[m := |bits|].Keys == bits.Keys + {m};
  }

  ghost predicate Represents(bits: map<string, nat>, st: State, c: Choice)
  {
    Encodes(bits, st.mask, c.kept) && st.made == c.made
  }

  ghost predicate RepresentsAll(bits: map<string, nat>, states: seq<State>, choices: seq<Choice>)
  {
    |states| == |choices| && forall i :: 0 <= i < |states| ==> Represents(bits, states[i], choices[i])
  }

  method EmptyMask(bits: map<string, nat>) returns (mask: Mask)
    ensures Encodes(bits, mask, {})
  {
    mask := Zero(WordsFor(|bits|));
    assert Bits(mask) == {};
  }

  lemma SetBitEncodes(bits: map<string, nat>, mask: Mask, models: set<string>, m: string)
    requires Numbering(bits) && Encodes(bits, mask, models) && m in bits
    ensures bits[m] < WORD_BITS * |mask|
    ensures Encodes(bits, SetBit(mask, bits[m]), models + {m})
  {
    SetBitBits(mask, bits[m]);
    ImageOfUnion(bits, models, {m});
    assert (set x | x in {m} :: bits[x]) == {bits[m]};
  }

  lemma ImageOfUnion(bits: map<string, nat>, a: set<string>, b: set<string>)
    requires a <= bits.Keys && b <= bits.Keys
    ensures (set m | m in a + b :: bits[m]) == (set m | m in a :: bits[m]) + (set m | m in b :: bits[m])
  {}

  /** `addToFrontier`: scan for a dominating state, else filter and append. */
  method AddState(bits: map<string, nat>, states: seq<State>, candidate: State,
                  ghost choices: seq<Choice>, ghost c: Choice) returns (r: seq<State>)
    requires Numbering(bits) && RepresentsAll(bits, states, choices) && Represents(bits, candidate, c)
    ensures RepresentsAll(bits, r, AddToFrontier(choices, c))
  {
    for i := 0 to |states|
      invariant forall j :: 0 <= j < i ==> !(c.kept <= choices[j].kept)
    {
      EncodesSubset(bits, candidate.mask, c.kept, states[i].mask, choices[i].kept);
      var below := SubsetOf(candidate.mask, states[i].mask);
      if below {
        return states;
      }
    }
    var kept: seq<State> := [];
    for i := 0 to |states|
      invariant RepresentsAll(bits, kept, Survivors(choices[..i], c.kept))
    {
      EncodesSubset(bits, states[i].mask, choices[i].kept, candidate.mask, c.kept);
      assert choices[..i + 1][..i] == choices[..i];
      var above := SubsetOf(states[i].mask, candidate.mask);
      if !above {
        kept := kept + [states[i]];
      }
    }
    assert choices[..|states|] == choices;
    r := kept + [candidate];
  }

  method AddStates(bits: map<string, nat>, before: seq<State>, more: seq<State>,
                   ghost choices: seq<Choice>, ghost added: seq<Choice>) returns (states: seq<State>)
    requires Numbering(bits) && RepresentsAll(bits, before, choices) && RepresentsAll(bits, more, added)
    ensures RepresentsAll(bits, states, AddAll(choices, added))
  {
    states := before;
    assert added[..0] == [];
    for j := 0 to |more|
      invariant RepresentsAll(bits, states, AddAll(choices, added[..j]))
    {
      assert added[..j + 1][..j] == added[..j];
      states := AddState(bits, states, more[j], AddAll(choices, added[..j]), added[j]);
    }
    assert added[..|more|] == added;
  }

  /** Joins one left state with every right state, adding each result as it is made. */
  method AddJoined(bits: map<string, nat>, before: seq<State>, left: State, rights: seq<State>,
                   ghost choices: seq<Choice>, ghost l: Choice, ghost rs: seq<Choice>) returns (states: seq<State>)
    requires Numbering(bits) && RepresentsAll(bits, before, choices)
    requires Represents(bits, left, l) && RepresentsAll(bits, rights, rs)
    ensures RepresentsAll(bits, states, AddAll(choices, JoinAll(l, rs)))
  {
    states := before;
    ghost var joined := JoinAll(l, rs);
    assert joined[..0] == [];
    for j := 0 to |rights|
      invariant RepresentsAll(bits, states, AddAll(choices, joined[..j]))
    {
      var mask := UnionMask(left.mask, rights[j].mask);
      ImageOfUnion(bits, l.kept, rs[j].kept);
      assert joined[..j + 1][..j] == joined[..j];
      states := AddState(bits, states, State(mask, Witness("", left.made, rights[j].made)),
                         AddAll(choices, joined[..j]), joined[j]);
    }
    assert joined[..|rights|] == joined;
  }

  class Evaluator {
    const modelBits: map<string, nat>
    var memo: map<Node, seq<State>>

    ghost predicate Valid()
      reads this
    {
      && Numbering(modelBits)
      && forall n :: n in memo ==> RepresentsAll(modelBits, memo[n], Evaluate(modelBits.Keys, n))
    }

    constructor (relevant: seq<string>)
      ensures Valid() && modelBits.Keys == Elements(relevant)
    {
      var bits := NumberModels(relevant);
      modelBits := bits;
      memo := map[];
    }

    /** `evaluator.evaluate`: the states of a node, computed once per query. */
    method States(root: Node) returns (states: seq<State>)
      requires Valid()
      modifies this`memo
      ensures Valid() && RepresentsAll(modelBits, states, Evaluate(modelBits.Keys, root))
      decreases root, 1
    {
      if root in memo {
        return memo[root];
      }
      match root {
        case Leaf(model) =>
          var mask := EmptyMask(modelBits);
          if model in modelBits {
            SetBitEncodes(modelBits, mask, {}, model);
            mask := SetBit(mask, modelBits[model]);
            assert {} + {model} == {model} * modelBits.Keys;
          } else {
            assert {} == {model} * modelBits.Keys;
          }
          states := [State(mask, Witness(model, NoWitness, NoWitness))];
        case Ref(target) =>
          states := States(target);
        case Or(children) =>
          states := OrStates(children);
        case And(children) =>
          states := AndStates(children);
      }
      memo := memo[root := states];
    }

    method OrStates(children: seq<Node>) returns (states: seq<State>)
      requires Valid()
      modifies this`memo
      ensures Valid() && RepresentsAll(modelBits, states, EvaluateOr(modelBits.Keys, children))
      decreases children, 0
    {
      ghost var relevant := modelBits.Keys;
      states := [];
      for i := 0 to |children|
        invariant Valid() && RepresentsAll(modelBits, states, EvaluateOr(relevant, children[..i]))
      {
        var more := States(children[i]);
        states := AddStates(modelBits, states, more, EvaluateOr(relevant, children[..i]), Evaluate(relevant, children[i]));
        assert children[..i + 1][..i] == children[..i];
      }
      assert children[..|children|] == children;
    }

    method AndStates(children: seq<Node>) returns (states: seq<State>)
      requires Valid()
      modifies this`memo
      ensures Valid() && RepresentsAll(modelBits, states, EvaluateAnd(modelBits.Keys, children))
      decreases children, 0
    {
      ghost var relevant := modelBits.Keys;
      var empty := EmptyMask(modelBits);
      states := [State(empty, NoWitness)];
      for i := 0 to |children|
        invariant Valid() && RepresentsAll(modelBits, states, EvaluateAnd(relevant, children[..i]))
      {
        states := CrossStates(states, children[i], EvaluateAnd(relevant, children[..i]));
        assert children[..i + 1][..i] == children[..i];
      }
      assert children[..|children|] == children;
    }

    /** One step of AND: every state so far with every state of the next child. */
    method CrossStates(lefts: seq<State>, child: Node, ghost choices: seq<Choice>) returns (combined: seq<State>)
      requires Valid() && RepresentsAll(modelBits, lefts, choices)
      modifies this`memo
      ensures Valid() && RepresentsAll(modelBits, combined, Cross(choices, Evaluate(modelBits.Keys, child)))
      decreases child, 2
    {
      ghost var added := Evaluate(modelBits.Keys, child);
      combined := [];
      for i := 0 to |lefts|
        invariant Valid() && RepresentsAll(modelBits, combined, Cross(choices[..i], added))
      {
        var rights := States(child);
        combined := AddJoined(modelBits, combined, lefts[i], rights, Cross(choices[..i], added), choices[i], added);
        assert choices[..i + 1][..i] == choices[..i];
      }
      assert choices[..|lefts|] == choices;
    }
  }

  /** `flattenWitness`, before sorting: every named model once, in visiting order. */
  method VisitWitness(current: Witness, seen: seq<string>) returns (models: seq<string>)
    requires forall i, j :: 0 <= i < j < |seen| ==> seen[i] != seen[j]
    ensures forall i, j :: 0 <= i < j < |models| ==> models[i] != models[j]
    ensures Elements(models) == Elements(seen) + Named(current)
    decreases current
  {
    models := seen;
    if current.Witness? {
      if current.model != "" && current.model !in models {
        models := models + [current.model];
      }
      models := VisitWitness(current.left, models);
      models := VisitWitness(current.right, models);
    }
  }

  method FlattenWitness(root: Witness) returns (models: seq<string>)
    ensures models == SortedListing(Named(root))
  {
    models := VisitWitness(root, []);
    assert Elements(models) == Named(root);
    models := SortStrings(models);
  }

  /** One denoted set contains all models exactly when some frontier choice keeps them all. */
  lemma AllowsOnFrontier(root: Node, models: set<string>)
    ensures Allows(root, models) <==> Dominated(Evaluate(models, root), models)
  {
    var choices := Evaluate(models, root);
    EvaluateStandsFor(models, root);
    if Allows(root, models) {
      var s :| s in Family(root) && models <= s;
      assert s * models == models;
    }
    if Dominated(choices, models) {
      var i :| 0 <= i < |choices| && models <= choices[i].kept;
      assert choices[i] in choices;
      var s :| s in Family(root) && Projects(models, choices[i], s);
      assert models <= s;
    }
  }

  method Allowing(evaluator: Evaluator, required: Mask, root: Node) returns (r: bool)
    requires evaluator.Valid() && Encodes(evaluator.modelBits, required, evaluator.modelBits.Keys)
    modifies evaluator`memo
    ensures evaluator.Valid()
    ensures r <==> Allows(root, evaluator.modelBits.Keys)
  {
    AllowsOnFrontier(root, evaluator.modelBits.Keys);
    var states := evaluator.States(root);
    r := AnyFull(evaluator.modelBits, required, states, Evaluate(evaluator.modelBits.Keys, root));
  }

  method AnyFull(bits: map<string, nat>, required: Mask, states: seq<State>, ghost choices: seq<Choice>) returns (r: bool)
    requires Numbering(bits) && Encodes(bits, required, bits.Keys) && RepresentsAll(bits, states, choices)
    ensures r <==> Dominated(choices, bits.Keys)
  {
    for i := 0 to |states|
      invariant forall j :: 0 <= j < i ==> !(bits.Keys <= choices[j].kept)
    {
      EncodesSubset(bits, required, bits.Keys, states[i].mask, choices[i].kept);
      var full := SubsetOf(required, states[i].mask);
      if full {
        return true;
      }
    }
    return false;
  }

  method RequiredMask(evaluator: Evaluator) returns (required: Mask)
    requires evaluator.Valid()
    ensures Encodes(evaluator.modelBits, required, evaluator.modelBits.Keys)
  {
    var bits := evaluator.modelBits;
    required := FullMask(|bits|);
    AllBitsUsed(bits);
  }

  /** A numbering uses every bit below its size. */
  lemma AllBitsUsed(bits: map<string, nat>)
    requires Numbering(bits)
    ensures (set m | m in bits.Keys :: bits[m]) == set b: nat | b < |bits| && Position(b, |bits|)
  {
    var image := set m | m in bits.Keys :: bits[m];
    var range := set b: nat | b < |bits| && Position(b, |bits|);
    InjectiveImage(bits, bits.Keys);
    assert image <= range;
    RangeSize(|bits|);
    SubsetFills(image, range);
  }

  lemma {:induction false} InjectiveImage(bits: map<string, nat>, models: set<string>)
    requires Numbering(bits) && models <= bits.Keys
    ensures |set m | m in models :: bits[m]| == |models|
  {
    if models == {} {
      assert (set m | m in models :: bits[m]) == {};
    } else {
      var x :| x in models;
      InjectiveImage(bits, models - {x});
      var rest := set m | m in models - {x} :: bits[m];
      assert (set m | m in models :: bits[m]) == rest + {bits[x]} && bits[x] !in rest;
    }
  }

  lemma {:induction false} RangeSize(n: nat)
    ensures |set b: nat | b < n && Position(b, n)| == n
  {
    var s := set b: nat | b < n && Position(b, n);
    if n == 0 {
      assert s == {};
    } else {
      var m := n - 1;
      RangeSize(m);
      assert Position(m, n);
      assert s == (set b: nat | b < m && Position(b, m)) + {m};
    }
  }

  lemma SubsetFills(a: set<nat>, b: set<nat>)
    requires a <= b && |a| == |b|
    ensures a == b
  {
    assert |b - a| == |b| - |a|;
    assert b == a + (b - a);
  }

  /** `Program.supportsAll`. */
  method SupportsAll(p: Program, i: nat, models: seq<string>) returns (r: bool)
    requires Valid(p) && i < |p.sets|
    ensures r <==> Elements(models) <= Support(p.sets[i].root)
  {
    for k := 0 to |models|
      invariant forall j :: 0 <= j < k ==> models[j] in Support(p.sets[i].root)
    {
      if models[k] in p.modelBits {
        EncodesHas(p.modelBits, p.sets[i].support, Support(p.sets[i].root), models[k]);
      }
      if models[k] !in p.modelBits || !Has(p.sets[i].support, p.modelBits[models[k]]) {
        assert models[k] in Elements(models);
        return false;
      }
    }
    return true;
  }

  lemma UnsupportedIsNotAllowed(root: Node, models: set<string>)
    ensures Allows(root, models) ==> models <= Support(root)
  {
    if Allows(root, models) {
      var s :| s in Family(root) && models <= s;
      FamilyWithinSupport(root, s);
    }
  }

  /** The scan shared by `CanContainAll` and `findContaining`: the first set that
      contains every model. Skipping unsupported sets changes nothing. */
  method FindAllowing(p: Program, models: seq<string>) returns (i: nat)
    requires Valid(p)
    ensures i == FirstAllowing(p, Elements(models), 0)
  {
    var evaluator := new Evaluator(models);
    var required := RequiredMask(evaluator);
    i := 0;
    while i < |p.sets|
      invariant i <= |p.sets| && evaluator.Valid()
      invariant FirstAllowing(p, Elements(models), 0) == FirstAllowing(p, Elements(models), i)
    {
      UnsupportedIsNotAllowed(p.sets[i].root, Elements(models));
      var supported := SupportsAll(p, i, models);
      if supported {
        var allowed := Allowing(evaluator, required, p.sets[i].root);
        if allowed {
          return;
        }
      }
      i := i + 1;
    }
  }

  /** `CanContainAll` holds exactly when one denoted set contains every model. */
  method CanContainAll(p: Program, models: seq<string>) returns (r: bool)
    requires Valid(p)
    ensures r <==> models == [] || exists i :: 0 <= i < |p.sets| && Allows(p.sets[i].root, Elements(models))
  {
    if |models| == 0 {
      return true;
    }
    var i := FindAllowing(p, models);
    FirstAllowingFinds(p, Elements(models), 0);
    return i < |p.sets|;
  }

  method CostAndEvictions(q: Query, bits: map<string, nat>, mask: Mask, ghost kept: set<string>)
    returns (cost: int, evict: seq<string>)
    requires Numbering(bits) && Encodes(bits, mask, kept) && Elements(q.running) <= bits.Keys
    ensures cost == CostOf(q.running, kept, q.costs) && evict == LeftOut(q.running, kept)
  {
    cost, evict := 0, [];
    for k := 0 to |q.running|
      invariant cost == CostOf(q.running[..k], kept, q.costs) && evict == LeftOut(q.running[..k], kept)
    {
      var model := q.running[k];
      assert model in Elements(q.running);
      EncodesHas(bits, mask, kept, model);
      assert q.running[..k + 1][..k] == q.running[..k];
      if !Has(mask, bits[model]) {
        cost := cost + EvictionCost(q.costs, model);
        evict := evict + [model];
      }
    }
    assert q.running[..|q.running|] == q.running;
  }

  /** The best-so-far variables of `Solve`. */
  datatype Scan = Scan(cost: int, found: bool, at: nat, state: State)

  ghost predicate Tracks(bits: map<string, nat>, scan: Scan, best: Best)
  {
    && scan.cost == best.cost && scan.found == best.found && scan.at == best.at
    && (scan.found ==> Represents(bits, scan.state, best.choice))
  }

  method ScanStates(q: Query, bits: map<string, nat>, before: Scan, i: nat, states: seq<State>,
                    ghost best: Best, ghost choices: seq<Choice>) returns (scan: Scan)
    requires Numbering(bits) && bits.Keys == q.Relevant()
    requires Tracks(bits, before, best) && RepresentsAll(bits, states, choices)
    ensures Tracks(bits, scan, ConsiderAll(q, best, i, choices))
  {
    scan := before;
    assert choices[..0] == [];
    for j := 0 to |states|
      invariant Tracks(bits, scan, ConsiderAll(q, best, i, choices[..j]))
    {
      assert choices[..j + 1][..j] == choices[..j];
      EncodesHas(bits, states[j].mask, choices[j].kept, q.target);
      if Has(states[j].mask, bits[q.target]) {
        var cost, _ := CostAndEvictions(q, bits, states[j].mask, choices[j].kept);
        if scan.cost < 0 || cost < scan.cost {
          scan := Scan(cost, true, i, states[j]);
        }
      }
    }
    assert choices[..|states|] == choices;
  }

  method ScanSets(p: Program, q: Query, evaluator: Evaluator) returns (scan: Scan)
    requires Valid(p) && evaluator.Valid() && evaluator.modelBits.Keys == q.Relevant()
    modifies evaluator`memo
    ensures Tracks(evaluator.modelBits, scan, ConsiderSets(p, q, |p.sets|))
  {
    scan := Scan(-1, false, 0, State([], NoWitness));
    ghost var best := NOTHING;
    for i := 0 to |p.sets|
      invariant evaluator.Valid() && best == ConsiderSets(p, q, i)
      invariant Tracks(evaluator.modelBits, scan, best)
    {
      var known := SupportsAll(p, i, [q.target]);
      assert Elements([q.target]) == {q.target};
      if known {
        var states := evaluator.States(p.sets[i].root);
        ghost var choices := Evaluate(q.Relevant(), p.sets[i].root);
        scan := ScanStates(q, evaluator.modelBits, scan, i, states, best, choices);
        best := ConsiderAll(q, best, i, choices);
      }
    }
  }

  /** `Program.Solve`. */
  method Solve(p: Program, q: Query) returns (d: Decision)
    requires Valid(p)
    ensures d == Decide(p, q)
  {
    if q.target in q.running {
      var i := FindAllowing(p, q.running);
      if i < |p.sets| {
        return Decision([], q.running, p.sets[i].name, p.sets[i].dsl, 0);
      }
      return Decision([], q.running, "", "", 0);
    }

    var evaluator := new Evaluator([q.target] + q.running);
    assert evaluator.modelBits.Keys == q.Relevant();
    var scan := ScanSets(p, q, evaluator);
    BestSetInRange(p, q, |p.sets|);
    if !scan.found {
      return Decision(q.running, [q.target], "", "", 0);
    }
    ghost var best := ConsiderSets(p, q, |p.sets|);
    var _, evict := CostAndEvictions(q, evaluator.modelBits, scan.state.mask, best.choice.kept);
    var targetSet := FlattenWitness(scan.state.made);
    return Decision(evict, targetSet, p.sets[scan.at].name, p.sets[scan.at].dsl, scan.cost);
  }

  /** `matrixSwapper`: the planner with its one-entry cache. */
  class MatrixSwapper {
    const program: Program
    const costs: map<string, int>
    var lastTarget: string
    var lastRunning: seq<string>
    var lastResult: Decision
    var lastValid: bool

    ghost predicate CacheValid()
      reads this
    {
      && Valid(program)
      && (lastValid ==> lastResult == Decide(program, Query(lastTarget, lastRunning, costs)))
    }

    constructor (program: Program, costs: map<string, int>)
      requires Valid(program)
      ensures CacheValid() && this.program == program && this.costs == costs
    {
      this.program, this.costs := program, costs;
      lastTarget, lastRunning, lastResult, lastValid := "", [], Decision([], [], "", "", 0), false;
    }

    /** The cached decision is always the one the solver would return. */
    method SolveCached(target: string, running: seq<string>) returns (d: Decision)
      requires CacheValid()
      modifies this
      ensures CacheValid() && d == Decide(program, Query(target, running, costs))
      ensures lastValid && lastTarget == target && lastRunning == running && lastResult == d
    {
      if lastValid && lastTarget == target && lastRunning == running {
        return lastResult;
      }
      d := Solve(program, Query(target, running, costs));
      lastTarget, lastRunning, lastResult, lastValid := target, running, d, true;
    }

    method EvictionFor(target: string, running: seq<string>) returns (evict: seq<string>)
      requires CacheValid()
      modifies this
      ensures CacheValid() && evict == Decide(program, Query(target, running, costs)).evict
    {
      var d := SolveCached(target, running);
      evict := d.evict;
    }
  }
}
