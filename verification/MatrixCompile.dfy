/** `Compile`: parse every definition, resolve its names, order the references,
    link them, and number the models. */
module MatrixCompile {
  import opened Names
  import opened BitMask
  import opened Frontier
  import opened MatrixProgram
  import Dsl
  import Solver = MatrixSolver
  import opened Topology

  datatype Option<+T> = None | Some(value: T)

  datatype Definition = Definition(name: string, dsl: string)

  /** Everything `Compile` is given besides the definitions. */
  datatype Env = Env(classes: Dsl.Classes, resolve: string -> Option<string>)

  datatype Problem = UnknownModel(ident: string) | UndefinedSet(reference: string)

  datatype CompileError = NoSets | BadDsl(set_: string, error: Dsl.Error) | BadName(set_: string, problem: Problem) | Circular

  datatype Result = Compiled(program: Program) | Failed(error: CompileError)

  // ----------------------------------------------------------- one expression

  /** The expression with identifiers replaced by the models they resolve to. */
  function Resolved(env: Env, e: Dsl.Expr): Dsl.Expr
    decreases e, 1
  {
    match e
    case Leaf(name) => var m := env.resolve(name); Dsl.Leaf(if m.Some? then m.value else name)
    case Ref(_) => e
    case And(children) => Dsl.And(ResolvedAll(env, children))
    case Or(children) => Dsl.Or(ResolvedAll(env, children))
  }

  function ResolvedAll(env: Env, es: seq<Dsl.Expr>): seq<Dsl.Expr>
    decreases es, 0
  {
    if es == [] then []
    else ResolvedAll(env, es[..|es| - 1]) + [Resolved(env, es[|es| - 1])]
  }

  /** The first name, in reading order, that means nothing. */
  function FirstProblem(env: Env, names: set<string>, e: Dsl.Expr): Option<Problem>
    decreases e, 1
  {
    match e
    case Leaf(name) => if env.resolve(name).None? then Some(UnknownModel(name)) else None
    case Ref(name) => if name !in names then Some(UndefinedSet(name)) else None
    case And(children) => FirstProblemIn(env, names, children)
    case Or(children) => FirstProblemIn(env, names, children)
  }

  function FirstProblemIn(env: Env, names: set<string>, es: seq<Dsl.Expr>): Option<Problem>
    decreases es, 0
  {
    if es == [] then None
    else
      var before := FirstProblemIn(env, names, es[..|es| - 1]);
      if before.Some? then before else FirstProblem(env, names, es[|es| - 1])
  }

  /** The references of an expression, each once, in reading order after those already seen. */
  function AddRefs(seen: seq<string>, e: Dsl.Expr): seq<string>
    decreases e, 1
  {
    match e
    case Leaf(_) => seen
    case Ref(name) => if name in seen then seen else seen + [name]
    case And(children) => AddAllRefs(seen, children)
    case Or(children) => AddAllRefs(seen, children)
  }

  function AddAllRefs(seen: seq<string>, es: seq<Dsl.Expr>): seq<string>
    decreases es, 0
  {
    if es == [] then seen
    else AddRefs(AddAllRefs(seen, es[..|es| - 1]), es[|es| - 1])
  }

  /** `walk`, with the visitor of `Compile`. */
  method Walk(env: Env, names: set<string>, e: Dsl.Expr, seen: seq<string>)
    returns (problem: Option<Problem>, root: Dsl.Expr, refs: seq<string>)
    ensures problem == FirstProblem(env, names, e)
    ensures problem.None? ==> root == Resolved(env, e) && refs == AddRefs(seen, e)
    decreases e, 1
  {
    problem, root, refs := None, e, seen;
    match e {
      case Leaf(name) =>
        var m := env.resolve(name);
        if m.None? {
          problem := Some(UnknownModel(name));
        } else {
          root := Dsl.Leaf(m.value);
        }
      case Ref(name) =>
        if name !in names {
          problem := Some(UndefinedSet(name));
        } else if name !in seen {
          refs := seen + [name];
        }
      case And(children) =>
        var resolved: seq<Dsl.Expr>;
        problem, resolved, refs := WalkAll(env, names, children, seen);
        root := Dsl.And(resolved);
      case Or(children) =>
        var resolved: seq<Dsl.Expr>;
        problem, resolved, refs := WalkAll(env, names, children, seen);
        root := Dsl.Or(resolved);
    }
  }

  method WalkAll(env: Env, names: set<string>, es: seq<Dsl.Expr>, seen: seq<string>)
    returns (problem: Option<Problem>, resolved: seq<Dsl.Expr>, refs: seq<string>)
    ensures problem == FirstProblemIn(env, names, es)
    ensures problem.None? ==> resolved == ResolvedAll(env, es) && refs == AddAllRefs(seen, es)
    decreases es, 0
  {
    problem, resolved, refs := None, [], seen;
    for i := 0 to |es|
      invariant problem == FirstProblemIn(env, names, es[..i])
      invariant problem.None? ==> resolved == ResolvedAll(env, es[..i]) && refs == AddAllRefs(seen, es[..i])
    {
      assert es[..i + 1][..i] == es[..i];
      if problem.None? {
        var root: Dsl.Expr;
        problem, root, refs := Walk(env, names, es[i], refs);
        resolved := resolved + [root];
      }
    }
    assert es[..|es|] == es;
  }

  ghost function RefSet(e: Dsl.Expr): set<string>
    decreases e, 1
  {
    match e
    case Leaf(_) => {}
    case Ref(name) => {name}
    case And(children) => RefSetAll(children)
    case Or(children) => RefSetAll(children)
  }

  ghost function RefSetAll(es: seq<Dsl.Expr>): set<string>
    decreases es, 0
  {
    if es == [] then {} else RefSetAll(es[..|es| - 1]) + RefSet(es[|es| - 1])
  }

  lemma {:induction false} ResolvedRefs(env: Env, names: set<string>, seen: seq<string>, e: Dsl.Expr)
    ensures RefSet(Resolved(env, e)) == RefSet(e)
    ensures Elements(AddRefs(seen, e)) == Elements(seen) + RefSet(e)
    ensures FirstProblem(env, names, e).None? ==> RefSet(e) <= names
    decreases e, 1
  {
    match e
    case Leaf(_) =>
    case Ref(_) =>
    case And(children) => ResolvedRefsAll(env, names, seen, children);
    case Or(children) => ResolvedRefsAll(env, names, seen, children);
  }

  lemma {:induction false} ResolvedRefsAll(env: Env, names: set<string>, seen: seq<string>, es: seq<Dsl.Expr>)
    ensures RefSetAll(ResolvedAll(env, es)) == RefSetAll(es)
    ensures Elements(AddAllRefs(seen, es)) == Elements(seen) + RefSetAll(es)
    ensures FirstProblemIn(env, names, es).None? ==> RefSetAll(es) <= names
    decreases es, 0
  {
    if es != [] {
      var k := |es| - 1;
      ResolvedRefsAll(env, names, seen, es[..k]);
      ResolvedRefs(env, names, AddAllRefs(seen, es[..k]), es[k]);
      var r := ResolvedAll(env, es);
      assert r[..|r| - 1] == ResolvedAll(env, es[..k]);
    }
  }

  /** The linked expression, given the roots of the sets it refers to. */
  function Link(linked: map<string, Node>, e: Dsl.Expr): Node
    decreases e, 1
  {
    match e
    case Leaf(name) => Leaf(name)
    case Ref(name) => if name in linked then Ref(linked[name]) else Leaf(name)
    case And(children) => And(LinkAll(linked, children))
    case Or(children) => Or(LinkAll(linked, children))
  }

  function LinkAll(linked: map<string, Node>, es: seq<Dsl.Expr>): seq<Node>
    decreases es, 0
  {
    if es == [] then [] else LinkAll(linked, es[..|es| - 1]) + [Link(linked, es[|es| - 1])]
  }

  lemma {:induction false} LinkNeedsRefsOnly(m: map<string, Node>, n: map<string, Node>, e: Dsl.Expr)
    requires forall r :: r in RefSet(e) ==> r in m && r in n && m[r] == n[r]
    ensures Link(m, e) == Link(n, e)
    decreases e, 1
  {
    match e
    case Leaf(_) =>
    case Ref(_) =>
    case And(children) => LinkAllNeedsRefsOnly(m, n, children);
    case Or(children) => LinkAllNeedsRefsOnly(m, n, children);
  }

  lemma {:induction false} LinkAllNeedsRefsOnly(m: map<string, Node>, n: map<string, Node>, es: seq<Dsl.Expr>)
    requires forall r :: r in RefSetAll(es) ==> r in m && r in n && m[r] == n[r]
    ensures LinkAll(m, es) == LinkAll(n, es)
    decreases es, 0
  {
    if es != [] {
      LinkAllNeedsRefsOnly(m, n, es[..|es| - 1]);
      LinkNeedsRefsOnly(m, n, es[|es| - 1]);
    }
  }

  // -------------------------------------------------------------- definitions

  ghost function NamesOf(defs: seq<Definition>): set<string> { set d | d in defs :: d.name }

  function DefinitionError(env: Env, names: set<string>, d: Definition): Option<CompileError>
  {
    var parsed := Dsl.Parse(env.classes, d.dsl);
    if parsed.Err? then Some(BadDsl(d.name, parsed.error))
    else
      var problem := FirstProblem(env, names, parsed.value);
      if problem.Some? then Some(BadName(d.name, problem.value)) else None
  }

  function FirstError(env: Env, names: set<string>, defs: seq<Definition>): Option<CompileError>
  {
    if defs == [] then None
    else
      var before := FirstError(env, names, defs[..|defs| - 1]);
      if before.Some? then before else DefinitionError(env, names, defs[|defs| - 1])
  }

  datatype Tables = Tables(roots: map<string, Dsl.Expr>, dsl: map<string, string>, deps: map<string, seq<string>>)

  /** The three maps of `Compile`; a repeated name keeps its last definition. */
  function TablesOf(env: Env, defs: seq<Definition>): Tables
  {
    if defs == [] then Tables(map[], map[], map[])
    else
      var before, d := TablesOf(env, defs[..|defs| - 1]), defs[|defs| - 1];
      var parsed := Dsl.Parse(env.classes, d.dsl);
      var e := if parsed.Ok? then parsed.value else Dsl.Leaf("");
      Tables(before.roots[d.name := Resolved(env, e)], before.dsl[d.name := d.dsl], before.deps[d.name := AddRefs([], e)])
  }

  ghost predicate Agree(names: set<string>, t: Tables)
  {
    && t.roots.Keys == t.dsl.Keys == t.deps.Keys
    && forall n :: n in t.roots ==> Elements(t.deps[n]) == RefSet(t.roots[n]) && RefSet(t.roots[n]) <= names
  }

  lemma {:induction false} TablesAgree(env: Env, names: set<string>, defs: seq<Definition>)
    requires FirstError(env, names, defs).None?
    ensures Agree(names, TablesOf(env, defs))
    ensures TablesOf(env, defs).roots.Keys == NamesOf(defs)
  {
    if defs != [] {
      var k := |defs| - 1;
      TablesAgree(env, names, defs[..k]);
      ResolvedRefs(env, names, [], Dsl.Parse(env.classes, defs[k].dsl).value);
      NamesOfLast(defs);
    }
  }

  lemma NamesOfLast(defs: seq<Definition>)
    requires defs != []
    ensures NamesOf(defs) == NamesOf(defs[..|defs| - 1]) + {defs[|defs| - 1].name}
  {
    assert defs == defs[..|defs| - 1] + [defs[|defs| - 1]];
  }

  /** Set name to root. */
  ghost function RootMap(sets: seq<CompiledSet>): map<string, Node>
  {
    if sets == [] then map[]
    else RootMap(sets[..|sets| - 1])[sets[|sets| - 1].name := sets[|sets| - 1].root]
  }

  function SetNames(sets: seq<CompiledSet>): seq<string>
  {
    seq(|sets|, i requires 0 <= i < |sets| => sets[i].name)
  }

  ghost predicate LinkedSet(t: Tables, roots: map<string, Node>, s: CompiledSet)
  {
    && s.name in t.roots && s.name in t.dsl
    && s.dsl == t.dsl[s.name] && s.root == Link(roots, t.roots[s.name])
  }

  /** What a compiled program must be: one set per name, references first, each
      root linked to the roots of the sets it names. */
  ghost predicate CompilesTo(t: Tables, p: Program)
  {
    var names := SetNames(p.sets);
    && Valid(p)
    && Distinct(names) && Elements(names) == t.roots.Keys && DepsFirst(t.deps, names)
    && forall i :: 0 <= i < |p.sets| ==> LinkedSet(t, RootMap(p.sets), p.sets[i])
  }

  // --------------------------------------------------------------- computeSupport

  ghost predicate MemoValid(memo: map<Node, set<string>>)
  {
    forall n :: n in memo ==> memo[n] == Support(n)
  }

  /** `collect`, memoised per node. */
  method Collect(n: Node, memo: map<Node, set<string>>) returns (models: set<string>, memo': map<Node, set<string>>)
    requires MemoValid(memo)
    ensures MemoValid(memo') && models == Support(n)
    decreases n, 1
  {
    if n in memo {
      return memo[n], memo;
    }
    match n {
      case Leaf(model) => models, memo' := {model}, memo;
      case Ref(target) => models, memo' := Collect(target, memo);
      case And(children) => models, memo' := CollectAll(children, memo);
      case Or(children) => models, memo' := CollectAll(children, memo);
    }
    memo' := memo'[n := models];
  }

  method CollectAll(children: seq<Node>, memo: map<Node, set<string>>) returns (models: set<string>, memo': map<Node, set<string>>)
    requires MemoValid(memo)
    ensures MemoValid(memo') && models == SupportAll(children)
    decreases children, 0
  {
    models, memo' := {}, memo;
    for i := 0 to |children|
      invariant MemoValid(memo') && models == SupportAll(children[..i])
    {
      assert children[..i + 1][..i] == children[..i];
      var more: set<string>;
      more, memo' := Collect(children[i], memo');
      models := models + more;
    }
    assert children[..|children|] == children;
  }

  /** Gives each model not yet numbered the next bit, in any order. */
  method NumberAll(bits: map<string, nat>, models: set<string>) returns (r: map<string, nat>)
    requires Numbering(bits)
    ensures Numbering(r) && r.Keys == bits.Keys + models
  {
    r := bits;
    var todo := models;
    while todo != {}
      invariant Numbering(r) && todo <= models
      invariant r.Keys + todo == bits.Keys + models
      decreases todo
    {
      var model :| model in todo;
      r := NumberOne(r, model);
      todo := todo - {model};
    }
  }

  method NumberOne(bits: map<string, nat>, model: string) returns (r: map<string, nat>)
    requires Numbering(bits)
    ensures Numbering(r) && r.Keys == bits.Keys + {model}
  {
    r := bits;
    if model !in bits {
      Solver.NumberingGrows(bits, model);
      r := bits[model := |bits|];
    }
  }

  method SupportMask(bits: map<string, nat>, models: set<string>) returns (mask: Mask)
    requires Numbering(bits) && models <= bits.Keys
    ensures Encodes(bits, mask, models)
  {
    mask := Solver.EmptyMask(bits);
    var todo := models;
    while todo != {}
      invariant todo <= models && Encodes(bits, mask, models - todo)
      decreases todo
    {
      var model :| model in todo;
      Solver.SetBitEncodes(bits, mask, models - todo, model);
      mask := SetBit(mask, bits[model]);
      assert models - todo + {model} == models - (todo - {model});
      todo := todo - {model};
    }
  }

  predicate SameSet(a: CompiledSet, b: CompiledSet)
  {
    a.name == b.name && a.dsl == b.dsl && a.root == b.root
  }

  method ComputeSupport(sets: seq<CompiledSet>) returns (p: Program)
    ensures Valid(p) && |p.sets| == |sets|
    ensures forall i :: 0 <= i < |sets| ==> SameSet(p.sets[i], sets[i])
  {
    var setModels, bits := CollectSupports(sets);
    var out: seq<CompiledSet> := [];
    for i := 0 to |sets|
      invariant |out| == i
      invariant forall j :: 0 <= j < i ==> SameSet(out[j], sets[j]) && Encodes(bits, out[j].support, Support(out[j].root))
    {
      var mask := SupportMask(bits, setModels[i]);
      out := out + [sets[i].(support := mask)];
    }
    p := Program(out, bits, WordsFor(|bits|));
  }

  ghost predicate Supports(sets: seq<CompiledSet>, setModels: seq<set<string>>, bits: map<string, nat>)
  {
    && Numbering(bits) && |setModels| <= |sets|
    && forall j :: 0 <= j < |setModels| ==> setModels[j] == Support(sets[j].root) && setModels[j] <= bits.Keys
  }

  method CollectSupports(sets: seq<CompiledSet>) returns (setModels: seq<set<string>>, bits: map<string, nat>)
    ensures |setModels| == |sets| && Supports(sets, setModels, bits)
  {
    var memo: map<Node, set<string>> := map[];
    bits, setModels := map[], [];
    for i := 0 to |sets|
      invariant MemoValid(memo) && |setModels| == i && Supports(sets, setModels, bits)
    {
      var models, memo' := Collect(sets[i].root, memo);
      var grown := NumberAll(bits, models);
      MoreSupports(sets, setModels, bits, models, grown);
      memo, setModels, bits := memo', setModels + [models], grown;
    }
  }

  lemma MoreSupports(sets: seq<CompiledSet>, setModels: seq<set<string>>,
      bits: map<string, nat>, models: set<string>, grown: map<string, nat>)
    requires Supports(sets, setModels, bits) && |setModels| < |sets|
    requires models == Support(sets[|setModels|].root) && Numbering(grown) && grown.Keys == bits.Keys + models
    ensures Supports(sets, setModels + [models], grown)
  {}

  // ---------------------------------------------------------------------- Compile

  method ReadDefinitions(env: Env, names: set<string>, defs: seq<Definition>)
    returns (error: Option<CompileError>, t: Tables)
    ensures error == FirstError(env, names, defs)
    ensures error.None? ==> t == TablesOf(env, defs)
  {
    error, t := None, Tables(map[], map[], map[]);
    for i := 0 to |defs|
      invariant FirstError(env, names, defs[..i]).None? && t == TablesOf(env, defs[..i])
    {
      assert defs[..i + 1][..i] == defs[..i];
      var parsed := Dsl.ParseDSL(env.classes, defs[i].dsl);
      if parsed.Err? {
        ErrorStays(env, names, defs, i + 1);
        return Some(BadDsl(defs[i].name, parsed.error)), t;
      }
      var problem, root, refs := Walk(env, names, parsed.value, []);
      if problem.Some? {
        ErrorStays(env, names, defs, i + 1);
        return Some(BadName(defs[i].name, problem.value)), t;
      }
      t := Tables(t.roots[defs[i].name := root], t.dsl[defs[i].name := defs[i].dsl], t.deps[defs[i].name := refs]);
    }
    assert defs[..|defs|] == defs;
  }

  lemma {:induction false} ErrorStays(env: Env, names: set<string>, defs: seq<Definition>, n: nat)
    requires n <= |defs| && FirstError(env, names, defs[..n]).Some?
    ensures FirstError(env, names, defs) == FirstError(env, names, defs[..n])
  {
    if n == |defs| {
      assert defs[..n] == defs;
    } else {
      var k := |defs| - 1;
      assert defs[..k][..n] == defs[..n];
      ErrorStays(env, names, defs[..k], n);
    }
  }

  /** Links the roots in topological order, so that a reference's target is there. */
  method LinkSets(t: Tables, order: seq<string>, ghost names: set<string>) returns (sets: seq<CompiledSet>)
    requires Distinct(order) && Elements(order) == t.roots.Keys && DepsFirst(t.deps, order) && Agree(names, t)
    ensures SetNames(sets) == order
    ensures forall i :: 0 <= i < |sets| ==> LinkedSet(t, RootMap(sets), sets[i])
  {
    var linked: map<string, Node> := map[];
    sets := [];
    for i := 0 to |order|
      invariant LinkedPrefix(t, order, i, sets) && linked == RootMap(sets)
    {
      ReferencesAreLinked(t, order, names, i);
      var added := CompiledSet(order[i], t.dsl[order[i]], Link(linked, t.roots[order[i]]), []);
      NextLinked(t, order, i, sets, added);
      sets, linked := sets + [added], linked[order[i] := added.root];
    }
    assert order[..|order|] == order;
  }

  ghost predicate LinkedPrefix(t: Tables, order: seq<string>, i: nat, sets: seq<CompiledSet>)
  {
    && i <= |order| && SetNames(sets) == order[..i]
    && RootMap(sets).Keys == Elements(order[..i]) && AllLinked(t, RootMap(sets), sets)
  }

  lemma NextLinked(t: Tables, order: seq<string>, i: nat, sets: seq<CompiledSet>, added: CompiledSet)
    requires i < |order| && LinkedPrefix(t, order, i, sets)
    requires added.name == order[i] && order[i] !in Elements(order[..i])
    requires LinkedSet(t, RootMap(sets), added) && RefSet(t.roots[added.name]) <= Elements(order[..i])
    ensures LinkedPrefix(t, order, i + 1, sets + [added])
    ensures RootMap(sets + [added]) == RootMap(sets)[added.name := added.root]
  {
    LinkOne(t, sets, added);
    assert order[..i + 1] == order[..i] + [order[i]];
    assert Elements(order[..i + 1]) == Elements(order[..i]) + {order[i]};
  }

  ghost predicate AllLinked(t: Tables, roots: map<string, Node>, sets: seq<CompiledSet>)
  {
    forall i :: 0 <= i < |sets| ==> LinkedSet(t, roots, sets[i]) && RefSet(t.roots[sets[i].name]) <= roots.Keys
  }

  lemma LinkOne(t: Tables, sets: seq<CompiledSet>, added: CompiledSet)
    requires AllLinked(t, RootMap(sets), sets) && added.name !in RootMap(sets)
    requires LinkedSet(t, RootMap(sets), added) && RefSet(t.roots[added.name]) <= RootMap(sets).Keys
    ensures RootMap(sets + [added]) == RootMap(sets)[added.name := added.root]
    ensures SetNames(sets + [added]) == SetNames(sets) + [added.name]
    ensures AllLinked(t, RootMap(sets)[added.name := added.root], sets + [added])
  {
    var linked := RootMap(sets);
    var grown := linked[added.name := added.root];
    assert (sets + [added])[..|sets|] == sets;
    forall i | 0 <= i <= |sets|
      ensures var s := (sets + [added])[i]; LinkedSet(t, grown, s) && RefSet(t.roots[s.name]) <= grown.Keys
    {
      var s := (sets + [added])[i];
      LinkNeedsRefsOnly(linked, grown, t.roots[s.name]);
    }
  }

  lemma ReferencesAreLinked(t: Tables, order: seq<string>, names: set<string>, i: nat)
    requires i < |order| && Distinct(order) && Elements(order) == t.roots.Keys
    requires DepsFirst(t.deps, order) && Agree(names, t)
    ensures order[i] in t.roots && order[i] !in Elements(order[..i])
    ensures RefSet(t.roots[order[i]]) <= Elements(order[..i])
  {
    assert order[i] in Elements(order);
    forall r | r in RefSet(t.roots[order[i]])
      ensures r in order[..i]
    {
      assert r in Elements(t.deps[order[i]]) && Edge(t.deps, order[i], r);
    }
  }

  lemma {:induction false} SameRoots(xs: seq<CompiledSet>, ys: seq<CompiledSet>)
    requires |xs| == |ys| && forall i :: 0 <= i < |xs| ==> SameSet(xs[i], ys[i])
    ensures RootMap(xs) == RootMap(ys) && SetNames(xs) == SetNames(ys)
  {
    if xs != [] {
      SameRoots(xs[..|xs| - 1], ys[..|ys| - 1]);
    }
  }

  method NameSet(defs: seq<Definition>) returns (names: seq<string>)
    ensures Elements(names) == NamesOf(defs)
  {
    names := [];
    for i := 0 to |defs|
      invariant Elements(names) == NamesOf(defs[..i])
    {
      NamesOfLast(defs[..i + 1]);
      assert defs[..i + 1][..i] == defs[..i];
      names := names + [defs[i].name];
    }
    assert defs[..|defs|] == defs;
  }

  lemma AgreeIsClosed(names: set<string>, t: Tables)
    requires Agree(names, t) && names <= t.deps.Keys
    ensures Closed(t.deps)
  {
    forall a, b | Edge(t.deps, a, b)
      ensures b in t.deps
    {
      assert b in Elements(t.deps[a]);
    }
  }

  /** Compiling fails exactly on an empty list, on the first definition that does
      not parse or names something unknown, or on circular references. */
  method Compile(env: Env, defs: seq<Definition>) returns (r: Result)
    ensures
      var error := FirstError(env, NamesOf(defs), defs);
      if defs == [] then r == Failed(NoSets)
      else if error.Some? then r == Failed(error.value)
      else if Cyclic(TablesOf(env, defs).deps) then r == Failed(Circular)
      else r.Compiled? && CompilesTo(TablesOf(env, defs), r.program)
  {
    if |defs| == 0 {
      return Failed(NoSets);
    }
    var names := NameSet(defs);
    var error, t := ReadDefinitions(env, Elements(names), defs);
    if error.Some? {
      return Failed(error.value);
    }
    TablesAgree(env, Elements(names), defs);
    AgreeIsClosed(Elements(names), t);
    var ok, order := TopologicalOrder(names, t.deps);
    if !ok {
      return Failed(Circular);
    }
    var sets := LinkSets(t, order, Elements(names));
    var p := ComputeSupport(sets);
    SameRoots(p.sets, sets);
    return Compiled(p);
  }
}
