/** What a compiled program means: the family of every linked set is the one that the
    text of its definition describes. */
module MatrixMeaning {
  import opened Names
  import opened Frontier
  import opened MatrixProgram
  import opened MatrixCompile
  import Dsl

  type Families = map<string, set<set<string>>>

  ghost function Union(parts: seq<set<string>>): set<string>
  {
    set i, m | 0 <= i < |parts| && m in parts[i] :: m
  }

  /** One set of models that an expression describes: a name stands for its model, a
      reference for a set of the family it is given, AND unites one set of each part,
      OR takes a set of one of them. */
  ghost predicate Describes(env: Env, sets: Families, e: Dsl.Expr, s: set<string>)
    decreases e, 1
  {
    match e
    case Leaf(name) => env.resolve(name).Some? && s == {env.resolve(name).value}
    case Ref(name) => name in sets && s in sets[name]
    case And(children) => exists parts :: DescribeAll(env, sets, children, parts) && s == Union(parts)
    case Or(children) => exists i :: 0 <= i < |children| && Describes(env, sets, children[i], s)
  }

  ghost predicate DescribeAll(env: Env, sets: Families, es: seq<Dsl.Expr>, parts: seq<set<string>>)
    decreases es, 0
  {
    |parts| == |es| && forall i :: 0 <= i < |es| ==> Describes(env, sets, es[i], parts[i])
  }

  ghost function FamiliesOf(linked: map<string, Node>): Families
  {
    map n | n in linked :: Family(linked[n])
  }

  // ------------------------------------------------------------- lists of children

  ghost predicate PartsOf(nodes: seq<Node>, parts: seq<set<string>>)
  {
    |parts| == |nodes| && forall i :: 0 <= i < |nodes| ==> parts[i] in Family(nodes[i])
  }

  lemma UnionNext(parts: seq<set<string>>, last: set<string>)
    ensures Union(parts + [last]) == Union(parts) + last
  {
    var all := parts + [last];
    forall m
      ensures m in Union(all) <==> m in Union(parts) || m in last
    {
      if m in Union(parts) {
        var i :| 0 <= i < |parts| && m in parts[i];
        assert all[i] == parts[i];
      }
      if m in last {
        assert all[|parts|] == last;
      }
    }
  }

  lemma {:induction false} UnionsAre(nodes: seq<Node>, s: set<string>)
    ensures s in Unions(nodes) <==> exists parts :: PartsOf(nodes, parts) && s == Union(parts)
  {
    if nodes == [] {
      assert Union([]) == {};
      assert PartsOf(nodes, []);
    } else {
      var k := |nodes| - 1;
      if s in Unions(nodes) {
        var a, b :| a in Unions(nodes[..k]) && b in Family(nodes[k]) && s == a + b;
        UnionsAre(nodes[..k], a);
        var parts :| PartsOf(nodes[..k], parts) && a == Union(parts);
        UnionNext(parts, b);
        assert PartsOf(nodes, parts + [b]);
      }
      if parts :| PartsOf(nodes, parts) && s == Union(parts) {
        UnionsAre(nodes[..k], Union(parts[..k]));
        assert PartsOf(nodes[..k], parts[..k]);
        assert parts == parts[..k] + [parts[k]];
        UnionNext(parts[..k], parts[k]);
      }
    }
  }

  lemma {:induction false} AlternativesAre(nodes: seq<Node>, s: set<string>)
    ensures s in Alternatives(nodes) <==> exists i :: 0 <= i < |nodes| && s in Family(nodes[i])
  {
    if nodes != [] {
      var k := |nodes| - 1;
      AlternativesAre(nodes[..k], s);
    }
  }

  lemma {:induction false} ChildrenLinked(env: Env, linked: map<string, Node>, es: seq<Dsl.Expr>)
    ensures
      var nodes := LinkAll(linked, ResolvedAll(env, es));
      |nodes| == |es| && forall i :: 0 <= i < |es| ==> nodes[i] == Link(linked, Resolved(env, es[i]))
  {
    if es != [] {
      var k := |es| - 1;
      ChildrenLinked(env, linked, es[..k]);
      var r := ResolvedAll(env, es);
      assert r[..|r| - 1] == ResolvedAll(env, es[..k]);
    }
  }

  lemma {:induction false} ChildrenSound(env: Env, names: set<string>, es: seq<Dsl.Expr>)
    requires FirstProblemIn(env, names, es).None?
    ensures forall i :: 0 <= i < |es| ==> FirstProblem(env, names, es[i]).None?
  {
    if es != [] {
      ChildrenSound(env, names, es[..|es| - 1]);
    }
  }

  // ---------------------------------------------------------------- one expression

  /** Resolving and linking an expression without problems keeps its meaning. */
  lemma {:induction false} LinkedMeans(env: Env, names: set<string>, linked: map<string, Node>, e: Dsl.Expr)
    requires FirstProblem(env, names, e).None? && names <= linked.Keys
    ensures forall s :: s in Family(Link(linked, Resolved(env, e))) <==> Describes(env, FamiliesOf(linked), e, s)
    decreases e, 2
  {
    match e {
      case Leaf(_) =>
      case Ref(_) =>
      case And(children) => LinkedAndMeans(env, names, linked, children);
      case Or(children) => LinkedOrMeans(env, names, linked, children);
    }
  }

  lemma {:induction false} LinkedChildrenMean(env: Env, names: set<string>, linked: map<string, Node>, es: seq<Dsl.Expr>)
    requires FirstProblemIn(env, names, es).None? && names <= linked.Keys
    ensures
      var nodes := LinkAll(linked, ResolvedAll(env, es));
      && |nodes| == |es|
      && forall i, s :: 0 <= i < |es| ==> (s in Family(nodes[i]) <==> Describes(env, FamiliesOf(linked), es[i], s))
    decreases es, 0
  {
    ChildrenLinked(env, linked, es);
    ChildrenSound(env, names, es);
    forall i | 0 <= i < |es|
      ensures forall s :: s in Family(Link(linked, Resolved(env, es[i]))) <==> Describes(env, FamiliesOf(linked), es[i], s)
    {
      LinkedMeans(env, names, linked, es[i]);
    }
  }

  lemma {:induction false} LinkedAndMeans(env: Env, names: set<string>, linked: map<string, Node>, es: seq<Dsl.Expr>)
    requires FirstProblemIn(env, names, es).None? && names <= linked.Keys
    ensures forall s ::
      s in Unions(LinkAll(linked, ResolvedAll(env, es))) <==> Describes(env, FamiliesOf(linked), Dsl.And(es), s)
    decreases es, 1
  {
    var nodes, sets := LinkAll(linked, ResolvedAll(env, es)), FamiliesOf(linked);
    LinkedChildrenMean(env, names, linked, es);
    forall parts
      ensures PartsOf(nodes, parts) <==> DescribeAll(env, sets, es, parts)
    {
    }
    forall s
      ensures s in Unions(nodes) <==> Describes(env, sets, Dsl.And(es), s)
    {
      UnionsAre(nodes, s);
      if parts :| PartsOf(nodes, parts) && s == Union(parts) {
        assert DescribeAll(env, sets, es, parts);
      }
      if parts :| DescribeAll(env, sets, es, parts) && s == Union(parts) {
        assert PartsOf(nodes, parts);
      }
    }
  }

  lemma {:induction false} LinkedOrMeans(env: Env, names: set<string>, linked: map<string, Node>, es: seq<Dsl.Expr>)
    requires FirstProblemIn(env, names, es).None? && names <= linked.Keys
    ensures forall s ::
      s in Alternatives(LinkAll(linked, ResolvedAll(env, es))) <==> Describes(env, FamiliesOf(linked), Dsl.Or(es), s)
    decreases es, 1
  {
    var nodes := LinkAll(linked, ResolvedAll(env, es));
    LinkedChildrenMean(env, names, linked, es);
    forall s
      ensures s in Alternatives(nodes) <==> Describes(env, FamiliesOf(linked), Dsl.Or(es), s)
    {
      AlternativesAre(nodes, s);
    }
  }

  // ------------------------------------------------------------------ whole programs

  /** The definition of a name; the last one counts. */
  ghost predicate Defines(defs: seq<Definition>, k: nat, name: string)
  {
    k < |defs| && defs[k].name == name && forall j :: k < j < |defs| ==> defs[j].name != name
  }

  lemma {:induction false} TableEntry(env: Env, defs: seq<Definition>, k: nat, name: string)
    requires Defines(defs, k, name) && FirstError(env, NamesOf(defs), defs).None?
    ensures
      var t, parsed := TablesOf(env, defs), Dsl.Parse(env.classes, defs[k].dsl);
      && parsed.Ok? && FirstProblem(env, NamesOf(defs), parsed.value).None?
      && name in t.roots && t.roots[name] == Resolved(env, parsed.value)
      && name in t.dsl && t.dsl[name] == defs[k].dsl
  {
    TableEntryIn(env, NamesOf(defs), defs, k, name);
  }

  lemma {:induction false} TableEntryIn(env: Env, names: set<string>, defs: seq<Definition>, k: nat, name: string)
    requires Defines(defs, k, name) && FirstError(env, names, defs).None?
    ensures
      var t, parsed := TablesOf(env, defs), Dsl.Parse(env.classes, defs[k].dsl);
      && parsed.Ok? && FirstProblem(env, names, parsed.value).None?
      && name in t.roots && t.roots[name] == Resolved(env, parsed.value)
      && name in t.dsl && t.dsl[name] == defs[k].dsl
    decreases |defs|
  {
    var n := |defs| - 1;
    if k < n {
      TableEntryIn(env, names, defs[..n], k, name);
      assert defs[n].name != name;
    }
  }

  /** In a compiled program every set denotes exactly the model sets that the text of its
      definition, the last one under its name, describes: names stand for the models they
      resolve to, references for what the sets they name denote. */
  lemma CompiledMeans(env: Env, defs: seq<Definition>, p: Program, i: nat)
    requires FirstError(env, NamesOf(defs), defs).None? && CompilesTo(TablesOf(env, defs), p) && i < |p.sets|
    ensures exists k: nat ::
      && Defines(defs, k, p.sets[i].name) && p.sets[i].dsl == defs[k].dsl
      && Dsl.Parse(env.classes, defs[k].dsl).Ok?
      && forall s :: s in Family(p.sets[i].root) <==>
           Describes(env, FamiliesOf(RootMap(p.sets)), Dsl.Parse(env.classes, defs[k].dsl).value, s)
  {
    var t, name := TablesOf(env, defs), p.sets[i].name;
    assert LinkedSet(t, RootMap(p.sets), p.sets[i]);
    TablesAgree(env, NamesOf(defs), defs);
    var k := LastOf(defs, name);
    TableEntry(env, defs, k, name);
    NamesAreRoots(p.sets);
    assert RootMap(p.sets).Keys == Elements(SetNames(p.sets)) == t.roots.Keys;
    LinkedMeans(env, NamesOf(defs), RootMap(p.sets), Dsl.Parse(env.classes, defs[k].dsl).value);
  }

  lemma {:induction false} LastOf(defs: seq<Definition>, name: string) returns (k: nat)
    requires name in NamesOf(defs)
    ensures Defines(defs, k, name)
  {
    var n := |defs| - 1;
    NamesOfLast(defs);
    if defs[n].name == name {
      k := n;
    } else {
      k := LastOf(defs[..n], name);
    }
  }

  lemma {:induction false} NamesAreRoots(sets: seq<CompiledSet>)
    ensures RootMap(sets).Keys == Elements(SetNames(sets))
  {
    if sets != [] {
      var k := |sets| - 1;
      NamesAreRoots(sets[..k]);
      assert SetNames(sets) == SetNames(sets[..k]) + [sets[k].name];
    }
  }

  // ------------------------------------------------------------------ what is refused

  /** Why a definition is refused: its text does not parse, or it names something unknown. */
  ghost predicate Refused(env: Env, names: set<string>, d: Definition, error: CompileError)
  {
    match Dsl.Parse(env.classes, d.dsl)
    case Err(e) => error == BadDsl(d.name, e)
    case Ok(e) => !AllKnown(env, names, e) && error.BadName? && error.set_ == d.name
  }

  ghost predicate Accepted(env: Env, names: set<string>, d: Definition)
  {
    Dsl.Parse(env.classes, d.dsl).Ok? && AllKnown(env, names, Dsl.Parse(env.classes, d.dsl).value)
  }

  lemma DefinitionErrorIs(env: Env, names: set<string>, d: Definition)
    ensures
      match DefinitionError(env, names, d)
      case None => Accepted(env, names, d)
      case Some(error) => Refused(env, names, d, error)
  {
    var parsed := Dsl.Parse(env.classes, d.dsl);
    if parsed.Ok? {
      ProblemsAreReal(env, names, parsed.value);
    }
  }

  /** What is reported is the first definition that is refused, and why; nothing is iff all
      are accepted. */
  lemma {:induction false} FirstErrorIsFirst(env: Env, names: set<string>, defs: seq<Definition>)
    ensures
      match FirstError(env, names, defs)
      case None => forall k :: 0 <= k < |defs| ==> Accepted(env, names, defs[k])
      case Some(error) =>
        exists k ::
          && 0 <= k < |defs| && Refused(env, names, defs[k], error)
          && forall j :: 0 <= j < k ==> Accepted(env, names, defs[j])
  {
    if defs != [] {
      var n := |defs| - 1;
      FirstErrorIsFirst(env, names, defs[..n]);
      DefinitionErrorIs(env, names, defs[n]);
      assert forall k :: 0 <= k < n ==> defs[..n][k] == defs[k];
      if FirstError(env, names, defs[..n]).Some? {
        var error := FirstError(env, names, defs[..n]).value;
        var k :| 0 <= k < n && Refused(env, names, defs[..n][k], error) && forall j :: 0 <= j < k ==> Accepted(env, names, defs[..n][j]);
        assert Refused(env, names, defs[k], error);
      }
    }
  }

  /** Every name of the expression means a model, and every reference a defined set. */
  ghost predicate AllKnown(env: Env, names: set<string>, e: Dsl.Expr)
  {
    match e
    case Leaf(name) => env.resolve(name).Some?
    case Ref(name) => name in names
    case And(children) => forall i :: 0 <= i < |children| ==> AllKnown(env, names, children[i])
    case Or(children) => forall i :: 0 <= i < |children| ==> AllKnown(env, names, children[i])
  }

  /** An expression is refused exactly when something in it is unknown, and what is
      reported is. */
  lemma {:induction false} ProblemsAreReal(env: Env, names: set<string>, e: Dsl.Expr)
    ensures FirstProblem(env, names, e).None? <==> AllKnown(env, names, e)
    ensures
      match FirstProblem(env, names, e)
      case None => true
      case Some(UnknownModel(name)) => env.resolve(name).None?
      case Some(UndefinedSet(name)) => name !in names
    decreases e, 1
  {
    match e {
      case Leaf(_) =>
      case Ref(_) =>
      case And(children) => ProblemsInAreReal(env, names, children);
      case Or(children) => ProblemsInAreReal(env, names, children);
    }
  }

  lemma {:induction false} ProblemsInAreReal(env: Env, names: set<string>, es: seq<Dsl.Expr>)
    ensures FirstProblemIn(env, names, es).None? <==> forall i :: 0 <= i < |es| ==> AllKnown(env, names, es[i])
    ensures
      match FirstProblemIn(env, names, es)
      case None => true
      case Some(UnknownModel(name)) => env.resolve(name).None?
      case Some(UndefinedSet(name)) => name !in names
    decreases es, 0
  {
    if es != [] {
      var k := |es| - 1;
      ProblemsInAreReal(env, names, es[..k]);
      ProblemsAreReal(env, names, es[k]);
      assert forall i :: 0 <= i < k ==> es[..k][i] == es[i];
    }
  }
}
