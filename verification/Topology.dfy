/** Depth-first topological ordering of set references, with cycle detection. */
module Topology {
  import opened Names

  ghost predicate Edge(deps: map<string, seq<string>>, a: string, b: string)
  {
    a in deps && b in deps[a]
  }

  ghost predicate Path(deps: map<string, seq<string>>, p: seq<string>)
  {
    forall i :: 0 <= i < |p| - 1 ==> Edge(deps, p[i], p[i + 1])
  }

  ghost predicate Cyclic(deps: map<string, seq<string>>)
  {
    exists p :: |p| >= 2 && Path(deps, p) && p[0] == p[|p| - 1]
  }

  ghost predicate Closed(deps: map<string, seq<string>>)
  {
    forall a, b :: Edge(deps, a, b) ==> b in deps
  }

  predicate Distinct(xs: seq<string>)
  {
    forall i, j :: 0 <= i < j < |xs| ==> xs[i] != xs[j]
  }

  /** Every name comes after everything it refers to. */
  ghost predicate DepsFirst(deps: map<string, seq<string>>, order: seq<string>)
  {
    forall i, b :: 0 <= i < |order| && Edge(deps, order[i], b) ==> b in order[..i]
  }

  lemma {:induction false} OrderGoesDown(deps: map<string, seq<string>>, order: seq<string>, p: seq<string>, i: nat, j: nat)
    requires DepsFirst(deps, order) && Path(deps, p) && |p| >= 2
    requires i < |order| && order[i] == p[0] && j < |order| && order[j] == p[|p| - 1] && Distinct(order)
    ensures j < i
  {
    assert Edge(deps, p[0], p[1]);
    assert p[1] in order[..i];
    var k :| 0 <= k < i && order[k] == p[1];
    if |p| == 2 {
      assert k == j;
    } else {
      forall n | 0 <= n < |p[1..]| - 1
        ensures Edge(deps, p[1..][n], p[1..][n + 1])
      {
        var m := n + 1;
        assert Edge(deps, p[m], p[m + 1]);
      }
      OrderGoesDown(deps, order, p[1..], k, j);
    }
  }

  /** An order with dependencies first rules out cycles. */
  lemma OrderedIsAcyclic(deps: map<string, seq<string>>, order: seq<string>)
    requires DepsFirst(deps, order) && Distinct(order) && Elements(order) == deps.Keys
    ensures !Cyclic(deps)
  {
    if Cyclic(deps) {
      var p :| |p| >= 2 && Path(deps, p) && p[0] == p[|p| - 1];
      assert Edge(deps, p[0], p[1]);
      assert p[0] in Elements(order);
      var i :| 0 <= i < |order| && order[i] == p[0];
      OrderGoesDown(deps, order, p, i, i);
    }
  }

  class Sorter {
    const deps: map<string, seq<string>>
    var state: map<string, int>
    var order: seq<string>
    /** The names being visited, outermost first. */
    ghost var stack: seq<string>

    ghost predicate Valid()
      reads this
    {
      && Closed(deps)
      && state.Keys <= deps.Keys
      && (forall n :: n in state ==> state[n] == 1 || state[n] == 2)
      && (forall n :: n in stack <==> n in state && state[n] == 1)
      && (forall n :: n in order <==> n in state && state[n] == 2)
      && Distinct(order) && DepsFirst(deps, order) && Path(deps, stack)
    }

    constructor (deps: map<string, seq<string>>)
      requires Closed(deps)
      ensures Valid() && this.deps == deps && stack == [] && state == map[]
    {
      this.deps := deps;
      state, order, stack := map[], [], [];
    }

    /** `visit`: fails only by closing a cycle; otherwise the name is ordered and
        nothing else is left half visited. */
    method Visit(name: string) returns (ok: bool)
      requires Valid() && name in deps
      requires stack != [] ==> Edge(deps, stack[|stack| - 1], name)
      modifies this
      ensures !ok ==> Cyclic(deps)
      ensures ok ==> Valid() && stack == old(stack) && old(order) <= order && name in order
      ensures ok ==> old(state.Keys) <= state.Keys
      decreases deps.Keys - state.Keys, 0
    {
      if name in state && state[name] == 1 {
        CycleFound(name);
        return false;
      }
      if name in state {
        return true;
      }
      ghost var outer := stack;
      Enter(name);
      ok := VisitDependencies(name);
      if !ok {
        return;
      }
      Leave(name, outer);
      return true;
    }

    /** The visits of the names that the innermost open one refers to. */
    method VisitDependencies(name: string) returns (ok: bool)
      requires Valid() && name in deps && stack != [] && stack[|stack| - 1] == name
      modifies this
      ensures !ok ==> Cyclic(deps)
      ensures ok ==> Valid() && stack == old(stack) && old(order) <= order && old(state.Keys) <= state.Keys
      ensures ok ==> forall j :: 0 <= j < |deps[name]| ==> deps[name][j] in order
      decreases deps.Keys - state.Keys, 1
    {
      var dependencies := deps[name];
      for k := 0 to |dependencies|
        invariant Valid() && stack == old(stack) && old(order) <= order && old(state.Keys) <= state.Keys
        invariant forall j :: 0 <= j < k ==> dependencies[j] in order
      {
        assert Edge(deps, name, dependencies[k]);
        ghost var before := order;
        ok := Visit(dependencies[k]);
        if !ok {
          return;
        }
        assert forall x :: x in before ==> x in order;
      }
      return true;
    }

    method Enter(name: string)
      requires Valid() && name in deps && name !in state
      requires stack != [] ==> Edge(deps, stack[|stack| - 1], name)
      modifies this
      ensures Valid() && stack == old(stack) + [name] && order == old(order)
      ensures state == old(state)[name := 1] && name !in old(stack)
    {
      assert name !in stack && name !in order;
      state := state[name := 1];
      stack := stack + [name];
    }

    method Leave(name: string, ghost outer: seq<string>)
      requires Valid() && stack == outer + [name] && name in deps && name !in outer
      requires forall j :: 0 <= j < |deps[name]| ==> deps[name][j] in order
      modifies this
      ensures Valid() && stack == outer && order == old(order) + [name]
      ensures state == old(state)[name := 2]
    {
      assert name in stack;
      Reopen(order, name, outer);
      state := state[name := 2];
      order := order + [name];
      stack := outer;
    }

    lemma CycleFound(name: string)
      requires Valid() && name in stack && Edge(deps, stack[|stack| - 1], name)
      ensures Cyclic(deps)
    {
      var i: nat :| i < |stack| && stack[i] == name;
      var p := stack[i..] + [name];
      forall k | 0 <= k < |p| - 1
        ensures Edge(deps, p[k], p[k + 1])
      {
        if k < |p| - 2 {
          assert Edge(deps, stack[i + k], stack[i + k + 1]);
        }
      }
      assert Path(deps, p) && p[0] == p[|p| - 1];
    }

    lemma Reopen(before: seq<string>, name: string, outer: seq<string>)
      requires DepsFirst(deps, before) && name in deps
      requires forall j :: 0 <= j < |deps[name]| ==> deps[name][j] in before
      requires Path(deps, outer + [name])
      ensures DepsFirst(deps, before + [name]) && Path(deps, outer)
    {
      var r := before + [name];
      forall i, b | 0 <= i < |r| && Edge(deps, r[i], b)
        ensures b in r[..i]
      {
        assert r[..i] == before[..i];
        assert before[..|before|] == before;
        if i < |before| {
          assert Edge(deps, before[i], b);
        }
      }
      forall i | 0 <= i < |outer| - 1
        ensures Edge(deps, outer[i], outer[i + 1])
      {
        var q := outer + [name];
        assert Edge(deps, q[i], q[i + 1]);
      }
    }
  }

  /** `topologicalOrder`: succeeds exactly when the references are acyclic, and
      then lists every name once with its dependencies before it. */
  method TopologicalOrder(names: seq<string>, deps: map<string, seq<string>>) returns (ok: bool, order: seq<string>)
    requires Closed(deps) && Elements(names) == deps.Keys
    ensures ok <==> !Cyclic(deps)
    ensures ok ==> Distinct(order) && Elements(order) == deps.Keys && DepsFirst(deps, order)
  {
    var sorter := new Sorter(deps);
    for k := 0 to |names|
      invariant sorter.Valid() && sorter.stack == [] && sorter.deps == deps
      invariant fresh(sorter)
      invariant forall j :: 0 <= j < k ==> names[j] in sorter.order
    {
      assert names[k] in Elements(names);
      if names[k] !in sorter.state {
        ghost var before := sorter.order;
        ok := sorter.Visit(names[k]);
        if !ok {
          return false, [];
        }
        assert forall x :: x in before ==> x in sorter.order;
      } else {
        assert sorter.state[names[k]] == 2 by {
          assert names[k] !in sorter.stack;
        }
      }
    }
    order := sorter.order;
    assert Elements(order) == deps.Keys;
    OrderedIsAcyclic(deps, order);
    return true, order;
  }
}
