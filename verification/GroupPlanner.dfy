/** Evictions from static groups, and the check that spillover targets may run side by
    side under the group planner or the matrix planner. */
module GroupPlanner {
  import opened Names
  import MatrixProgram
  import MatrixSolver

  datatype Option<+T> = None | Some(value: T)

  datatype Group = Group(swap: bool, exclusive: bool, persistent: bool, members: seq<string>)

  type Groups = map<string, Group>

  /** An unknown group reads as the zero group. */
  function GroupNamed(groups: Groups, name: string): Group
  {
    if name in groups then groups[name] else Group(false, false, false, [])
  }

  function GroupOf(index: map<string, string>, m: string): string
  {
    if m in index then index[m] else ""
  }

  /** No model is a member twice, of one group or of two. */
  ghost predicate NoRepeats(groups: Groups)
  {
    && (forall g :: g in groups ==>
          forall i, j :: 0 <= i < j < |groups[g].members| ==> groups[g].members[i] != groups[g].members[j])
    && forall g, h, m :: g in groups && h in groups && m in groups[g].members && m in groups[h].members ==> g == h
  }

  /** The index sends exactly the members of groups to a group they are in. */
  ghost predicate Indexes(groups: Groups, index: map<string, string>)
  {
    && (forall m :: m in index ==> index[m] in groups && m in groups[index[m]].members)
    && forall g, m :: g in groups && m in groups[g].members ==> m in index
  }

  method IndexMembers(groups: Groups) returns (index: map<string, string>)
    ensures Indexes(groups, index)
  {
    index := map[];
    var left := groups.Keys;
    while left != {}
      invariant left <= groups.Keys
      invariant forall m :: m in index ==> index[m] in groups && m in groups[index[m]].members
      invariant forall g, m :: g in groups && g !in left && m in groups[g].members ==> m in index
      decreases |left|
    {
      var g :| g in left;
      left := left - {g};
      var members := groups[g].members;
      for i := 0 to |members|
        invariant forall m :: m in index ==> index[m] in groups && m in groups[index[m]].members
        invariant forall h, m :: h in groups && h !in left && h != g && m in groups[h].members ==> m in index
        invariant forall k :: 0 <= k < i ==> members[k] in index
      {
        index := index[members[i] := g];
      }
    }
  }

  /** With no repeated member, the index is the group of each model. */
  lemma IndexIsExact(groups: Groups, index: map<string, string>, g: string, m: string)
    requires NoRepeats(groups) && Indexes(groups, index) && g in groups
    ensures m in groups[g].members <==> m in index && index[m] == g
  {
  }

  // ------------------------------------------------------------------- evictions

  /** Whether starting `target` stops a running `m`: a sibling in a swapping group, or
      a member of another group unless that is persistent or ours is not exclusive. */
  predicate Stops(groups: Groups, index: map<string, string>, target: string, m: string)
  {
    var tg, og := GroupOf(index, target), GroupOf(index, m);
    && m != target
    && if og == tg then GroupNamed(groups, tg).swap
       else GroupNamed(groups, tg).exclusive && !GroupNamed(groups, og).persistent
  }

  /** The stopped models in running order, each once. */
  function Stopped(groups: Groups, index: map<string, string>, target: string, running: seq<string>): seq<string>
  {
    if running == [] then []
    else
      var before, m := Stopped(groups, index, target, running[..|running| - 1]), running[|running| - 1];
      if Stops(groups, index, target, m) && m !in before then before + [m] else before
  }

  lemma {:induction false} StoppedOnce(groups: Groups, index: map<string, string>, target: string, running: seq<string>)
    ensures
      var out := Stopped(groups, index, target, running);
      && (forall m :: m in out <==> m in running && Stops(groups, index, target, m))
      && forall i, j :: 0 <= i < j < |out| ==> out[i] != out[j]
  {
    if running != [] {
      var before, m := running[..|running| - 1], running[|running| - 1];
      assert running == before + [m];
      StoppedOnce(groups, index, target, before);
      var out := Stopped(groups, index, target, before);
      assert forall i :: 0 <= i < |out| ==> out[i] in out;
    }
  }

  /** A model is in the group that lists it; one that no group lists is in the group with
      the empty name, if there is one. */
  ghost predicate Belongs(groups: Groups, m: string, g: string)
  {
    g in groups && (m in groups[g].members || (g == "" && forall h :: h in groups ==> m !in groups[h].members))
  }

  /** What is stopped, said of the groups alone: exactly the running models other than
      the target that are in its group, if that swaps, or outside it, if it is exclusive
      and they are in no persistent group; each once. */
  lemma StoppedExactly(groups: Groups, index: map<string, string>, target: string, running: seq<string>)
    requires NoRepeats(groups) && Indexes(groups, index)
    ensures
      var out := Stopped(groups, index, target, running);
      && (forall m :: m in out <==>
            m in running && m != target
            && exists g :: Belongs(groups, target, g) &&
                 if Belongs(groups, m, g) then groups[g].swap
                 else groups[g].exclusive && !exists h :: Belongs(groups, m, h) && groups[h].persistent)
      && forall i, j :: 0 <= i < j < |out| ==> out[i] != out[j]
  {
    StoppedOnce(groups, index, target, running);
    forall m, g
      ensures Belongs(groups, m, g) <==> g in groups && GroupOf(index, m) == g
    {
      if g in groups {
        IndexIsExact(groups, index, g, m);
      }
    }
  }

  method EvictionFor(groups: Groups, index: map<string, string>, target: string, running: seq<string>)
    returns (result: seq<string>)
    ensures result == Stopped(groups, index, target, running)
  {
    var tg := GroupOf(index, target);
    var tgCfg := GroupNamed(groups, tg);
    var seen: set<string> := {};
    result := [];
    for i := 0 to |running|
      invariant result == Stopped(groups, index, target, running[..i])
      invariant forall m :: m in seen <==> m in result
    {
      assert running[..i + 1][..i] == running[..i];
      var m := running[i];
      if m == target || m in seen {
        continue;
      }
      var og := GroupOf(index, m);
      if og == tg && tgCfg.swap {
        seen := seen + {m};
        result := result + [m];
      } else if og != tg && tgCfg.exclusive {
        if !GroupNamed(groups, og).persistent {
          seen := seen + {m};
          result := result + [m];
        }
      }
    }
    assert running[..|running|] == running;
  }

  // ------------------------------------------------------------------- spillover

  datatype Routing = Matrix(program: Option<MatrixProgram.Program>) | Grouped(groups: Groups)

  datatype Verdict = Accepted | NotInOneSet | NotInAGroup(target: string) | Swaps | NotOneGroup

  ghost predicate ShareOneSet(p: MatrixProgram.Program, targets: seq<string>)
  {
    exists i :: 0 <= i < |p.sets| && MatrixProgram.Allows(p.sets[i].root, Elements(targets))
  }

  ghost predicate ShareOneGroup(groups: Groups, targets: seq<string>)
  {
    exists g :: g in groups && g != "" && !groups[g].swap && forall i :: 0 <= i < |targets| ==> targets[i] in groups[g].members
  }

  /** Accepts exactly the targets that share one matrix set, or one group that does
      not swap; a single target needs nothing. */
  method ValidateSpilloverCoexistence(routing: Routing, targets: seq<string>) returns (verdict: Verdict)
    requires routing.Matrix? && routing.program.Some? ==> MatrixProgram.Valid(routing.program.value)
    requires routing.Grouped? ==> NoRepeats(routing.groups)
    ensures verdict.Accepted? <==>
      || |targets| <= 1
      || (routing.Matrix? && routing.program.Some? && ShareOneSet(routing.program.value, targets))
      || (routing.Grouped? && ShareOneGroup(routing.groups, targets))
  {
    if |targets| <= 1 {
      return Accepted;
    }
    if routing.Matrix? {
      if routing.program.Some? {
        var together := MatrixSolver.CanContainAll(routing.program.value, targets);
        if together {
          return Accepted;
        }
      }
      return NotInOneSet;
    }
    verdict := CheckGroups(routing.groups, targets);
  }

  method CheckGroups(groups: Groups, targets: seq<string>) returns (verdict: Verdict)
    requires NoRepeats(groups) && |targets| > 1
    ensures verdict.Accepted? <==> ShareOneGroup(groups, targets)
  {
    var groupOf := IndexMembers(groups);
    var g := GroupOf(groupOf, targets[0]);
    OneGroupIs(groups, groupOf, targets);
    if g == "" {
      return NotInAGroup(targets[0]);
    }
    if GroupNamed(groups, g).swap {
      return Swaps;
    }
    for i := 1 to |targets|
      invariant forall k :: 0 <= k < i ==> GroupOf(groupOf, targets[k]) == g
    {
      if GroupOf(groupOf, targets[i]) != g {
        return NotOneGroup;
      }
    }
    forall i | 0 <= i < |targets|
      ensures targets[i] in groups[g].members
    {
      assert GroupOf(groupOf, targets[i]) == g;
    }
    return Accepted;
  }

  /** A shared group can only be the group of the first target. */
  lemma OneGroupIs(groups: Groups, index: map<string, string>, targets: seq<string>)
    requires NoRepeats(groups) && Indexes(groups, index) && targets != []
    ensures ShareOneGroup(groups, targets) ==>
      var g := GroupOf(index, targets[0]);
      && g in groups && g != "" && !groups[g].swap
      && forall i :: 0 <= i < |targets| ==> GroupOf(index, targets[i]) == g
  {
    if ShareOneGroup(groups, targets) {
      var g :| g in groups && g != "" && !groups[g].swap && forall i :: 0 <= i < |targets| ==> targets[i] in groups[g].members;
      forall i | 0 <= i < |targets|
        ensures GroupOf(index, targets[i]) == g
      {
        IndexIsExact(groups, index, g, targets[i]);
      }
    }
  }

  /** Accepted targets never stop one another under the group planner: whichever of
      them run, starting another stops nothing. */
  lemma AcceptedGroupsEvictNothing(groups: Groups, index: map<string, string>,
      targets: seq<string>, target: string, running: seq<string>)
    requires NoRepeats(groups) && Indexes(groups, index)
    requires |targets| <= 1 || ShareOneGroup(groups, targets)
    requires target in targets && forall m :: m in running ==> m in targets
    ensures Stopped(groups, index, target, running) == []
  {
    StoppedOnce(groups, index, target, running);
    if |targets| > 1 {
      OneGroupIs(groups, index, targets);
    }
    var out := Stopped(groups, index, target, running);
    SomeMember(out);
  }

  /** And under the matrix planner, with positive costs. */
  lemma AcceptedSetsEvictNothing(p: MatrixProgram.Program, targets: seq<string>, q: MatrixProgram.Query)
    requires |targets| <= 1 || ShareOneSet(p, targets)
    requires q.target in targets && forall m :: m in q.running ==> m in targets
    requires forall m :: m in q.running && m in q.costs ==> q.costs[m] > 0
    ensures MatrixProgram.Decide(p, q).evict == []
  {
    if |targets| > 1 {
      MatrixProgram.CoexistingTargetsEvictNothing(p, Elements(targets), q);
    } else if q.target !in q.running {
      SomeMember(q.running);
      MatrixProgram.LeftOutWithin(p, q);
      SomeMember(MatrixProgram.Decide(p, q).evict);
    }
  }

  /** A set that misses one of the targets but has the new one leaves out one that runs. */
  lemma MissedIsLeftOut(targets: seq<string>, q: MatrixProgram.Query, s: set<string>)
    requires Elements(targets) == Elements(q.running) + {q.target} && q.target in s && !(Elements(targets) <= s)
    ensures exists m :: m in MatrixProgram.LeftOut(q.running, s) && m in targets
  {
    var m :| m in Elements(targets) && m !in s;
    assert m in Elements(q.running);
    MatrixProgram.LeftOutExact(q.running, s, m);
    assert m in multiset(MatrixProgram.LeftOut(q.running, s));
  }

  /** Targets rejected under the matrix do collide: with all the others running,
      starting the last one stops at least one of them. */
  lemma RejectedSetsCollide(p: MatrixProgram.Program, targets: seq<string>, q: MatrixProgram.Query)
    requires !ShareOneSet(p, targets) && q.target !in q.running && q.running != []
    requires Elements(targets) == Elements(q.running) + {q.target} && q.NonNegative()
    ensures exists m :: m in MatrixProgram.Decide(p, q).evict && m in targets
  {
    MatrixProgram.DecideFindsBest(p, q);
    var d := MatrixProgram.Decide(p, q);
    if exists i: nat, s :: MatrixProgram.Denotes(p, i, q.target, s) {
      var i: nat, s :| MatrixProgram.Denotes(p, i, q.target, s) && d.evict == MatrixProgram.LeftOut(q.running, s);
      assert !MatrixProgram.Allows(p.sets[i].root, Elements(targets));
      MissedIsLeftOut(targets, q, s);
    } else {
      SomeMember(q.running);
      var m :| m in q.running;
      assert m in Elements(q.running) && m in Elements(targets);
    }
  }
}
