/** Linked matrix expressions, the families of model sets they denote, and the
    dominance frontier that stands in for a family during one query. */
module Frontier {
  import opened Names

  /** A compiled expression: identifiers are real model names, references are linked. */
  datatype Node =
    | Leaf(model: string)
    | Ref(target: Node)
    | And(children: seq<Node>)
    | Or(children: seq<Node>)

  // ---------------------------------------------------------------- denotation

  /** The model sets an expression describes: a leaf contributes one model, OR
      selects among families, AND unites one set from each child's family. */
  ghost function Family(n: Node): set<set<string>>
    decreases n, 1
  {
    match n
    case Leaf(model) => {{model}}
    case Ref(target) => Family(target)
    case And(children) => Unions(children)
    case Or(children) => Alternatives(children)
  }

  ghost function Alternatives(children: seq<Node>): set<set<string>>
    decreases children, 0
  {
    if children == [] then {}
    else Alternatives(children[..|children| - 1]) + Family(children[|children| - 1])
  }

  ghost function Unions(children: seq<Node>): set<set<string>>
    decreases children, 0
  {
    if children == [] then {{}}
    else Pairwise(Unions(children[..|children| - 1]), Family(children[|children| - 1]))
  }

  ghost function Pairwise(lefts: set<set<string>>, rights: set<set<string>>): set<set<string>>
  {
    set a, b | a in lefts && b in rights :: a + b
  }

  /** Every model an expression can mention. */
  ghost function Support(n: Node): set<string>
    decreases n, 1
  {
    match n
    case Leaf(model) => {model}
    case Ref(target) => Support(target)
    case And(children) => SupportAll(children)
    case Or(children) => SupportAll(children)
  }

  ghost function SupportAll(children: seq<Node>): set<string>
    decreases children, 0
  {
    if children == [] then {}
    else SupportAll(children[..|children| - 1]) + Support(children[|children| - 1])
  }

  lemma {:induction false} FamilyWithinSupport(n: Node, s: set<string>)
    requires s in Family(n)
    ensures s <= Support(n)
    decreases n, 1
  {
    match n
    case Leaf(model) =>
    case Ref(target) => FamilyWithinSupport(target, s);
    case And(children) => UnionsWithinSupport(children, s);
    case Or(children) => AlternativesWithinSupport(children, s);
  }

  lemma {:induction false} AlternativesWithinSupport(children: seq<Node>, s: set<string>)
    requires s in Alternatives(children)
    ensures s <= SupportAll(children)
    decreases children, 0
  {
    var k := |children| - 1;
    if s in Family(children[k]) {
      FamilyWithinSupport(children[k], s);
    } else {
      AlternativesWithinSupport(children[..k], s);
    }
  }

  lemma {:induction false} UnionsWithinSupport(children: seq<Node>, s: set<string>)
    requires s in Unions(children)
    ensures s <= SupportAll(children)
    decreases children, 0
  {
    if children != [] {
      var k := |children| - 1;
      var a, b :| a in Unions(children[..k]) && b in Family(children[k]) && s == a + b;
      UnionsWithinSupport(children[..k], a);
      FamilyWithinSupport(children[k], b);
    }
  }

  // ------------------------------------------------------------------ frontier

  datatype Witness =
    | NoWitness
    | Witness(model: string, left: Witness, right: Witness)

  /** The models a witness tree names; inner nodes carry the empty name. */
  ghost function Named(w: Witness): set<string>
  {
    match w
    case NoWitness => {}
    case Witness(model, left, right) =>
      (if model == "" then {} else {model}) + Named(left) + Named(right)
  }

  /** One projected choice: the relevant models it keeps, and a witness of the full set. */
  datatype Choice = Choice(kept: set<string>, made: Witness)

  predicate Dominated(states: seq<Choice>, kept: set<string>)
  {
    exists i :: 0 <= i < |states| && kept <= states[i].kept
  }

  function Survivors(states: seq<Choice>, kept: set<string>): seq<Choice>
  {
    if states == [] then []
    else
      var last := states[|states| - 1];
      Survivors(states[..|states| - 1], kept) + (if last.kept <= kept then [] else [last])
  }

  /** A candidate below an existing choice changes nothing; otherwise it replaces
      every choice below it and goes last. */
  function AddToFrontier(states: seq<Choice>, candidate: Choice): seq<Choice>
  {
    if Dominated(states, candidate.kept) then states
    else Survivors(states, candidate.kept) + [candidate]
  }

  function AddAll(states: seq<Choice>, more: seq<Choice>): seq<Choice>
  {
    if more == [] then states
    else AddToFrontier(AddAll(states, more[..|more| - 1]), more[|more| - 1])
  }

  function Join(left: Choice, right: Choice): Choice
  {
    Choice(left.kept + right.kept, Witness("", left.made, right.made))
  }

  function JoinAll(left: Choice, rights: seq<Choice>): seq<Choice>
  {
    seq(|rights|, j requires 0 <= j < |rights| => Join(left, rights[j]))
  }

  function Cross(lefts: seq<Choice>, rights: seq<Choice>): seq<Choice>
  {
    if lefts == [] then []
    else AddAll(Cross(lefts[..|lefts| - 1], rights), JoinAll(lefts[|lefts| - 1], rights))
  }

  /** What `evaluator.evaluate` computes for one query, in its order. */
  function Evaluate(relevant: set<string>, n: Node): seq<Choice>
    decreases n, 1
  {
    match n
    case Leaf(model) => [Choice({model} * relevant, Witness(model, NoWitness, NoWitness))]
    case Ref(target) => Evaluate(relevant, target)
    case And(children) => EvaluateAnd(relevant, children)
    case Or(children) => EvaluateOr(relevant, children)
  }

  function EvaluateOr(relevant: set<string>, children: seq<Node>): seq<Choice>
    decreases children, 0
  {
    if children == [] then []
    else AddAll(EvaluateOr(relevant, children[..|children| - 1]), Evaluate(relevant, children[|children| - 1]))
  }

  function EvaluateAnd(relevant: set<string>, children: seq<Node>): seq<Choice>
    decreases children, 0
  {
    if children == [] then [Choice({}, NoWitness)]
    else Cross(EvaluateAnd(relevant, children[..|children| - 1]), Evaluate(relevant, children[|children| - 1]))
  }

  // ----------------------------------------------- what a frontier stands for

  /** The choice is the projection of a denoted set, and its witness names that
      set (apart from a model with the empty name, which no witness can carry). */
  ghost predicate Projects(relevant: set<string>, c: Choice, s: set<string>)
  {
    c.kept == s * relevant && Named(c.made) == s - {""}
  }

  ghost predicate Backed(relevant: set<string>, c: Choice, family: set<set<string>>)
  {
    exists s :: s in family && Projects(relevant, c, s)
  }

  ghost predicate Sound(relevant: set<string>, states: seq<Choice>, family: set<set<string>>)
  {
    forall c :: c in states ==> Backed(relevant, c, family)
  }

  ghost predicate Complete(relevant: set<string>, states: seq<Choice>, family: set<set<string>>)
  {
    forall s :: s in family ==> Dominated(states, s * relevant)
  }

  ghost predicate Antichain(states: seq<Choice>)
  {
    forall i, j :: 0 <= i < |states| && 0 <= j < |states| && i != j ==> !(states[i].kept <= states[j].kept)
  }

  ghost predicate StandsFor(relevant: set<string>, states: seq<Choice>, family: set<set<string>>)
  {
    Sound(relevant, states, family) && Complete(relevant, states, family) && Antichain(states)
  }

  lemma {:induction false} SurvivorsKept(states: seq<Choice>, kept: set<string>)
    ensures forall c :: c in Survivors(states, kept) <==> c in states && !(c.kept <= kept)
    ensures Antichain(states) ==> Antichain(Survivors(states, kept))
  {
    if states != [] {
      var k := |states| - 1;
      SurvivorsKept(states[..k], kept);
      assert states == states[..k] + [states[k]];
      if Antichain(states) {
        assert Antichain(states[..k]);
        forall c | c in Survivors(states[..k], kept)
          ensures !(c.kept <= states[k].kept) && !(states[k].kept <= c.kept)
        {
          var i :| 0 <= i < k && states[i] == c;
        }
      }
    }
  }

  /** Adding one choice loses no coverage, adds its own, and keeps the antichain. */
  lemma AddOne(states: seq<Choice>, candidate: Choice)
    ensures forall kept :: Dominated(states, kept) || kept <= candidate.kept ==> Dominated(AddToFrontier(states, candidate), kept)
    ensures forall c :: c in AddToFrontier(states, candidate) ==> c in states || c == candidate
    ensures Antichain(states) ==> Antichain(AddToFrontier(states, candidate))
  {
    var r := AddToFrontier(states, candidate);
    var old' := Survivors(states, candidate.kept);
    SurvivorsKept(states, candidate.kept);
    forall kept | Dominated(states, kept) || kept <= candidate.kept
      ensures Dominated(r, kept)
    {
      if kept <= candidate.kept {
        if Dominated(states, candidate.kept) {
          var i :| 0 <= i < |states| && candidate.kept <= states[i].kept;
          assert kept <= states[i].kept;
        } else {
          assert r[|old'|] == candidate;
        }
      } else if !Dominated(states, candidate.kept) {
        var i :| 0 <= i < |states| && kept <= states[i].kept;
        if states[i].kept <= candidate.kept {
          assert false;
        }
        assert states[i] in old';
        var j :| 0 <= j < |old'| && old'[j] == states[i];
        assert r[j] == states[i];
      }
    }
    if Antichain(states) && !Dominated(states, candidate.kept) {
      forall i, j | 0 <= i < |r| && 0 <= j < |r| && i != j
        ensures !(r[i].kept <= r[j].kept)
      {
        if j == |old'| {
          assert r[i] == old'[i] && r[i] in old';
        } else if i == |old'| {
          assert r[j] == old'[j] && r[j] in states;
          var k :| 0 <= k < |states| && states[k] == r[j];
        } else {
          assert r[i] == old'[i] && r[j] == old'[j];
        }
      }
    }
  }

  lemma {:induction false} AddMany(states: seq<Choice>, more: seq<Choice>)
    ensures forall kept :: Dominated(states, kept) || Dominated(more, kept) ==> Dominated(AddAll(states, more), kept)
    ensures forall c :: c in AddAll(states, more) ==> c in states || c in more
    ensures Antichain(states) ==> Antichain(AddAll(states, more))
  {
    if more != [] {
      var k := |more| - 1;
      AddMany(states, more[..k]);
      AddOne(AddAll(states, more[..k]), more[k]);
      forall kept | Dominated(more, kept)
        ensures Dominated(more[..k], kept) || kept <= more[k].kept
      {
        var i :| 0 <= i < |more| && kept <= more[i].kept;
        if i < k {
          assert more[..k][i] == more[i];
        }
      }
    }
  }

  lemma JoinedIn(left: Choice, rights: seq<Choice>, c: Choice)
    requires c in JoinAll(left, rights)
    ensures exists r :: r in rights && c == Join(left, r)
  {
    var j :| 0 <= j < |rights| && c == JoinAll(left, rights)[j];
    assert rights[j] in rights;
  }

  lemma {:induction false} CrossMembers(lefts: seq<Choice>, rights: seq<Choice>, c: Choice)
    requires c in Cross(lefts, rights)
    ensures exists l, r :: l in lefts && r in rights && c == Join(l, r)
  {
    var k := |lefts| - 1;
    AddMany(Cross(lefts[..k], rights), JoinAll(lefts[k], rights));
    if c in JoinAll(lefts[k], rights) {
      JoinedIn(lefts[k], rights, c);
      assert lefts[k] in lefts;
    } else {
      CrossMembers(lefts[..k], rights, c);
    }
  }

  lemma {:induction false} CrossCovers(lefts: seq<Choice>, rights: seq<Choice>, a: set<string>, b: set<string>)
    requires Dominated(lefts, a) && Dominated(rights, b)
    ensures Dominated(Cross(lefts, rights), a + b)
  {
    var k := |lefts| - 1;
    AddMany(Cross(lefts[..k], rights), JoinAll(lefts[k], rights));
    if a <= lefts[k].kept {
      var j :| 0 <= j < |rights| && b <= rights[j].kept;
      assert JoinAll(lefts[k], rights)[j].kept == lefts[k].kept + rights[j].kept;
      assert Dominated(JoinAll(lefts[k], rights), a + b);
    } else {
      var i :| 0 <= i < |lefts| && a <= lefts[i].kept;
      assert lefts[..k][i] == lefts[i];
      CrossCovers(lefts[..k], rights, a, b);
    }
  }

  lemma {:induction false} CrossAntichain(lefts: seq<Choice>, rights: seq<Choice>)
    ensures Antichain(Cross(lefts, rights))
  {
    if lefts != [] {
      var k := |lefts| - 1;
      CrossAntichain(lefts[..k], rights);
      AddMany(Cross(lefts[..k], rights), JoinAll(lefts[k], rights));
    }
  }

  lemma AlternativesStandFor(
    relevant: set<string>, lefts: seq<Choice>, rights: seq<Choice>,
    leftFamily: set<set<string>>, rightFamily: set<set<string>>)
    requires StandsFor(relevant, lefts, leftFamily) && StandsFor(relevant, rights, rightFamily)
    ensures StandsFor(relevant, AddAll(lefts, rights), leftFamily + rightFamily)
  {
    AddMany(lefts, rights);
    forall c | c in AddAll(lefts, rights)
      ensures Backed(relevant, c, leftFamily + rightFamily)
    {
      if c in lefts {
        var s :| s in leftFamily && Projects(relevant, c, s);
        assert s in leftFamily + rightFamily;
      } else {
        var s :| s in rightFamily && Projects(relevant, c, s);
        assert s in leftFamily + rightFamily;
      }
    }
  }

  lemma JoinBacked(
    relevant: set<string>, x: Choice, y: Choice, leftFamily: set<set<string>>, rightFamily: set<set<string>>)
    requires Backed(relevant, x, leftFamily) && Backed(relevant, y, rightFamily)
    ensures Backed(relevant, Join(x, y), Pairwise(leftFamily, rightFamily))
  {
    var a :| a in leftFamily && Projects(relevant, x, a);
    var b :| b in rightFamily && Projects(relevant, y, b);
    assert (a + b) * relevant == a * relevant + b * relevant;
    assert (a + b) - {""} == (a - {""}) + (b - {""});
    assert Projects(relevant, Join(x, y), a + b);
  }

  lemma UnionsStandFor(
    relevant: set<string>, lefts: seq<Choice>, rights: seq<Choice>,
    leftFamily: set<set<string>>, rightFamily: set<set<string>>)
    requires StandsFor(relevant, lefts, leftFamily) && StandsFor(relevant, rights, rightFamily)
    ensures StandsFor(relevant, Cross(lefts, rights), Pairwise(leftFamily, rightFamily))
  {
    CrossAntichain(lefts, rights);
    forall c | c in Cross(lefts, rights)
      ensures Backed(relevant, c, Pairwise(leftFamily, rightFamily))
    {
      CrossMembers(lefts, rights, c);
      var x, y :| x in lefts && y in rights && c == Join(x, y);
      JoinBacked(relevant, x, y, leftFamily, rightFamily);
    }
    forall s | s in Pairwise(leftFamily, rightFamily)
      ensures Dominated(Cross(lefts, rights), s * relevant)
    {
      var a, b :| a in leftFamily && b in rightFamily && s == a + b;
      CrossCovers(lefts, rights, a * relevant, b * relevant);
      assert s * relevant == a * relevant + b * relevant;
    }
  }

  /** The frontier of any expression is sound, complete and an antichain for the
      family the expression denotes, whatever the query asks about. */
  lemma {:induction false} EvaluateStandsFor(relevant: set<string>, n: Node)
    ensures StandsFor(relevant, Evaluate(relevant, n), Family(n))
    decreases n, 1
  {
    match n
    case Leaf(model) =>
      var c := Choice({model} * relevant, Witness(model, NoWitness, NoWitness));
      assert Evaluate(relevant, n) == [c] && {model} in Family(n);
      assert Projects(relevant, c, {model});
      assert Dominated([c], {model} * relevant) by { assert [c][0] == c; }
    case Ref(target) => EvaluateStandsFor(relevant, target);
    case And(children) => EvaluateAndStandsFor(relevant, children);
    case Or(children) => EvaluateOrStandsFor(relevant, children);
  }

  lemma {:induction false} EvaluateOrStandsFor(relevant: set<string>, children: seq<Node>)
    ensures StandsFor(relevant, EvaluateOr(relevant, children), Alternatives(children))
    decreases children, 0
  {
    if children != [] {
      var k := |children| - 1;
      EvaluateOrStandsFor(relevant, children[..k]);
      EvaluateStandsFor(relevant, children[k]);
      AlternativesStandFor(relevant, EvaluateOr(relevant, children[..k]), Evaluate(relevant, children[k]),
                           Alternatives(children[..k]), Family(children[k]));
    }
  }

  lemma {:induction false} EvaluateAndStandsFor(relevant: set<string>, children: seq<Node>)
    ensures StandsFor(relevant, EvaluateAnd(relevant, children), Unions(children))
    decreases children, 0
  {
    if children == [] {
      var c := Choice({}, NoWitness);
      assert EvaluateAnd(relevant, children) == [c] && {} in Unions(children);
      assert Projects(relevant, c, {});
      assert Dominated([c], {}) by { assert [c][0] == c; }
    } else {
      var k := |children| - 1;
      EvaluateAndStandsFor(relevant, children[..k]);
      EvaluateStandsFor(relevant, children[k]);
      UnionsStandFor(relevant, EvaluateAnd(relevant, children[..k]), Evaluate(relevant, children[k]),
                     Unions(children[..k]), Family(children[k]));
    }
  }
}
