/** The order in which a drain reconsiders the queue. */
module FifoOrder {
  import opened Names
  import opened FifoSpec

  // -------------------------------------------------------------------- filters

  lemma {:induction false} FilterConcat(a: seq<Req>, b: seq<Req>, keep: Req -> bool)
    ensures Filter(a + b, keep) == Filter(a, keep) + Filter(b, keep)
  {
    if b == [] {
      assert a + b == a;
    } else {
      var k := |b| - 1;
      FilterConcat(a, b[..k], keep);
      assert (a + b)[..|a + b| - 1] == a + b[..k];
    }
  }

  lemma FilterFront(reqs: seq<Req>, keep: Req -> bool)
    requires reqs != []
    ensures Filter(reqs, keep) == (if keep(reqs[0]) then [reqs[0]] else []) + Filter(reqs[1..], keep)
  {
    FilterConcat([reqs[0]], reqs[1..], keep);
    assert reqs == [reqs[0]] + reqs[1..];
    assert [reqs[0]][..0] == [];
  }

  lemma {:induction false} FilterMembers(reqs: seq<Req>, keep: Req -> bool)
    ensures forall r :: r in Filter(reqs, keep) <==> r in reqs && keep(r)
  {
    if reqs != [] {
      var k := |reqs| - 1;
      FilterMembers(reqs[..k], keep);
      assert reqs == reqs[..k] + [reqs[k]];
    }
  }

  ghost predicate Every(reqs: seq<Req>, keep: Req -> bool, value: bool)
  {
    forall i :: 0 <= i < |reqs| ==> keep(reqs[i]) == value
  }

  lemma {:induction false} FilterUniform(reqs: seq<Req>, keep: Req -> bool, value: bool)
    requires Every(reqs, keep, value)
    ensures Filter(reqs, keep) == if value then reqs else []
  {
    if reqs != [] {
      var k := |reqs| - 1;
      assert reqs == reqs[..k] + [reqs[k]];
      FilterUniform(reqs[..k], keep, value);
    }
  }

  lemma {:induction false} FilterWithin(reqs: seq<Req>, outer: Req -> bool, inner: Req -> bool)
    requires forall r :: inner(r) ==> outer(r)
    ensures Filter(Filter(reqs, outer), inner) == Filter(reqs, inner)
  {
    if reqs != [] {
      var k := |reqs| - 1;
      FilterWithin(reqs[..k], outer, inner);
      FilterConcat(Filter(reqs[..k], outer), if outer(reqs[k]) then [reqs[k]] else [], inner);
      assert [reqs[k]][..0] == [];
    }
  }

  /** The two classes of a pool together are the pool. */
  lemma {:induction false} ClassesSplit(cfg: Config, env: Env, active: map<string, Swap>, reqs: seq<Req>, pool: string)
    ensures |Filter(reqs, InPool(cfg, pool))| ==
      |Filter(reqs, ResidentIn(cfg, env, active, pool))| + |Filter(reqs, ColdIn(cfg, env, active, pool))|
  {
    if reqs != [] {
      ClassesSplit(cfg, env, active, reqs[..|reqs| - 1], pool);
    }
  }

  lemma {:induction false} ClassesCount(cfg: Config, env: Env, active: map<string, Swap>, reqs: seq<Req>, pool: string, x: Req)
    ensures multiset(Filter(reqs, InPool(cfg, pool)))[x] ==
      multiset(Filter(reqs, ResidentIn(cfg, env, active, pool)))[x] + multiset(Filter(reqs, ColdIn(cfg, env, active, pool)))[x]
  {
    if reqs != [] {
      ClassesCount(cfg, env, active, reqs[..|reqs| - 1], pool, x);
    }
  }

  // --------------------------------------------------------------------- refill

  ghost predicate Fits(reqs: seq<Req>, select: Req -> bool, values: seq<Req>)
  {
    |values| == |Filter(reqs, select)| && forall v :: v in values ==> select(v)
  }

  lemma FitsTail(reqs: seq<Req>, select: Req -> bool, values: seq<Req>)
    requires reqs != [] && Fits(reqs, select, values)
    ensures select(reqs[0]) ==> values != [] && values[0] in values && Fits(reqs[1..], select, values[1..])
    ensures select(reqs[0]) ==> Refill(reqs, select, values) == [values[0]] + Refill(reqs[1..], select, values[1..])
    ensures !select(reqs[0]) ==> Fits(reqs[1..], select, values)
    ensures !select(reqs[0]) ==> Refill(reqs, select, values) == [reqs[0]] + Refill(reqs[1..], select, values)
  {
    FilterFront(reqs, select);
  }

  /** Refilling writes the values into the selected places and nothing else. */
  lemma {:induction false} RefillPlaces(reqs: seq<Req>, select: Req -> bool, values: seq<Req>)
    requires Fits(reqs, select, values)
    ensures |Refill(reqs, select, values)| == |reqs|
    ensures forall i :: 0 <= i < |reqs| ==>
      if select(reqs[i]) then Refill(reqs, select, values)[i] in values else Refill(reqs, select, values)[i] == reqs[i]
  {
    if reqs != [] {
      FitsTail(reqs, select, values);
      if select(reqs[0]) {
        assert forall v :: v in values[1..] ==> v in values;
        RefillPlaces(reqs[1..], select, values[1..]);
      } else {
        RefillPlaces(reqs[1..], select, values);
      }
    }
  }

  lemma {:induction false} RefillSelected(reqs: seq<Req>, select: Req -> bool, values: seq<Req>)
    requires Fits(reqs, select, values)
    ensures Filter(Refill(reqs, select, values), select) == values
  {
    if reqs != [] {
      FitsTail(reqs, select, values);
      var out := Refill(reqs, select, values);
      FilterFront(out, select);
      if select(reqs[0]) {
        RefillSelected(reqs[1..], select, values[1..]);
        assert out[1..] == Refill(reqs[1..], select, values[1..]);
      } else {
        RefillSelected(reqs[1..], select, values);
        assert out[1..] == Refill(reqs[1..], select, values);
      }
    }
  }

  lemma {:induction false} RefillConserves(reqs: seq<Req>, select: Req -> bool, values: seq<Req>, x: Req)
    requires Fits(reqs, select, values)
    ensures multiset(Refill(reqs, select, values))[x] + multiset(Filter(reqs, select))[x] == multiset(reqs)[x] + multiset(values)[x]
  {
    if reqs != [] {
      FitsTail(reqs, select, values);
      FilterFront(reqs, select);
      FrontCount(reqs, x);
      FrontCount(Refill(reqs, select, values), x);
      FrontCount(Filter(reqs, select), x);
      if select(reqs[0]) {
        FrontCount(values, x);
        RefillConserves(reqs[1..], select, values[1..], x);
        assert Refill(reqs, select, values)[1..] == Refill(reqs[1..], select, values[1..]);
        assert Filter(reqs, select)[1..] == Filter(reqs[1..], select);
      } else {
        RefillConserves(reqs[1..], select, values, x);
        assert Refill(reqs, select, values)[1..] == Refill(reqs[1..], select, values);
        assert Filter(reqs, select) == Filter(reqs[1..], select);
      }
    }
  }

  lemma FrontCount(reqs: seq<Req>, x: Req)
    ensures reqs != [] ==> multiset(reqs)[x] == (if reqs[0] == x then 1 else 0) + multiset(reqs[1..])[x]
  {
    if reqs != [] {
      assert reqs == [reqs[0]] + reqs[1..];
    }
  }

  /** Requests outside the selection keep their relative order. */
  lemma {:induction false} RefillOthers(reqs: seq<Req>, select: Req -> bool, values: seq<Req>, keep: Req -> bool)
    requires Fits(reqs, select, values) && forall r :: keep(r) ==> !select(r)
    ensures Filter(Refill(reqs, select, values), keep) == Filter(reqs, keep)
  {
    if reqs != [] {
      FitsTail(reqs, select, values);
      FilterFront(reqs, keep);
      var out := Refill(reqs, select, values);
      FilterFront(out, keep);
      if select(reqs[0]) {
        RefillOthers(reqs[1..], select, values[1..], keep);
        assert out[1..] == Refill(reqs[1..], select, values[1..]);
      } else {
        RefillOthers(reqs[1..], select, values, keep);
        assert out[1..] == Refill(reqs[1..], select, values);
      }
    }
  }

  function Kept(reqs: seq<Req>, value: bool): seq<Req> { if value then reqs else [] }

  lemma FilterTwo(a: seq<Req>, b: seq<Req>, keep: Req -> bool, va: bool, vb: bool)
    requires Every(a, keep, va) && Every(b, keep, vb)
    ensures Filter(a + b, keep) == Kept(a, va) + Kept(b, vb)
  {
    FilterUniform(a, keep, va);
    FilterUniform(b, keep, vb);
    FilterConcat(a, b, keep);
  }

  /** Filtering an ordered pool for exactly one of its classes gives that class. */
  lemma OrderedKeeps(resident: seq<Req>, cold: seq<Req>, promote: bool, keep: Req -> bool, wantCold: bool)
    requires Every(resident, keep, !wantCold) && Every(cold, keep, wantCold)
    ensures Filter(Ordered(resident, cold, promote), keep) == if wantCold then cold else resident
  {
    if promote && cold != [] {
      PromotedKeeps([cold[0]], resident, cold[1..], keep, wantCold);
    } else {
      FilterTwo(resident, cold, keep, !wantCold, wantCold);
    }
  }

  lemma PromotedKeeps(first: seq<Req>, resident: seq<Req>, rest: seq<Req>, keep: Req -> bool, wantCold: bool)
    requires Every(first, keep, wantCold) && Every(resident, keep, !wantCold) && Every(rest, keep, wantCold)
    ensures Filter(first + resident + rest, keep) == if wantCold then first + rest else resident
  {
    FilterTwo(first, resident, keep, wantCold, !wantCold);
    FilterConcat(first + resident, rest, keep);
    FilterUniform(rest, keep, wantCold);
    assert Kept(first, wantCold) + Kept(resident, !wantCold) == if wantCold then first else resident;
  }

  lemma OrderedConserves(resident: seq<Req>, cold: seq<Req>, promote: bool)
    ensures |Ordered(resident, cold, promote)| == |resident| + |cold|
    ensures multiset(Ordered(resident, cold, promote)) == multiset(resident) + multiset(cold)
  {
    if promote && cold != [] {
      assert cold == [cold[0]] + cold[1..];
    }
  }

  // ----------------------------------------------------------------- fair order

  ghost predicate Managed(cfg: Config, env: Env, s: State, pool: string)
  {
    && pool in cfg.pools && cfg.pools[pool].residentFirst
    && OldestCold(cfg, env, s.active, s.queued, pool).Some?
  }

  ghost function Promotes(cfg: Config, env: Env, s: State, pool: string): bool
    requires Managed(cfg, env, s, pool)
  {
    BoundReached(cfg.pools[pool], Get(s.bursts, pool), env.now, OldestCold(cfg, env, s.active, s.queued, pool).value)
  }

  /** `out` is `queue` with the requests of each managed pool in `pools` put in the
      order residents, then cold, the first cold one leading after a promotion. */
  ghost predicate Fair(cfg: Config, env: Env, s: State, queue: seq<Req>, out: seq<Req>, pools: seq<string>)
  {
    && |out| == |queue| && multiset(out) == multiset(queue)
    && (forall i :: 0 <= i < |queue| ==> cfg.PoolFor(out[i].model) == cfg.PoolFor(queue[i].model))
    && (forall i :: 0 <= i < |queue| && !(cfg.PoolFor(queue[i].model) in pools && Managed(cfg, env, s, cfg.PoolFor(queue[i].model))) ==>
          out[i] == queue[i])
    && (forall pool :: SameClasses(cfg, env, s, queue, out, pool))
    && (forall pool :: pool in pools && Managed(cfg, env, s, pool) ==>
          Filter(out, InPool(cfg, pool)) ==
          Ordered(Filter(queue, ResidentIn(cfg, env, s.active, pool)), Filter(queue, ColdIn(cfg, env, s.active, pool)),
                  Promotes(cfg, env, s, pool)))
  }

  ghost predicate SameClasses(cfg: Config, env: Env, s: State, queue: seq<Req>, out: seq<Req>, pool: string)
  {
    && Filter(out, ResidentIn(cfg, env, s.active, pool)) == Filter(queue, ResidentIn(cfg, env, s.active, pool))
    && Filter(out, ColdIn(cfg, env, s.active, pool)) == Filter(queue, ColdIn(cfg, env, s.active, pool))
  }

  ghost function PoolValues(cfg: Config, env: Env, s: State, out: seq<Req>, pool: string): seq<Req>
    requires Managed(cfg, env, s, pool)
  {
    Ordered(Filter(out, ResidentIn(cfg, env, s.active, pool)), Filter(out, ColdIn(cfg, env, s.active, pool)),
            Promotes(cfg, env, s, pool))
  }

  lemma PoolValuesFit(cfg: Config, env: Env, s: State, out: seq<Req>, pool: string)
    requires Managed(cfg, env, s, pool)
    ensures
      var values := PoolValues(cfg, env, s, out, pool);
      && Fits(out, InPool(cfg, pool), values)
      && multiset(values) == multiset(Filter(out, InPool(cfg, pool)))
      && ReorderPool(cfg, env, s, out, pool) == Refill(out, InPool(cfg, pool), values)
  {
    var isResident, isCold := ResidentIn(cfg, env, s.active, pool), ColdIn(cfg, env, s.active, pool);
    FilterMembers(out, isResident);
    FilterMembers(out, isCold);
    OrderedConserves(Filter(out, isResident), Filter(out, isCold), Promotes(cfg, env, s, pool));
    ClassesSplit(cfg, env, s.active, out, pool);
    forall x
      ensures multiset(Filter(out, InPool(cfg, pool)))[x] == multiset(Filter(out, isResident))[x] + multiset(Filter(out, isCold))[x]
    {
      ClassesCount(cfg, env, s.active, out, pool, x);
    }
    var values := PoolValues(cfg, env, s, out, pool);
    forall v | v in values
      ensures InPool(cfg, pool)(v)
    {
      assert v in multiset(values);
      assert v in Filter(out, isResident) || v in Filter(out, isCold);
    }
  }

  lemma ReorderPlaces(cfg: Config, env: Env, s: State, out: seq<Req>, pool: string)
    requires Managed(cfg, env, s, pool)
    ensures
      var next := ReorderPool(cfg, env, s, out, pool);
      && |next| == |out| && multiset(next) == multiset(out)
      && (forall i :: 0 <= i < |out| ==> cfg.PoolFor(next[i].model) == cfg.PoolFor(out[i].model))
      && (forall i :: 0 <= i < |out| && cfg.PoolFor(out[i].model) != pool ==> next[i] == out[i])
  {
    var values := PoolValues(cfg, env, s, out, pool);
    PoolValuesFit(cfg, env, s, out, pool);
    RefillPlaces(out, InPool(cfg, pool), values);
    forall x
      ensures multiset(ReorderPool(cfg, env, s, out, pool))[x] == multiset(out)[x]
    {
      RefillConserves(out, InPool(cfg, pool), values, x);
    }
  }

  lemma ReorderClasses(cfg: Config, env: Env, s: State, out: seq<Req>, pool: string)
    requires Managed(cfg, env, s, pool)
    ensures
      var next := ReorderPool(cfg, env, s, out, pool);
      && SameClasses(cfg, env, s, out, next, pool)
      && Filter(next, InPool(cfg, pool)) == PoolValues(cfg, env, s, out, pool)
  {
    var isResident, isCold := ResidentIn(cfg, env, s.active, pool), ColdIn(cfg, env, s.active, pool);
    var resident, cold, promote := Filter(out, isResident), Filter(out, isCold), Promotes(cfg, env, s, pool);
    FilterMembers(out, isResident);
    FilterMembers(out, isCold);
    PoolValuesFit(cfg, env, s, out, pool);
    var next := ReorderPool(cfg, env, s, out, pool);
    RefillSelected(out, InPool(cfg, pool), PoolValues(cfg, env, s, out, pool));
    OrderedKeeps(resident, cold, promote, isResident, false);
    OrderedKeeps(resident, cold, promote, isCold, true);
    FilterWithin(next, InPool(cfg, pool), isResident);
    FilterWithin(next, InPool(cfg, pool), isCold);
  }

  lemma ReorderOthers(cfg: Config, env: Env, s: State, out: seq<Req>, pool: string, other: string)
    requires Managed(cfg, env, s, pool) && other != pool
    ensures
      var next := ReorderPool(cfg, env, s, out, pool);
      && SameClasses(cfg, env, s, out, next, other)
      && Filter(next, InPool(cfg, other)) == Filter(out, InPool(cfg, other))
  {
    var values, select := PoolValues(cfg, env, s, out, pool), InPool(cfg, pool);
    PoolValuesFit(cfg, env, s, out, pool);
    RefillOthers(out, select, values, ResidentIn(cfg, env, s.active, other));
    RefillOthers(out, select, values, ColdIn(cfg, env, s.active, other));
    RefillOthers(out, select, values, InPool(cfg, other));
  }

  lemma {:induction false} ReorderPoolsIsFair(cfg: Config, env: Env, s: State, queue: seq<Req>, pools: seq<string>)
    requires forall i, j :: 0 <= i < j < |pools| ==> pools[i] != pools[j]
    ensures Fair(cfg, env, s, queue, ReorderPools(cfg, env, s, queue, pools), pools)
  {
    if pools != [] {
      var k := |pools| - 1;
      var before, pool := pools[..k], pools[k];
      ReorderPoolsIsFair(cfg, env, s, queue, before);
      assert pools == before + [pool] && pool !in before;
      var out := ReorderPools(cfg, env, s, queue, before);
      if Managed(cfg, env, s, pool) {
        ReorderPlaces(cfg, env, s, out, pool);
        ReorderClasses(cfg, env, s, out, pool);
        var next := ReorderPool(cfg, env, s, out, pool);
        forall other
          ensures SameClasses(cfg, env, s, queue, next, other)
          ensures other in before && Managed(cfg, env, s, other) ==>
            Filter(next, InPool(cfg, other)) == Filter(out, InPool(cfg, other))
        {
          assert SameClasses(cfg, env, s, queue, out, other);
          if other != pool {
            ReorderOthers(cfg, env, s, out, pool, other);
          }
        }
      }
    }
  }

  /** A drain considers a permutation of the queue in which requests of pools that
      are not resident-first keep their places, each pool's residents and each
      pool's cold requests keep their own order, and in a resident-first pool with
      a cold request waiting the residents come first unless a bound promotes the
      first cold one to the front. */
  lemma FairOrderIsFair(cfg: Config, env: Env, s: State)
    requires cfg.Valid() && |s.queued| >= 2
    ensures Fair(cfg, env, s, s.queued, FairOrder(cfg, env, s), cfg.poolNames)
  {
    forall i, j | 0 <= i < j < |cfg.poolNames|
      ensures cfg.poolNames[i] != cfg.poolNames[j]
    {
      BeforeTotal(cfg.poolNames[i], cfg.poolNames[j]);
    }
    ReorderPoolsIsFair(cfg, env, s, s.queued, cfg.poolNames);
  }

  /** `r`, at place `k`, is chosen among the cold requests: none is older, and those
      before it are younger. */
  ghost predicate ChosenAt(cold: seq<Req>, k: nat, r: Req)
  {
    && k < |cold| && cold[k] == r
    && (forall j :: 0 <= j < |cold| ==> r.queuedAt <= cold[j].queuedAt)
    && forall j :: 0 <= j < k ==> r.queuedAt < cold[j].queuedAt
  }

  ghost predicate IsOldestOf(cold: seq<Req>, oldest: Option<Req>)
  {
    if cold == [] then oldest.None? else oldest.Some? && exists k: nat :: ChosenAt(cold, k, oldest.value)
  }

  lemma {:induction false} OldestColdIsOldest(cfg: Config, env: Env, active: map<string, Swap>, queue: seq<Req>, pool: string)
    ensures IsOldestOf(Filter(queue, ColdIn(cfg, env, active, pool)), OldestCold(cfg, env, active, queue, pool))
  {
    if queue != [] {
      var before, q := queue[..|queue| - 1], queue[|queue| - 1];
      OldestColdIsOldest(cfg, env, active, before, pool);
      var cold := Filter(before, ColdIn(cfg, env, active, pool));
      if ColdIn(cfg, env, active, pool)(q) {
        NextOldest(cold, OldestCold(cfg, env, active, before, pool), q);
      } else {
        assert cold + [] == cold;
      }
    }
  }

  lemma NextOldest(cold: seq<Req>, oldest: Option<Req>, q: Req)
    requires IsOldestOf(cold, oldest)
    ensures IsOldestOf(cold + [q], if oldest.None? || q.queuedAt < oldest.value.queuedAt then Some(q) else oldest)
  {
    if cold == [] {
      assert ChosenAt(cold + [q], 0, q);
    } else {
      var k: nat :| ChosenAt(cold, k, oldest.value);
      if q.queuedAt < oldest.value.queuedAt {
        assert ChosenAt(cold + [q], |cold|, q);
      } else {
        assert ChosenAt(cold + [q], k, oldest.value);
      }
    }
  }

  lemma FairOrderPermutes(cfg: Config, env: Env, s: State)
    requires cfg.Valid()
    ensures multiset(FairOrder(cfg, env, s)) == multiset(s.queued)
  {
    if |s.queued| >= 2 {
      FairOrderIsFair(cfg, env, s);
    }
  }

  lemma {:induction false} NoResidentFirstKeepsOrder(cfg: Config, env: Env, s: State, queue: seq<Req>, pools: seq<string>)
    requires forall p :: p in cfg.pools ==> !cfg.pools[p].residentFirst
    ensures ReorderPools(cfg, env, s, queue, pools) == queue
  {
    if pools != [] {
      NoResidentFirstKeepsOrder(cfg, env, s, queue, pools[..|pools| - 1]);
    }
  }
}
