/** Provider-pool capacity laid over a policy's evictions: just enough of the pool's
    models go, the least wanted first, or none at all when that could not help. */
module LifecyclePlanner {
  import opened Names
  import opened ProviderSpec
  import ProviderManager
  import ProviderReports

  // ---------------------------------------------------------------- who is resident

  predicate Present(s: State, alias: string)
  {
    StateOf(s, alias) != Some(Unloaded) && StateOf(s, alias) != Some(Failed)
  }

  predicate InPool(cfg: Config, s: State, pool: string, alias: string)
  {
    alias in cfg.bindings && cfg.bindings[alias].pool == pool && Present(s, alias)
  }

  function LlmNames(residents: seq<Resident>): set<string>
  {
    set i | 0 <= i < |residents| && IsLlm(residents[i]) :: residents[i].name
  }

  /** The pool's models that occupy its LLM capacity. */
  function PoolLlms(cfg: Config, s: State, pool: string): set<string>
  {
    set a | a in cfg.bindings && InPool(cfg, s, pool, a) && cfg.bindings[a].providerModel in LlmNames(s.residents)
  }

  /** Said of the report and the states: who occupies the pool. */
  lemma WhoOccupies(cfg: Config, s: State, pool: string, a: string)
    ensures a in PoolLlms(cfg, s, pool) <==>
      && a in cfg.bindings && cfg.bindings[a].pool == pool && (a in s.states ==> s.states[a] !in {Unloaded, Failed})
      && exists i :: 0 <= i < |s.residents| && s.residents[i].name == cfg.bindings[a].providerModel && s.residents[i].kind in {"", "llm"}
  {
    if a in cfg.bindings {
      var name := cfg.bindings[a].providerModel;
      if name in LlmNames(s.residents) {
        var i :| 0 <= i < |s.residents| && IsLlm(s.residents[i]) && s.residents[i].name == name;
        assert s.residents[i].kind in {"", "llm"};
      }
      if i :| 0 <= i < |s.residents| && s.residents[i].name == name && s.residents[i].kind in {"", "llm"} {
        assert IsLlm(s.residents[i]);
      }
    }
  }

  method ResidentAliases(cfg: Config, s: State, pool: string) returns (aliases: seq<string>)
    ensures StrictlySorted(aliases) && Elements(aliases) == set a | a in cfg.bindings && InPool(cfg, s, pool, a)
    ensures forall a :: a in aliases <==>
      a in cfg.bindings && cfg.bindings[a].pool == pool && (a in s.states ==> s.states[a] !in {Unloaded, Failed})
  {
    var found := Select(cfg.bindings.Keys, (a: string) => InPool(cfg, s, pool, a));
    assert Elements(found) == set a | a in cfg.bindings && InPool(cfg, s, pool, a);
    aliases := SortStrings(found);
    assert forall a :: a in aliases <==> a in Elements(aliases);
  }

  method ResidentLlmAliases(cfg: Config, s: State, pool: string) returns (aliases: seq<string>)
    ensures StrictlySorted(aliases) && Elements(aliases) == PoolLlms(cfg, s, pool)
  {
    var names := LlmNames(s.residents);
    var wanted := (a: string) => InPool(cfg, s, pool, a) && a in cfg.bindings && cfg.bindings[a].providerModel in names;
    var found := Select(cfg.bindings.Keys, wanted);
    assert Elements(found) == PoolLlms(cfg, s, pool);
    aliases := SortStrings(found);
  }

  /** The names of a set that pass a test, in no particular order, each once. */
  method Select(names: set<string>, wanted: string -> bool) returns (found: seq<string>)
    ensures forall i, j :: 0 <= i < j < |found| ==> found[i] != found[j]
    ensures Elements(found) == set a | a in names && wanted(a)
  {
    found := [];
    var left := names;
    while left != {}
      invariant left <= names
      invariant forall i, j :: 0 <= i < j < |found| ==> found[i] != found[j]
      invariant forall a :: a in found <==> a in names - left && wanted(a)
      decreases |left|
    {
      var a :| a in left;
      left := left - {a};
      if wanted(a) {
        found := found + [a];
      }
    }
  }

  // ------------------------------------------------------------------- preferences

  datatype Candidate = Candidate(id: string, residency: Residency, priority: int)

  /** Transients go first, then larger priority numbers, then later names. */
  predicate GoesFirst(a: Candidate, b: Candidate)
  {
    if a.residency != b.residency then a.residency == Transient
    else if a.priority != b.priority then a.priority > b.priority
    else Before(b.id, a.id)
  }

  predicate Evictable(c: Candidate) { c.residency == Transient || c.residency == Preferred }

  function AsCandidate(cfg: Config, a: string): Candidate
    requires a in cfg.bindings
  {
    Candidate(a, cfg.bindings[a].residency, cfg.bindings[a].priority)
  }

  /** The pool's occupants that the policy keeps and that may be stopped. */
  function Candidates(cfg: Config, s: State, pool: string, policy: set<string>): set<string>
  {
    set a | a in PoolLlms(cfg, s, pool) && a !in policy && Evictable(AsCandidate(cfg, a))
  }

  /** How many more models must go before one fits. */
  function Shortfall(cfg: Config, s: State, target: string, policy: set<string>): int
    requires target in cfg.bindings
  {
    Occupied(s.residents) - |PoolLlms(cfg, s, cfg.bindings[target].pool) * policy| - cfg.PoolOf(target).capacity + 1
  }

  lemma GoesFirstOrder(a: Candidate, b: Candidate, c: Candidate)
    requires Evictable(a) && Evictable(b) && Evictable(c)
    ensures a.id != b.id ==> GoesFirst(a, b) || GoesFirst(b, a)
    ensures GoesFirst(a, b) && GoesFirst(b, c) ==> GoesFirst(a, c)
  {
    BeforeTotal(a.id, b.id);
    if Before(c.id, b.id) && Before(b.id, a.id) {
      BeforeTransitive(c.id, b.id, a.id);
    }
  }

  ghost predicate Ranked(cs: seq<Candidate>)
  {
    && (forall i :: 0 <= i < |cs| ==> Evictable(cs[i]))
    && forall i, j :: 0 <= i < j < |cs| ==> GoesFirst(cs[i], cs[j])
  }

  function Ids(cs: seq<Candidate>): seq<string> { seq(|cs|, i requires 0 <= i < |cs| => cs[i].id) }

  /** The list ranks the models of `ids`, each once, by the configuration. */
  ghost predicate Ranks(cfg: Config, cs: seq<Candidate>, ids: set<string>)
  {
    && Ranked(cs) && Elements(Ids(cs)) == ids
    && forall i :: 0 <= i < |cs| ==> cs[i].id in cfg.bindings && cs[i] == AsCandidate(cfg, cs[i].id)
  }

  lemma {:induction false} RanksSize(cfg: Config, cs: seq<Candidate>, ids: set<string>)
    requires Ranks(cfg, cs, ids)
    ensures |cs| == |ids|
  {
    if cs == [] {
      assert ids == {};
    } else {
      var k := |cs| - 1;
      assert Ids(cs) == Ids(cs[..k]) + [cs[k].id];
      forall i | 0 <= i < k
        ensures cs[i].id != cs[k].id
      {
        BeforeTotal(cs[i].id, cs[k].id);
        assert GoesFirst(cs[i], cs[k]);
      }
      assert forall i :: 0 <= i < k ==> Ids(cs[..k])[i] != cs[k].id;
      assert Elements(Ids(cs[..k])) == ids - {cs[k].id};
      assert cs[k].id in Elements(Ids(cs));
      RanksSize(cfg, cs[..k], ids - {cs[k].id});
    }
  }

  method Insert(cfg: Config, cs: seq<Candidate>, id: string, ghost ids: set<string>) returns (out: seq<Candidate>)
    requires Ranks(cfg, cs, ids) && id !in ids && id in cfg.bindings && Evictable(AsCandidate(cfg, id))
    ensures Ranks(cfg, out, ids + {id})
  {
    var c := AsCandidate(cfg, id);
    var j := 0;
    while j < |cs| && GoesFirst(cs[j], c)
      invariant j <= |cs| && forall i :: 0 <= i < j ==> GoesFirst(cs[i], c)
    {
      j := j + 1;
    }
    out := cs[..j] + [c] + cs[j..];
    InsertRanks(cs, c, j);
    InsertIds(cs, c, j);
  }

  lemma InsertRanks(cs: seq<Candidate>, c: Candidate, j: nat)
    requires Ranked(cs) && Evictable(c) && c.id !in Ids(cs) && j <= |cs|
    requires forall i :: 0 <= i < j ==> GoesFirst(cs[i], c)
    requires j < |cs| ==> !GoesFirst(cs[j], c)
    ensures Ranked(cs[..j] + [c] + cs[j..])
  {
    forall i | j <= i < |cs|
      ensures GoesFirst(c, cs[i])
    {
      assert Ids(cs)[j] in Ids(cs);
      GoesFirstOrder(cs[j], c, c);
      GoesFirstOrder(c, cs[j], cs[i]);
    }
  }

  lemma InsertIds(cs: seq<Candidate>, c: Candidate, j: nat)
    requires j <= |cs|
    ensures Elements(Ids(cs[..j] + [c] + cs[j..])) == Elements(Ids(cs)) + {c.id}
  {
    var out := cs[..j] + [c] + cs[j..];
    assert Ids(out) == Ids(cs[..j]) + [c.id] + Ids(cs[j..]);
    assert Ids(cs) == Ids(cs[..j]) + Ids(cs[j..]);
  }

  // --------------------------------------------------------------------- evictions

  /** Nothing when there is room or when not enough may go, and otherwise as many as
      are missing, first of the ranked candidates. */
  ghost predicate Chooses(cfg: Config, candidates: set<string>, need: int, extra: seq<string>)
  {
    if need <= 0 || need > |candidates| then extra == []
    else exists cs :: Ranks(cfg, cs, candidates) && need <= |cs| && extra == Ids(cs)[..need]
  }

  /** What the planner adds to the policy's evictions: nothing for a model that is not
      the provider's or is resident already. */
  ghost predicate Adds(cfg: Config, s: State, target: string, policy: set<string>, extra: seq<string>)
  {
    if target !in cfg.bindings || InPool(cfg, s, cfg.bindings[target].pool, target) then extra == []
    else Chooses(cfg, Candidates(cfg, s, cfg.bindings[target].pool, policy), Shortfall(cfg, s, target, policy), extra)
  }

  method EvictionFor(cfg: Config, s: State, target: string, policyEvictions: seq<string>) returns (evictions: seq<string>)
    ensures policyEvictions <= evictions
    ensures
      var extra := evictions[|policyEvictions|..];
      && Adds(cfg, s, target, Elements(policyEvictions), extra)
      && (target in cfg.bindings ==> LeastWanted(cfg, s, cfg.bindings[target].pool, Elements(policyEvictions), extra))
  {
    evictions := policyEvictions;
    if target !in cfg.bindings {
      return;
    }
    var residents := ResidentAliases(cfg, s, cfg.bindings[target].pool);
    assert target in Elements(residents) <==> InPool(cfg, s, cfg.bindings[target].pool, target);
    if target in residents {
      return;
    }
    var extra := Overlay(cfg, s, target, policyEvictions);
    evictions := policyEvictions + extra;
    AddsLeastWanted(cfg, s, target, Elements(policyEvictions), extra);
    assert evictions[|policyEvictions|..] == extra;
  }

  lemma ListedLlms(cfg: Config, s: State, pool: string, residentLlms: seq<string>, policy: seq<string>)
    requires Elements(residentLlms) == PoolLlms(cfg, s, pool)
    ensures Eligible(cfg, residentLlms, policy) == Candidates(cfg, s, pool, Elements(policy))
    ensures forall a :: a in Elements(residentLlms) ==> a in cfg.bindings
  {
    assert forall a :: a in residentLlms <==> a in PoolLlms(cfg, s, pool);
  }

  method Overlay(cfg: Config, s: State, target: string, policy: seq<string>) returns (extra: seq<string>)
    requires target in cfg.bindings
    ensures
      Chooses(cfg, Candidates(cfg, s, cfg.bindings[target].pool, Elements(policy)),
              Shortfall(cfg, s, target, Elements(policy)), extra)
  {
    var pool := cfg.bindings[target].pool;
    var residentLlms := ResidentLlmAliases(cfg, s, pool);
    ListedLlms(cfg, s, pool, residentLlms, policy);
    var total: int := ProviderManager.CountLlms(s.residents);
    var gone := CountEvicted(residentLlms, policy);
    extra := MakeRoom(cfg, residentLlms, policy, total - gone, cfg.PoolOf(target).capacity);
  }

  /** The first candidates by rank, as many as are missing, if there are so many. */
  method MakeRoom(cfg: Config, residentLlms: seq<string>, policy: seq<string>, occupied: int, capacity: int)
    returns (extra: seq<string>)
    requires StrictlySorted(residentLlms) && forall a :: a in Elements(residentLlms) ==> a in cfg.bindings
    ensures Chooses(cfg, Eligible(cfg, residentLlms, policy), occupied - capacity + 1, extra)
  {
    extra := [];
    if occupied < capacity {
      return;
    }
    assert forall i :: 0 <= i < |residentLlms| ==> residentLlms[i] in Elements(residentLlms);
    var candidates := Rank(cfg, residentLlms, policy);
    RanksSize(cfg, candidates, Eligible(cfg, residentLlms, policy));
    var need := occupied - capacity + 1;
    if need > |candidates| {
      return;
    }
    for i := 0 to need
      invariant extra == Ids(candidates)[..i]
    {
      extra := extra + [candidates[i].id];
    }
  }

  method CountEvicted(residentLlms: seq<string>, policy: seq<string>) returns (n: nat)
    requires StrictlySorted(residentLlms)
    ensures n == |Elements(residentLlms) * Elements(policy)|
  {
    n := 0;
    for i := 0 to |residentLlms|
      invariant n == |Elements(residentLlms[..i]) * Elements(policy)|
    {
      var id := residentLlms[i];
      SortedPrefix(residentLlms, i);
      assert Elements(residentLlms[..i + 1]) * Elements(policy) ==
        Elements(residentLlms[..i]) * Elements(policy) + if id in policy then {id} else {};
      if id in policy {
        n := n + 1;
      }
    }
    assert residentLlms[..|residentLlms|] == residentLlms;
  }

  lemma SortedPrefix(xs: seq<string>, i: nat)
    requires StrictlySorted(xs) && i < |xs|
    ensures xs[..i + 1] == xs[..i] + [xs[i]] && xs[i] !in xs[..i]
  {
    BeforeTotal(xs[i], xs[i]);
  }

  function Eligible(cfg: Config, xs: seq<string>, policy: seq<string>): set<string>
  {
    set a | a in xs && a in cfg.bindings && a !in policy && Evictable(AsCandidate(cfg, a))
  }

  method Rank(cfg: Config, residentLlms: seq<string>, policy: seq<string>) returns (candidates: seq<Candidate>)
    requires StrictlySorted(residentLlms) && forall i :: 0 <= i < |residentLlms| ==> residentLlms[i] in cfg.bindings
    ensures Ranks(cfg, candidates, Eligible(cfg, residentLlms, policy))
  {
    candidates := [];
    for i := 0 to |residentLlms|
      invariant Ranks(cfg, candidates, Eligible(cfg, residentLlms[..i], policy))
    {
      var id := residentLlms[i];
      SortedPrefix(residentLlms, i);
      var residency := cfg.bindings[id].residency;
      ghost var before := Eligible(cfg, residentLlms[..i], policy);
      if id in policy || residency == HardPinned || residency == External {
        assert Eligible(cfg, residentLlms[..i + 1], policy) == before;
        continue;
      }
      assert Eligible(cfg, residentLlms[..i + 1], policy) == before + {id};
      candidates := Insert(cfg, candidates, id, before);
    }
    assert residentLlms[..|residentLlms|] == residentLlms;
  }

  // ----------------------------------------------------------------------- results

  lemma ChosenGoFirst(cfg: Config, candidates: set<string>, need: int, extra: seq<string>)
    requires Chooses(cfg, candidates, need, extra) && candidates <= cfg.bindings.Keys
    ensures forall i, j :: 0 <= i < j < |extra| ==> extra[i] != extra[j]
    ensures Elements(extra) <= candidates
    ensures forall a, b :: a in extra && b !in extra && b in candidates ==> GoesFirst(AsCandidate(cfg, a), AsCandidate(cfg, b))
  {
    if extra != [] {
      var cs: seq<Candidate> :| Ranks(cfg, cs, candidates) && need <= |cs| && extra == Ids(cs)[..need];
      assert forall k :: 0 <= k < |cs| ==> Ids(cs)[k] in Elements(Ids(cs)) && Ids(cs)[k] == cs[k].id;
      assert forall k :: 0 <= k < need ==> extra[k] == cs[k].id;
      RankedApart(cfg, cs, candidates);
      forall a, b | a in extra && b !in extra && b in candidates
        ensures GoesFirst(AsCandidate(cfg, a), AsCandidate(cfg, b))
      {
        var i :| 0 <= i < need && extra[i] == a;
        assert b in Elements(Ids(cs));
        var j :| 0 <= j < |cs| && Ids(cs)[j] == b;
        assert GoesFirst(cs[i], cs[j]);
      }
    }
  }

  lemma RankedApart(cfg: Config, cs: seq<Candidate>, ids: set<string>)
    requires Ranks(cfg, cs, ids)
    ensures forall i, j :: 0 <= i < j < |cs| ==> cs[i].id != cs[j].id
  {
    forall i, j | 0 <= i < j < |cs|
      ensures cs[i].id != cs[j].id
    {
      BeforeTotal(cs[i].id, cs[j].id);
      assert GoesFirst(cs[i], cs[j]);
    }
  }

  /** An occupant of the pool that the policy keeps and that may be stopped. */
  ghost predicate MayGo(cfg: Config, s: State, pool: string, policy: set<string>, a: string)
  {
    a in PoolLlms(cfg, s, pool) && a !in policy && cfg.bindings[a].residency in {Transient, Preferred}
  }

  /** Of two models, `b` stays only if `a` is no more wanted: a preferred model goes only
      when no transient is left, and among equals the larger priority number goes first,
      then the later name. */
  ghost predicate NoMoreWanted(cfg: Config, a: string, b: string)
    requires a in cfg.bindings && b in cfg.bindings
  {
    var x, y := cfg.bindings[a], cfg.bindings[b];
    && (x.residency == Preferred ==> y.residency != Transient)
    && (x.residency == y.residency ==> y.priority <= x.priority && (x.priority == y.priority ==> Before(b, a)))
  }

  /** The models added are distinct occupants of the pool's LLM capacity that the
      policy kept, never hard-pinned or external; and whatever evictable occupant is
      spared is wanted at least as much as each of them. */
  ghost predicate LeastWanted(cfg: Config, s: State, pool: string, policy: set<string>, extra: seq<string>)
  {
    && (forall i, j :: 0 <= i < j < |extra| ==> extra[i] != extra[j])
    && (forall a :: a in extra ==> MayGo(cfg, s, pool, policy, a))
    && forall a, b :: a in extra && b !in extra && MayGo(cfg, s, pool, policy, b) ==> NoMoreWanted(cfg, a, b)
  }

  lemma AddsLeastWanted(cfg: Config, s: State, target: string, policy: set<string>, extra: seq<string>)
    requires target in cfg.bindings && Adds(cfg, s, target, policy, extra)
    ensures LeastWanted(cfg, s, cfg.bindings[target].pool, policy, extra)
  {
    if extra != [] {
      var pool := cfg.bindings[target].pool;
      var candidates := Candidates(cfg, s, pool, policy);
      CandidatesMayGo(cfg, s, pool, policy);
      ChosenGoFirst(cfg, candidates, Shortfall(cfg, s, target, policy), extra);
      assert forall a :: a in extra ==> a in candidates;
    }
  }

  lemma CandidatesMayGo(cfg: Config, s: State, pool: string, policy: set<string>)
    ensures Candidates(cfg, s, pool, policy) == set a | a in cfg.bindings && MayGo(cfg, s, pool, policy, a)
  {
  }

  /** How many are added: none for a model that is not the provider's or is there already;
      otherwise as many as are missing before one more LLM fits into the pool, or none
      when none is missing or not so many may go. */
  lemma AddsExactlyAsMany(cfg: Config, s: State, target: string, policy: set<string>, extra: seq<string>)
    requires Adds(cfg, s, target, policy, extra)
    ensures
      if target !in cfg.bindings || InPool(cfg, s, cfg.bindings[target].pool, target) then extra == []
      else
        var pool := cfg.bindings[target].pool;
        var missing := |set i | 0 <= i < |s.residents| && s.residents[i].kind in {"", "llm"}|
          - |PoolLlms(cfg, s, pool) * policy| + 1 - cfg.PoolOf(target).capacity;
        |extra| == if 0 < missing <= |set a | a in cfg.bindings && MayGo(cfg, s, pool, policy, a)| then missing else 0
  {
    if target in cfg.bindings {
      CandidatesMayGo(cfg, s, cfg.bindings[target].pool, policy);
      ProviderReports.OccupiedCounts(s.residents);
    }
  }

  /** A health report without the models of these names. */
  function Without(residents: seq<Resident>, names: set<string>): seq<Resident>
  {
    if residents == [] then []
    else
      var r := residents[|residents| - 1];
      Without(residents[..|residents| - 1], names) + (if r.name in names then [] else [r])
  }

  lemma OccupiedStep(residents: seq<Resident>, r: Resident)
    ensures Occupied(residents + [r]) == Occupied(residents) + (if IsLlm(r) then 1 else 0)
    ensures LlmNames(residents + [r]) == LlmNames(residents) + (if IsLlm(r) then {r.name} else {})
  {
    assert (residents + [r])[..|residents|] == residents;
    forall name
      ensures name in LlmNames(residents + [r]) <==> name in LlmNames(residents) || (IsLlm(r) && name == r.name)
    {
      if name in LlmNames(residents) {
        var i :| 0 <= i < |residents| && IsLlm(residents[i]) && residents[i].name == name;
        assert (residents + [r])[i] == residents[i];
      }
      if IsLlm(r) && name == r.name {
        assert (residents + [r])[|residents|] == r;
      }
    }
  }

  lemma WithoutStep(before: seq<Resident>, r: Resident, names: set<string>)
    ensures Occupied(Without(before + [r], names)) ==
      Occupied(Without(before, names)) + (if IsLlm(r) && r.name !in names then 1 else 0)
  {
    assert (before + [r])[..|before|] == before;
    OccupiedStep(Without(before, names), r);
    assert Without(before, names) + [] == Without(before, names);
  }

  lemma FreedStep(names: set<string>, llms: set<string>, name: string)
    ensures |names * (llms + {name})| <= |names * llms| + (if name in names then 1 else 0)
  {
    if name in names && name !in llms {
      assert names * (llms + {name}) == names * llms + {name};
    } else {
      assert names * (llms + {name}) == names * llms;
    }
  }

  /** Every name that goes frees at least one slot. */
  lemma {:induction false} WithoutFrees(residents: seq<Resident>, names: set<string>)
    ensures Occupied(Without(residents, names)) + |names * LlmNames(residents)| <= Occupied(residents)
  {
    if residents == [] {
      assert names * LlmNames(residents) == {};
    } else {
      var before, r := residents[..|residents| - 1], residents[|residents| - 1];
      assert residents == before + [r];
      WithoutFrees(before, names);
      OccupiedStep(before, r);
      WithoutStep(before, r, names);
      FreedStep(names, LlmNames(before), r.name);
    }
  }

  /** No two aliases of the provider stand for the same model. */
  ghost predicate DistinctModels(cfg: Config)
  {
    forall a, b :: a in cfg.bindings && b in cfg.bindings && a != b ==>
      cfg.bindings[a].providerModel != cfg.bindings[b].providerModel
  }

  function Models(cfg: Config, aliases: set<string>): set<string>
  {
    set a | a in aliases && a in cfg.bindings :: cfg.bindings[a].providerModel
  }

  lemma {:induction false} ModelsSize(cfg: Config, aliases: set<string>)
    requires DistinctModels(cfg) && aliases <= cfg.bindings.Keys
    ensures |Models(cfg, aliases)| == |aliases|
  {
    if aliases == {} {
      assert Models(cfg, aliases) == {};
    } else {
      var a :| a in aliases;
      ModelsSize(cfg, aliases - {a});
      assert Models(cfg, aliases) == Models(cfg, aliases - {a}) + {cfg.bindings[a].providerModel};
    }
  }

  /** The evicted occupants of the pool free as many slots as they are. */
  lemma EvictionsFree(cfg: Config, s: State, pool: string, policy: seq<string>, extra: seq<string>)
    requires DistinctModels(cfg) && forall i, j :: 0 <= i < j < |extra| ==> extra[i] != extra[j]
    requires forall a :: a in extra ==> a in PoolLlms(cfg, s, pool) && a !in policy
    ensures
      var left := Without(s.residents, Models(cfg, Elements(policy + extra)));
      Occupied(left) + |PoolLlms(cfg, s, pool) * Elements(policy)| + |extra| <= Occupied(s.residents)
  {
    var byPolicy := PoolLlms(cfg, s, pool) * Elements(policy);
    var evicted := byPolicy + Elements(extra);
    DistinctSize(extra);
    assert byPolicy !! Elements(extra);
    assert |evicted| == |byPolicy| + |extra|;
    var all, names := Models(cfg, Elements(policy + extra)), Models(cfg, evicted);
    ModelsSize(cfg, evicted);
    WithoutFrees(s.residents, all);
    forall n | n in names
      ensures n in all && n in LlmNames(s.residents)
    {
      var a :| a in evicted && a in cfg.bindings && cfg.bindings[a].providerModel == n;
      assert a in Elements(policy + extra);
    }
    SubsetSize(names, all * LlmNames(s.residents));
  }

  /** Enough: once the evicted models, and only those, are gone, loading the target
      passes its occupancy test, whenever the shortfall could be met. */
  lemma RoomAfterwards(cfg: Config, s: State, target: string, policy: seq<string>, extra: seq<string>)
    requires DistinctModels(cfg) && target in cfg.bindings && !InPool(cfg, s, cfg.bindings[target].pool, target)
    requires Adds(cfg, s, target, Elements(policy), extra)
    requires
      var pool := cfg.bindings[target].pool;
      Shortfall(cfg, s, target, Elements(policy)) <= |Candidates(cfg, s, pool, Elements(policy))|
    ensures
      var left := Without(s.residents, Models(cfg, Elements(policy + extra)));
      && Occupied(left) < cfg.PoolOf(target).capacity
      && forall now: State ::
           now.residents == left && StateOf(now, target) != Some(Ready) && cfg.ResidencyOf(target) != Some(External) ==>
           LoadDecision(cfg, now, target, LoadDeciding).op == Load(target, LoadMarking)
  {
    AddsLeastWanted(cfg, s, target, Elements(policy), extra);
    EvictionsFree(cfg, s, cfg.bindings[target].pool, policy, extra);
    AddsEnough(cfg, s, target, Elements(policy), extra);
  }

  lemma AddsEnough(cfg: Config, s: State, target: string, policy: set<string>, extra: seq<string>)
    requires target in cfg.bindings && !InPool(cfg, s, cfg.bindings[target].pool, target)
    requires Adds(cfg, s, target, policy, extra)
    requires Shortfall(cfg, s, target, policy) <= |Candidates(cfg, s, cfg.bindings[target].pool, policy)|
    ensures |extra| >= Shortfall(cfg, s, target, policy)
    ensures extra != [] ==> |extra| == Shortfall(cfg, s, target, policy)
  {
  }

  lemma {:induction false} DistinctSize(xs: seq<string>)
    requires forall i, j :: 0 <= i < j < |xs| ==> xs[i] != xs[j]
    ensures |Elements(xs)| == |xs|
  {
    if xs != [] {
      var k := |xs| - 1;
      DistinctSize(xs[..k]);
      assert Elements(xs) == Elements(xs[..k]) + {xs[k]};
    }
  }

  lemma {:induction false} SubsetSize(a: set<string>, b: set<string>)
    requires a <= b
    ensures |a| <= |b|
  {
    if a != {} {
      var x :| x in a;
      SubsetSize(a - {x}, b - {x});
    }
  }
}
