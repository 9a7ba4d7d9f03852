/** The provider registry and the candidate chain built for a request. */
module Routing {
  import opened Wrappers
  import opened Candidates

  // ----- the registry -----

  type Providers = map<string, Provider>

  /** Every adapter sits under its own `ID()`. */
  predicate Keyed(m: Providers) {
    forall id :: id in m ==> m[id].id == id
  }

  class Registry {
    var providers: Providers

    constructor ()
      ensures providers == map[] && Keyed(providers)
    {
      providers := map[];
    }

    method Register(p: Provider)
      requires Keyed(providers)
      modifies this
      ensures providers == old(providers)[p.id := p] && Keyed(providers)
    {
      providers := providers[p.id := p];
    }

    method Get(id: string) returns (p: Option<Provider>)
      ensures p == if id in providers then Some(providers[id]) else None
    {
      if id in providers {
        p := Some(providers[id]);
      } else {
        p := None;
      }
    }

    /** Go iterates a map in no fixed order: each adapter comes exactly once, anywhere. */
    method All() returns (list: seq<Provider>)
      requires Keyed(providers)
      ensures |list| == |providers|
      ensures forall p :: p in list <==> p.id in providers && providers[p.id] == p
    {
      list := [];
      var left := providers.Keys;
      while left != {}
        invariant left <= providers.Keys && |list| + |left| == |providers|
        invariant forall p :: p in list <==> p.id in providers && p.id !in left && providers[p.id] == p
        decreases |left|
      {
        var id :| id in left;
        list := list + [providers[id]];
        left := left - {id};
      }
    }
  }

  // ----- what a request asks for -----

  const GEMINI := "gemini"
  const OPENAI := "openai"
  const ANTHROPIC := "anthropic"

  /** The models the pools are made of. */
  datatype PoolModel = Flash36 | Flash37 | Gpt4o | Gpt4oMini | Haiku | Sonnet {
    function Owner(): string {
      if Flash36? || Flash37? then GEMINI else if Gpt4o? || Gpt4oMini? then OPENAI else ANTHROPIC
    }

    function Name(): string {
      match this
      case Flash36 => "gemini-3.6-flash"
      case Flash37 => "gemini-3.7-flash"
      case Gpt4o => "gpt-4o"
      case Gpt4oMini => "gpt-4o-mini"
      case Haiku => "claude-3-haiku-20240307"
      case Sonnet => "claude-3-5-sonnet-20241022"
    }
  }

  const FAST_MODELS := [Flash36, Gpt4oMini, Haiku]
  const SMART_MODELS := [Gpt4o, Sonnet, Flash37]

  /** The branch of the model switch that a model string takes. */
  datatype Wanted = Auto | Explore | Build | Reason | Review | Pinned(family: string) | Named

  function Classify(model: string): Wanted {
    if model == "" || model == "auto" then Auto
    else if model == "explore" || model == "cheap" || model == "fast" then Explore
    else if model == "build" then Build
    else if model == "reason" || model == "smart" || model == "quality" then Reason
    else if model == "review" then Review
    else if "claude-" <= model then Pinned(ANTHROPIC)
    else if "gemini-" <= model then Pinned(GEMINI)
    else if "gpt-" <= model then Pinned(OPENAI)
    else Named
  }

  datatype PolicyCandidate = PolicyCandidate(provider: string, model: string)

  // ----- the chain -----

  function Offer(m: Providers, id: string, model: string, tier: Tier): seq<Candidate> {
    if id in m then [Candidate(m[id], id, model, tier)] else []
  }

  /** The pool entries whose provider is registered, in order. */
  function Offers(m: Providers, models: seq<PoolModel>, tier: Tier): seq<Candidate> {
    if models == [] then []
    else Offer(m, models[0].Owner(), models[0].Name(), tier) + Offers(m, models[1..], tier)
  }

  function FastPool(m: Providers): seq<Candidate> {
    Offers(m, FAST_MODELS, Fast)
  }

  function SmartPool(m: Providers): seq<Candidate> {
    Offers(m, SMART_MODELS, Smart)
  }

  /** Which pool leads; the other one is the safety net. */
  predicate SmartLeads(w: Wanted, complexity: real) {
    match w
    case Auto => complexity >= 0.4
    case Explore => false
    case Pinned(family) => family != GEMINI
    case Named => false
    case _ => true
  }

  function Pools(m: Providers, smartFirst: bool): seq<Candidate> {
    if smartFirst then SmartPool(m) + FastPool(m) else FastPool(m) + SmartPool(m)
  }

  /** The candidate a pinned or directly named model puts in front. */
  function Lead(m: Providers, w: Wanted, model: string): seq<Candidate> {
    match w
    case Pinned(family) => Offer(m, family, model, Primary)
    case Named => Offer(m, model, model, Primary)
    case _ => []
  }

  function Chain(m: Providers, w: Wanted, model: string, complexity: real): seq<Candidate> {
    Lead(m, w, model) + Pools(m, SmartLeads(w, complexity))
  }

  /** The candidates without a usable policy; `any` is the adapter that `All()` happened to list first. */
  ghost function Automatic(m: Providers, w: Wanted, model: string, complexity: real, any: Provider): seq<Candidate> {
    var chain := Dedup(Chain(m, w, model, complexity));
    if chain == [] then [Candidate(any, any.id, Flash36.Name(), Fallback)] else chain
  }

  function FromPolicy(m: Providers, wanted: seq<PolicyCandidate>): seq<Candidate> {
    if wanted == [] then []
    else
      var n := |wanted| - 1;
      FromPolicy(m, wanted[..n])
      + Offer(m, wanted[n].provider, wanted[n].model, if n == 0 then Primary else PolicyFallback)
  }

  predicate UsablePolicy(m: Providers, policy: Option<seq<PolicyCandidate>>) {
    policy.Some? && FromPolicy(m, policy.value) != []
  }

  /** A chain `RoutePlan` may answer: a policy takes over as soon as one of its providers is registered. */
  ghost predicate IsPlan(m: Providers, model: string, policy: Option<seq<PolicyCandidate>>, complexity: real,
                         candidates: seq<Candidate>)
  {
    if UsablePolicy(m, policy) then candidates == FromPolicy(m, policy.value)
    else exists any :: any in m.Values && candidates == Automatic(m, Classify(model), model, complexity, any)
  }

  /** The decision returned by `RoutePlan`; `custom` tells a policy plan from a dynamic one. */
  datatype Decision = Decision(custom: bool, selectedModel: string, providerId: string, candidates: seq<Candidate>)

  class Engine {
    const providerReg: Registry

    constructor (reg: Registry)
      ensures providerReg == reg
    {
      providerReg := reg;
    }

    /** `None` stands for the provider-unavailable error; `complexity` is the score of an auto request. */
    method RoutePlan(model: string, policy: Option<seq<PolicyCandidate>>, complexity: real)
      returns (r: Option<Decision>)
      requires Keyed(providerReg.providers)
      ensures r.None? <==> providerReg.providers == map[]
      ensures r.Some? ==> IsPlan(providerReg.providers, model, policy, complexity, r.value.candidates)
      ensures r.Some? ==>
        && r.value.candidates != []
        && r.value.selectedModel == r.value.candidates[0].model
        && r.value.providerId == r.value.candidates[0].providerId
      ensures r.Some? ==> (r.value.custom <==> UsablePolicy(providerReg.providers, policy))
    {
      var all := providerReg.All();
      if |all| == 0 {
        return None;
      }
      assert all[0] in all;
      var candidates: seq<Candidate> := [];
      if policy.Some? {
        candidates := PolicyChain(policy.value);
      }
      var custom := |candidates| > 0;
      if !custom {
        candidates := DynamicPlan(model, complexity, all[0]);
      }
      r := Some(Decision(custom, candidates[0].model, candidates[0].providerId, candidates));
    }

    /** The chain without a usable policy. */
    method DynamicPlan(model: string, complexity: real, any: Provider) returns (candidates: seq<Candidate>)
      ensures candidates == Automatic(providerReg.providers, Classify(model), model, complexity, any)
      ensures candidates != []
    {
      var chain := DynamicChain(Classify(model), model, complexity);
      candidates := DeduplicateCandidates(chain);
      if |candidates| == 0 {
        candidates := [Candidate(any, any.id, Flash36.Name(), Fallback)];
      }
    }

    /** The policy loop: registered candidates, in the policy's order. */
    method PolicyChain(wanted: seq<PolicyCandidate>) returns (candidates: seq<Candidate>)
      ensures candidates == FromPolicy(providerReg.providers, wanted)
    {
      candidates := [];
      for i := 0 to |wanted|
        invariant candidates == FromPolicy(providerReg.providers, wanted[..i])
      {
        assert wanted[..i + 1][..i] == wanted[..i];
        var p := providerReg.Get(wanted[i].provider);
        if p.Some? {
          var tier := if i > 0 then PolicyFallback else Primary;
          candidates := candidates + [Candidate(p.value, wanted[i].provider, wanted[i].model, tier)];
        }
      }
      assert wanted[..|wanted|] == wanted;
    }

    /** The pools and the model switch. */
    method DynamicChain(w: Wanted, model: string, complexity: real) returns (candidates: seq<Candidate>)
      ensures candidates == Chain(providerReg.providers, w, model, complexity)
    {
      var fastPool := FastPool(providerReg.providers);
      var smartPool := SmartPool(providerReg.providers);
      candidates := [];
      match w {
        case Auto =>
          if complexity >= 0.4 {
            candidates := smartPool + fastPool;
          } else {
            candidates := fastPool + smartPool;
          }
        case Explore =>
          candidates := fastPool + smartPool;
        case Pinned(family) =>
          candidates := Offer(providerReg.providers, family, model, Primary);
          if family == GEMINI {
            candidates := candidates + (fastPool + smartPool);
          } else {
            candidates := candidates + (smartPool + fastPool);
          }
        case Named =>
          candidates := Offer(providerReg.providers, model, model, Primary) + (fastPool + smartPool);
        case _ =>
          candidates := smartPool + fastPool;
      }
    }
  }

  // ----- what every plan guarantees -----

  ghost predicate Registered(m: Providers, c: Candidate) {
    c.providerId in m && m[c.providerId] == c.provider
  }

  lemma {:induction false} OffersRegistered(m: Providers, models: seq<PoolModel>, tier: Tier)
    ensures forall c :: c in Offers(m, models, tier) ==> Registered(m, c)
  {
    if models != [] {
      OffersRegistered(m, models[1..], tier);
    }
  }

  lemma ChainRegistered(m: Providers, w: Wanted, model: string, complexity: real)
    ensures forall c :: c in Chain(m, w, model, complexity) ==> Registered(m, c)
  {
    OffersRegistered(m, FAST_MODELS, Fast);
    OffersRegistered(m, SMART_MODELS, Smart);
    assert forall c :: c in Lead(m, w, model) ==> Registered(m, c);
  }

  lemma {:induction false} PolicyRegistered(m: Providers, wanted: seq<PolicyCandidate>)
    ensures forall c :: c in FromPolicy(m, wanted) ==> Registered(m, c)
  {
    if wanted != [] {
      PolicyRegistered(m, wanted[..|wanted| - 1]);
    }
  }

  lemma AutomaticIsRunnable(m: Providers, w: Wanted, model: string, complexity: real, any: Provider)
    requires Keyed(m) && any in m.Values
    ensures Automatic(m, w, model, complexity, any) != []
    ensures forall c :: c in Automatic(m, w, model, complexity, any) ==> Registered(m, c)
  {
    ChainRegistered(m, w, model, complexity);
    DedupKeys(Chain(m, w, model, complexity));
    assert any.id in m;
  }

  /** A plan is never empty and only calls registered adapters under their own ids. */
  lemma PlanIsRunnable(m: Providers, model: string, policy: Option<seq<PolicyCandidate>>, complexity: real,
                       candidates: seq<Candidate>)
    requires Keyed(m) && IsPlan(m, model, policy, complexity, candidates)
    ensures candidates != []
    ensures forall c :: c in candidates ==> Registered(m, c) && c.provider.id == c.providerId
  {
    if UsablePolicy(m, policy) {
      PolicyRegistered(m, policy.value);
    } else {
      var any :| any in m.Values && candidates == Automatic(m, Classify(model), model, complexity, any);
      AutomaticIsRunnable(m, Classify(model), model, complexity, any);
    }
  }

  /** Without a usable policy no candidate is tried twice. */
  lemma AutomaticIsDistinct(m: Providers, w: Wanted, model: string, complexity: real, any: Provider)
    ensures DistinctKeys(Automatic(m, w, model, complexity, any))
  {
    DedupKeys(Chain(m, w, model, complexity));
  }

  // ----- every pool candidate is reached -----

  ghost predicate InPools(m: Providers, c: Candidate) {
    c in FastPool(m) || c in SmartPool(m)
  }

  lemma OwnerHasNoColon(p: PoolModel)
    ensures ':' !in p.Owner()
  {
  }

  lemma NameHasNoColon(p: PoolModel)
    ensures ':' !in p.Name()
  {
  }

  lemma {:induction false} OffersHaveNoColon(m: Providers, models: seq<PoolModel>, tier: Tier)
    ensures forall c :: c in Offers(m, models, tier) ==> ':' !in c.providerId && ':' !in c.model
  {
    if models != [] {
      OwnerHasNoColon(models[0]);
      NameHasNoColon(models[0]);
      OffersHaveNoColon(m, models[1..], tier);
    }
  }

  lemma PoolHasNoColon(m: Providers, c: Candidate)
    requires InPools(m, c)
    ensures ':' !in c.providerId && ':' !in c.model && Registered(m, c)
  {
    OffersHaveNoColon(m, FAST_MODELS, Fast);
    OffersHaveNoColon(m, SMART_MODELS, Smart);
    OffersRegistered(m, FAST_MODELS, Fast);
    OffersRegistered(m, SMART_MODELS, Smart);
  }

  lemma KeptTwin(chain: seq<Candidate>, c: Candidate) returns (d: Candidate)
    requires c in chain
    ensures d in Dedup(chain) && d in chain && d.Key() == c.Key()
  {
    DedupKeys(chain);
    var j :| 0 <= j < |chain| && chain[j] == c;
    assert HasKey(chain, c.Key());
    var k :| 0 <= k < |Dedup(chain)| && Dedup(chain)[k].Key() == c.Key();
    d := Dedup(chain)[k];
  }

  /** Whatever model was asked for, each registered pool candidate is in the chain. */
  lemma EveryPoolCandidateIsPlanned(
    m: Providers, w: Wanted, model: string, complexity: real, any: Provider, c: Candidate)
    requires InPools(m, c)
    ensures exists d :: d in Automatic(m, w, model, complexity, any) && d.Same(c) && d.provider == c.provider
  {
    var chain := Chain(m, w, model, complexity);
    ChainRegistered(m, w, model, complexity);
    PoolHasNoColon(m, c);
    var d := KeptTwin(chain, c);
    ColonFreeKey(c, d);
  }

  // ----- the exact order of a dynamic plan -----

  lemma NamesDiffer(p: PoolModel, q: PoolModel)
    requires p.Name() == q.Name()
    ensures p == q
  {
    assert Flash36.Name()[9] == '6' && Flash37.Name()[9] == '7';
  }

  ghost predicate Entry(c: Candidate, p: PoolModel) {
    c.providerId == p.Owner() && c.model == p.Name()
  }

  lemma EntriesDiffer(c: Candidate, p: PoolModel, d: Candidate, q: PoolModel)
    requires Entry(c, p) && Entry(d, q) && p != q
    ensures c.Key() != d.Key()
  {
    OwnerHasNoColon(p);
    NameHasNoColon(p);
    ColonFreeKey(c, d);
    if p.Name() == q.Name() {
      NamesDiffer(p, q);
    }
  }

  ghost predicate DrawnFrom(list: seq<Candidate>, models: seq<PoolModel>) {
    forall c :: c in list ==> exists p :: p in models && Entry(c, p)
  }

  ghost predicate DistinctModels(models: seq<PoolModel>) {
    forall i, j :: 0 <= i < j < |models| ==> models[i] != models[j]
  }

  lemma {:induction false} OffersDistinct(m: Providers, models: seq<PoolModel>, tier: Tier)
    requires DistinctModels(models)
    ensures DrawnFrom(Offers(m, models, tier), models)
    ensures DistinctKeys(Offers(m, models, tier))
  {
    if models != [] {
      var head := Offer(m, models[0].Owner(), models[0].Name(), tier);
      var rest := Offers(m, models[1..], tier);
      OffersDistinct(m, models[1..], tier);
      assert forall p :: p in models[1..] ==> p in models && p != models[0];
      assert models[0] in [models[0]];
      assert DrawnFrom(head, [models[0]]);
      DistinctUnion(head, [models[0]], rest, models[1..]);
    }
  }

  lemma DistinctUnion(a: seq<Candidate>, ps: seq<PoolModel>, b: seq<Candidate>, qs: seq<PoolModel>)
    requires DrawnFrom(a, ps) && DrawnFrom(b, qs) && DistinctKeys(a) && DistinctKeys(b)
    requires forall p :: p in ps ==> p !in qs
    ensures DistinctKeys(a + b)
  {
    forall i, j | 0 <= i < j < |a + b| ensures (a + b)[i].Key() != (a + b)[j].Key() {
      if i < |a| <= j {
        var c, d := a[i], b[j - |a|];
        assert c in a && d in b;
        var p :| p in ps && Entry(c, p);
        var q :| q in qs && Entry(d, q);
        EntriesDiffer(c, p, d, q);
      }
    }
  }

  lemma PoolsDistinct(m: Providers, smartFirst: bool)
    ensures DistinctKeys(Pools(m, smartFirst))
  {
    OffersDistinct(m, FAST_MODELS, Fast);
    OffersDistinct(m, SMART_MODELS, Smart);
    DistinctUnion(FastPool(m), FAST_MODELS, SmartPool(m), SMART_MODELS);
    DistinctUnion(SmartPool(m), SMART_MODELS, FastPool(m), FAST_MODELS);
  }

  /**
   * A dynamic plan is the two pools in preference order; a pinned or named model of a registered
   * provider goes to the front and loses its pool entry. Only without any of these is the first
   * listed adapter used.
   */
  lemma PlanOrder(m: Providers, w: Wanted, model: string, complexity: real, any: Provider)
    ensures var pools := Pools(m, SmartLeads(w, complexity));
            var lead := Lead(m, w, model);
            Automatic(m, w, model, complexity, any)
            == if lead != [] then lead + Without(pools, lead[0].Key())
               else if pools != [] then pools
               else [Candidate(any, any.id, Flash36.Name(), Fallback)]
  {
    var pools := Pools(m, SmartLeads(w, complexity));
    var lead := Lead(m, w, model);
    PoolsDistinct(m, SmartLeads(w, complexity));
    if lead != [] {
      assert lead == [lead[0]];
      DedupLead(lead[0], pools);
    } else {
      assert lead + pools == pools;
      DistinctIsStable(pools);
    }
  }

  function LeadingModels(w: Wanted, complexity: real): seq<PoolModel> {
    if SmartLeads(w, complexity) then SMART_MODELS else FAST_MODELS
  }

  /** The first pool entry whose provider is registered. */
  ghost predicate IsFirstRegistered(m: Providers, models: seq<PoolModel>, i: nat) {
    i < |models| && models[i].Owner() in m && forall j :: 0 <= j < i ==> models[j].Owner() !in m
  }

  predicate StartsWith(chain: seq<Candidate>, c: Candidate) {
    chain != [] && chain[0] == c
  }

  /** The pool candidate for an entry whose provider is registered. */
  function PoolCandidate(m: Providers, p: PoolModel, tier: Tier): Candidate
    requires p.Owner() in m
  {
    Candidate(m[p.Owner()], p.Owner(), p.Name(), tier)
  }

  lemma {:induction false} OffersHead(m: Providers, models: seq<PoolModel>, tier: Tier, i: nat)
    requires IsFirstRegistered(m, models, i)
    ensures StartsWith(Offers(m, models, tier), PoolCandidate(m, models[i], tier))
  {
    if i > 0 {
      OffersHead(m, models[1..], tier, i - 1);
    }
  }

  lemma FirstRegisteredLeads(m: Providers, w: Wanted, complexity: real, i: nat)
    requires IsFirstRegistered(m, LeadingModels(w, complexity), i)
    ensures var p := LeadingModels(w, complexity)[i];
      StartsWith(Pools(m, SmartLeads(w, complexity)),
                 PoolCandidate(m, p, if SmartLeads(w, complexity) then Smart else Fast))
  {
    if SmartLeads(w, complexity) {
      OffersHead(m, SMART_MODELS, Smart, i);
    } else {
      OffersHead(m, FAST_MODELS, Fast, i);
    }
  }

  /**
   * Who answers first under a preset, and for a pinned or named model whose provider is missing: the
   * first model of the leading pool whose provider is registered, and without any the last resort.
   */
  lemma PresetLeader(m: Providers, w: Wanted, model: string, complexity: real, any: Provider)
    requires Lead(m, w, model) == []
    ensures forall i: nat :: IsFirstRegistered(m, LeadingModels(w, complexity), i) ==>
              StartsWith(Automatic(m, w, model, complexity, any),
                         PoolCandidate(m, LeadingModels(w, complexity)[i],
                                       if SmartLeads(w, complexity) then Smart else Fast))
    ensures GEMINI !in m && OPENAI !in m && ANTHROPIC !in m
            ==> Automatic(m, w, model, complexity, any) == [Candidate(any, any.id, Flash36.Name(), Fallback)]
  {
    PlanOrder(m, w, model, complexity, any);
    PoolsEmptyExactly(m, SmartLeads(w, complexity));
    forall i: nat | IsFirstRegistered(m, LeadingModels(w, complexity), i)
      ensures StartsWith(Pools(m, SmartLeads(w, complexity)),
                         PoolCandidate(m, LeadingModels(w, complexity)[i],
                                       if SmartLeads(w, complexity) then Smart else Fast))
    {
      FirstRegisteredLeads(m, w, complexity, i);
    }
  }

  /** The last-resort candidate is planned exactly when nothing else can be. */
  lemma LastResortExactly(m: Providers, w: Wanted, model: string, complexity: real, any: Provider)
    requires w.Pinned? ==> w.family in {GEMINI, OPENAI, ANTHROPIC}
    ensures (exists c :: c in Automatic(m, w, model, complexity, any) && c.tier == Fallback)
            <==> GEMINI !in m && OPENAI !in m && ANTHROPIC !in m && !(w == Named && model in m)
  {
    PoolsEmptyExactly(m, SmartLeads(w, complexity));
    TiersOf(m, w, model, complexity);
    DedupKeys(Chain(m, w, model, complexity));
    DedupEmpty(Chain(m, w, model, complexity));
    if Chain(m, w, model, complexity) == [] {
      assert Candidate(any, any.id, Flash36.Name(), Fallback) in Automatic(m, w, model, complexity, any);
    }
  }

  lemma DedupEmpty(list: seq<Candidate>)
    ensures Dedup(list) == [] <==> list == []
  {
    if list != [] {
      DedupKeepsHead(list);
    }
  }

  lemma {:induction false} OffersTier(m: Providers, models: seq<PoolModel>, tier: Tier)
    ensures forall c :: c in Offers(m, models, tier) ==> c.tier == tier
    ensures Offers(m, models, tier) == [] <==> forall p :: p in models ==> p.Owner() !in m
  {
    if models != [] {
      OffersTier(m, models[1..], tier);
      assert models == [models[0]] + models[1..];
    }
  }

  lemma TiersOf(m: Providers, w: Wanted, model: string, complexity: real)
    ensures forall c :: c in Chain(m, w, model, complexity) ==> c.tier in {Primary, Fast, Smart}
  {
    OffersTier(m, FAST_MODELS, Fast);
    OffersTier(m, SMART_MODELS, Smart);
    assert forall c :: c in Lead(m, w, model) ==> c.tier == Primary;
  }

  lemma PoolsEmptyExactly(m: Providers, smartFirst: bool)
    ensures Pools(m, smartFirst) == [] <==> GEMINI !in m && OPENAI !in m && ANTHROPIC !in m
  {
    OffersTier(m, FAST_MODELS, Fast);
    OffersTier(m, SMART_MODELS, Smart);
    assert Flash36 in FAST_MODELS && Gpt4oMini in FAST_MODELS && Haiku in FAST_MODELS;
  }

  // ----- plans by model string -----

  /** The cheap models and the strong ones, each in its order of preference, where registered. */
  function CheapChain(m: Providers): seq<Candidate> {
    (if "gemini" in m then [Candidate(m["gemini"], "gemini", "gemini-3.6-flash", Fast)] else [])
    + (if "openai" in m then [Candidate(m["openai"], "openai", "gpt-4o-mini", Fast)] else [])
    + (if "anthropic" in m then [Candidate(m["anthropic"], "anthropic", "claude-3-haiku-20240307", Fast)] else [])
  }

  function StrongChain(m: Providers): seq<Candidate> {
    (if "openai" in m then [Candidate(m["openai"], "openai", "gpt-4o", Smart)] else [])
    + (if "anthropic" in m then [Candidate(m["anthropic"], "anthropic", "claude-3-5-sonnet-20241022", Smart)] else [])
    + (if "gemini" in m then [Candidate(m["gemini"], "gemini", "gemini-3.7-flash", Smart)] else [])
  }

  lemma OffersCons(m: Providers, p: PoolModel, rest: seq<PoolModel>, tier: Tier)
    ensures Offers(m, [p] + rest, tier) == Offer(m, p.Owner(), p.Name(), tier) + Offers(m, rest, tier)
  {
    assert ([p] + rest)[1..] == rest;
  }

  lemma OffersTwo(m: Providers, b: PoolModel, c: PoolModel, tier: Tier)
    ensures Offers(m, [b] + [c], tier)
         == Offer(m, b.Owner(), b.Name(), tier) + Offer(m, c.Owner(), c.Name(), tier)
  {
    var none: seq<PoolModel> := [];
    OffersCons(m, b, [c], tier);
    OffersCons(m, c, none, tier);
    assert [c] + none == [c];
  }

  lemma OffersThree(m: Providers, a: PoolModel, b: PoolModel, c: PoolModel, tier: Tier)
    ensures Offers(m, [a, b, c], tier)
         == Offer(m, a.Owner(), a.Name(), tier)
            + (Offer(m, b.Owner(), b.Name(), tier) + Offer(m, c.Owner(), c.Name(), tier))
  {
    OffersCons(m, a, [b] + [c], tier);
    OffersTwo(m, b, c, tier);
    assert [a] + ([b] + [c]) == [a, b, c];
  }

  lemma ChainsWrittenOut(m: Providers)
    ensures FastPool(m) == CheapChain(m) && SmartPool(m) == StrongChain(m)
  {
    OffersThree(m, Flash36, Gpt4oMini, Haiku, Fast);
    OffersThree(m, Gpt4o, Sonnet, Flash37, Smart);
  }

  /** A chain that runs, or the one candidate of last resort at any adapter if there is none. */
  ghost predicate ChainOrLastResort(m: Providers, chain: seq<Candidate>, plan: seq<Candidate>) {
    if chain != [] then plan == chain
    else exists any :: any in m.Values && plan == [Candidate(any, any.id, "gemini-3.6-flash", Fallback)]
  }

  /** A plan made without a policy. */
  ghost predicate DynamicPlanOf(m: Providers, model: string, complexity: real, plan: seq<Candidate>) {
    exists policy :: !UsablePolicy(m, policy) && IsPlan(m, model, policy, complexity, plan)
  }

  lemma WithoutLead(m: Providers, w: Wanted, model: string, complexity: real, plan: seq<Candidate>)
    requires Lead(m, w, model) == [] && Classify(model) == w && DynamicPlanOf(m, model, complexity, plan)
    ensures ChainOrLastResort(m, if SmartLeads(w, complexity) then StrongChain(m) + CheapChain(m)
                                 else CheapChain(m) + StrongChain(m), plan)
  {
    var any :| any in m.Values && plan == Automatic(m, w, model, complexity, any);
    PlanOrder(m, w, model, complexity, any);
    ChainsWrittenOut(m);
  }

  const STRONG_PRESETS := ["build", "reason", "smart", "quality", "review"]
  const CHEAP_PRESETS := ["explore", "cheap", "fast"]

  lemma PresetBranch(model: string)
    ensures model in ["", "auto"] ==> Classify(model) == Auto
    ensures model in CHEAP_PRESETS ==> Classify(model) == Explore
    ensures model in STRONG_PRESETS ==> Classify(model) in {Build, Reason, Review}
  {
  }

  /**
   * The task presets: strong models first for building, reasoning and review and for automatic
   * requests of complexity 0.4 and more, cheap models first for the others; the other three follow.
   */
  lemma PresetPlan(m: Providers, model: string, complexity: real, plan: seq<Candidate>)
    requires DynamicPlanOf(m, model, complexity, plan)
    ensures model in ["build", "reason", "smart", "quality", "review"] || (model in ["", "auto"] && complexity >= 0.4)
      ==> ChainOrLastResort(m, StrongChain(m) + CheapChain(m), plan)
    ensures model in ["explore", "cheap", "fast"] || (model in ["", "auto"] && complexity < 0.4)
      ==> ChainOrLastResort(m, CheapChain(m) + StrongChain(m), plan)
  {
    PresetBranch(model);
    if model in ["", "auto"] || model in CHEAP_PRESETS || model in STRONG_PRESETS {
      WithoutLead(m, Classify(model), model, complexity, plan);
    }
  }

  lemma ClaudeBranch(model: string)
    requires "claude-" <= model
    ensures Classify(model) == Pinned("anthropic")
  {
    assert model[0] == 'c' && model[1] == 'l';
  }

  lemma GeminiBranch(model: string)
    requires "gemini-" <= model
    ensures Classify(model) == Pinned("gemini")
  {
    assert model[0] == 'g' && model[1] == 'e';
  }

  lemma GptBranch(model: string)
    requires "gpt-" <= model
    ensures Classify(model) == Pinned("openai")
  {
    assert model[0] == 'g' && model[1] == 'p';
  }

  lemma NamedBranch(model: string)
    requires model !in ["", "auto"] && model !in CHEAP_PRESETS && model !in STRONG_PRESETS
    requires !("claude-" <= model) && !("gemini-" <= model) && !("gpt-" <= model)
    ensures Classify(model) == Named
  {
  }

  /** The provider a model name belongs to. */
  ghost predicate FamilyOf(model: string, id: string) {
    || ("claude-" <= model && id == "anthropic")
    || ("gemini-" <= model && id == "gemini")
    || ("gpt-" <= model && id == "openai")
  }

  /**
   * A model named by its family is tried first at that family's provider, if it is registered, and
   * then nowhere else under that name; the pools follow, Gemini's own cheap one first for Gemini.
   */
  lemma FamilyPlan(m: Providers, model: string, complexity: real, plan: seq<Candidate>, id: string)
    requires DynamicPlanOf(m, model, complexity, plan) && FamilyOf(model, id)
    ensures var pools := if id == "gemini" then CheapChain(m) + StrongChain(m) else StrongChain(m) + CheapChain(m);
      if id in m then plan == [Candidate(m[id], id, model, Primary)] + Without(pools, id + ":" + model)
      else ChainOrLastResort(m, pools, plan)
  {
    if id == "anthropic" {
      ClaudeBranch(model);
    } else if id == "gemini" {
      GeminiBranch(model);
    } else {
      GptBranch(model);
    }
    if id in m {
      LedPlan(m, Pinned(id), model, complexity, plan, id);
    } else {
      WithoutLead(m, Pinned(id), model, complexity, plan);
    }
  }

  lemma PinnedLeads(m: Providers, model: string, complexity: real, plan: seq<Candidate>, id: string)
    requires DynamicPlanOf(m, model, complexity, plan) && FamilyOf(model, id) && id in m
    ensures StartsWith(plan, Candidate(m[id], id, model, Primary))
  {
    FamilyPlan(m, model, complexity, plan, id);
  }

  lemma LedPlan(m: Providers, w: Wanted, model: string, complexity: real, plan: seq<Candidate>, id: string)
    requires Classify(model) == w && DynamicPlanOf(m, model, complexity, plan)
    requires id in m && Lead(m, w, model) == [Candidate(m[id], id, model, Primary)]
    ensures plan == [Candidate(m[id], id, model, Primary)]
      + Without(if SmartLeads(w, complexity) then StrongChain(m) + CheapChain(m) else CheapChain(m) + StrongChain(m),
                id + ":" + model)
  {
    var any :| any in m.Values && plan == Automatic(m, w, model, complexity, any);
    PlanOrder(m, w, model, complexity, any);
    ChainsWrittenOut(m);
  }

  /** Any other name is taken for a provider's, with the cheap models after it or in its place. */
  lemma NamedPlan(m: Providers, model: string, complexity: real, plan: seq<Candidate>)
    requires DynamicPlanOf(m, model, complexity, plan)
    requires model !in ["", "auto"] && model !in ["explore", "cheap", "fast"]
    requires model !in ["build", "reason", "smart", "quality", "review"]
    requires !("claude-" <= model) && !("gemini-" <= model) && !("gpt-" <= model)
    ensures var pools := CheapChain(m) + StrongChain(m);
      if model in m then plan == [Candidate(m[model], model, model, Primary)] + Without(pools, model + ":" + model)
      else ChainOrLastResort(m, pools, plan)
  {
    NamedBranch(model);
    if model in m {
      LedPlan(m, Named, model, complexity, plan, model);
    } else {
      WithoutLead(m, Named, model, complexity, plan);
    }
  }

  // ----- custom policies -----

  function FromEntry(m: Providers, wanted: seq<PolicyCandidate>, i: nat): Candidate
    requires i < |wanted| && wanted[i].provider in m
  {
    var id := wanted[i].provider;
    Candidate(m[id], id, wanted[i].model, if i == 0 then Primary else PolicyFallback)
  }

  ghost predicate PolicyAt(m: Providers, wanted: seq<PolicyCandidate>, at: seq<nat>, plan: seq<Candidate>) {
    && Increasing(at, |wanted|) && |at| == |plan|
    && (forall k :: 0 <= k < |at| ==> wanted[at[k]].provider in m && plan[k] == FromEntry(m, wanted, at[k]))
    && (forall i :: 0 <= i < |wanted| && wanted[i].provider in m ==> i in at)
  }

  /** A policy plan is the registered policy candidates in order; only the policy's first entry is primary. */
  lemma {:induction false} PolicyPlanExact(m: Providers, wanted: seq<PolicyCandidate>) returns (at: seq<nat>)
    ensures PolicyAt(m, wanted, at, FromPolicy(m, wanted))
  {
    if wanted == [] {
      at := [];
    } else {
      var n := |wanted| - 1;
      at := PolicyPlanExact(m, wanted[..n]);
      PolicySnoc(m, wanted, at, FromPolicy(m, wanted[..n]));
      if wanted[n].provider in m {
        at := at + [n];
      }
    }
  }

  lemma PolicySnoc(m: Providers, wanted: seq<PolicyCandidate>, at: seq<nat>, plan: seq<Candidate>)
    requires wanted != [] && PolicyAt(m, wanted[..|wanted| - 1], at, plan)
    ensures var n := |wanted| - 1;
            if wanted[n].provider in m then PolicyAt(m, wanted, at + [n], plan + [FromEntry(m, wanted, n)])
            else PolicyAt(m, wanted, at, plan)
  {
    var n := |wanted| - 1;
    PolicyPicks(m, wanted, at, plan);
    if wanted[n].provider in m {
      PolicyNext(m, wanted, at, plan);
    }
  }

  /** The entries picked so far are picked in the longer list too. */
  lemma PolicyPicks(m: Providers, wanted: seq<PolicyCandidate>, at: seq<nat>, plan: seq<Candidate>)
    requires wanted != [] && PolicyAt(m, wanted[..|wanted| - 1], at, plan)
    ensures Increasing(at, |wanted| - 1) && |at| == |plan|
    ensures forall k :: 0 <= k < |at| ==> wanted[at[k]].provider in m && plan[k] == FromEntry(m, wanted, at[k])
    ensures forall i :: 0 <= i < |wanted| - 1 && wanted[i].provider in m ==> i in at
  {
    assert forall i :: 0 <= i < |wanted| - 1 ==> wanted[..|wanted| - 1][i] == wanted[i];
  }

  lemma PolicyNext(m: Providers, wanted: seq<PolicyCandidate>, at: seq<nat>, plan: seq<Candidate>)
    requires wanted != [] && Increasing(at, |wanted| - 1) && |at| == |plan|
    requires forall k :: 0 <= k < |at| ==> wanted[at[k]].provider in m && plan[k] == FromEntry(m, wanted, at[k])
    requires forall i :: 0 <= i < |wanted| - 1 && wanted[i].provider in m ==> i in at
    requires wanted[|wanted| - 1].provider in m
    ensures PolicyAt(m, wanted, at + [|wanted| - 1], plan + [FromEntry(m, wanted, |wanted| - 1)])
  {
    assert forall i :: i in at ==> i in at + [|wanted| - 1];
    assert (at + [|wanted| - 1])[|at|] == |wanted| - 1;
  }

  /** A usable policy has no safety net: it reaches a pool candidate exactly when it lists it. */
  lemma PolicyReaches(m: Providers, wanted: seq<PolicyCandidate>, provider: string, model: string)
    ensures (exists c :: c in FromPolicy(m, wanted) && c.providerId == provider && c.model == model)
            <==> provider in m && PolicyCandidate(provider, model) in wanted
  {
    var at := PolicyPlanExact(m, wanted);
    var plan := FromPolicy(m, wanted);
    if provider in m && PolicyCandidate(provider, model) in wanted {
      var i :| 0 <= i < |wanted| && wanted[i] == PolicyCandidate(provider, model);
      assert i in at;
      var k :| 0 <= k < |at| && at[k] == i;
      assert plan[k] in plan;
    }
  }

  /** A policy takes over exactly when it lists a registered provider. */
  lemma UsableExactly(m: Providers, policy: Option<seq<PolicyCandidate>>)
    ensures UsablePolicy(m, policy)
      <==> policy.Some? && exists i :: 0 <= i < |policy.value| && policy.value[i].provider in m
  {
    if policy.Some? {
      var wanted := policy.value;
      var at := PolicyPlanExact(m, wanted);
      if FromPolicy(m, wanted) != [] {
        assert wanted[at[0]].provider in m;
      }
      if i :| 0 <= i < |wanted| && wanted[i].provider in m {
        assert i in at;
      }
    }
  }
}
