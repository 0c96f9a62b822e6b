/**
 * The model list (lib/models/index.ts): a module-level cache of the backend's
 * model list that stays valid for five minutes, and the pure views over the
 * list that flag which models a user may use. `FREE_MODELS_IDS` comes from
 * configuration and is a parameter here.
 */
module ModelsIndex {
  import opened Wrappers
  import Seqs

  datatype ModelConfig = ModelConfig(id: string, name: string, providerId: string, accessible: bool)

  const CacheDuration := 5 * 60 * 1000

  /** What `getModels()` produced: a value (None when not an array), or a thrown error. */
  datatype ModelsFetch = Loaded(models: Option<seq<ModelConfig>>) | LoadFailed

  /** The module's two variables, `dynamicModelsCache` and `lastFetchTime`. */
  class ModelsCache {
    var cache: Option<seq<ModelConfig>>
    var lastFetchTime: int

    constructor ()
      ensures cache.None? && lastFetchTime == 0
    {
      cache := None;
      lastFetchTime := 0;
    }

    predicate Fresh(now: int)
      reads this
    {
      cache.Some? && now - lastFetchTime < CacheDuration
    }

    /**
     * `getAllModels` at time `now`; `fetch` is what the backend call
     * produces, consulted only when the cache is missing or expired.
     */
    method GetAllModels(now: int, fetch: ModelsFetch) returns (models: seq<ModelConfig>)
      modifies this
      ensures old(Fresh(now)) ==> models == old(cache).value && cache == old(cache) && lastFetchTime == old(lastFetchTime)
      ensures !old(Fresh(now)) && fetch.Loaded? ==>
        models == fetch.models.GetOr([]) && cache == Some(models) && lastFetchTime == now
      ensures !old(Fresh(now)) && fetch.LoadFailed? ==>
        models == [] && cache == old(cache) && lastFetchTime == old(lastFetchTime)
    {
      if cache.Some? && now - lastFetchTime < CacheDuration {
        return cache.value;
      }
      if fetch.LoadFailed? {
        return [];
      }
      cache := Some(fetch.models.GetOr([]));
      lastFetchTime := now;
      models := cache.value;
    }

    /** `refreshModelsCache`: the next `getAllModels` fetches. */
    method Refresh()
      modifies this
      ensures cache.None? && lastFetchTime == 0
      ensures forall now :: !Fresh(now)
    {
      cache := None;
      lastFetchTime := 0;
    }

    /** `getModelInfo`: the first cached model with that id; undefined without a cache or a match. */
    function ModelInfo(modelId: string): (r: Option<ModelConfig>)
      reads this
      ensures cache.None? ==> r.None?
      ensures r.Some? ==> r.value.id == modelId && r.value in cache.value
      ensures cache.Some? ==> (r.None? <==> forall i :: 0 <= i < |cache.value| ==> cache.value[i].id != modelId)
      ensures r.Some? ==> exists i :: (0 <= i < |cache.value| && cache.value[i] == r.value
        && forall j :: 0 <= j < i ==> cache.value[j].id != modelId)
    {
      if cache.None? then None else FindModel(cache.value, modelId)
    }
  }

  /** A cached list is served from the cache until five minutes after it was fetched, and no longer. */
  lemma ServedWithinWindow(c: ModelsCache, now: int)
    requires c.cache.Some?
    ensures c.Fresh(now) <==> now < c.lastFetchTime + 300000
  {
  }

  function FindModel(models: seq<ModelConfig>, modelId: string): (r: Option<ModelConfig>)
    ensures r.None? <==> forall i :: 0 <= i < |models| ==> models[i].id != modelId
    ensures r.Some? ==> exists i :: (0 <= i < |models| && models[i] == r.value
      && r.value.id == modelId && forall j :: 0 <= j < i ==> models[j].id != modelId)
  {
    if models == [] then None
    else if models[0].id == modelId then Some(models[0])
    else
      var r := FindModel(models[1..], modelId);
      if r.Some? then
        var i :| 0 <= i < |models[1..]| && models[1..][i] == r.value
          && r.value.id == modelId && forall j :: 0 <= j < i ==> models[1..][j].id != modelId;
        assert models[i + 1] == r.value;
        r
      else r
  }

  function Flagged(accessible: bool): ModelConfig -> ModelConfig {
    (m: ModelConfig) => m.(accessible := accessible)
  }

  function IsFree(freeIds: seq<string>): ModelConfig -> bool {
    (m: ModelConfig) => m.id in freeIds
  }

  function IsNotFree(freeIds: seq<string>): ModelConfig -> bool {
    (m: ModelConfig) => m.id !in freeIds
  }

  function IdNotIn(ids: seq<string>): ModelConfig -> bool {
    (m: ModelConfig) => m.id !in ids
  }

  /**
   * `getModelsWithAccessFlags` over the list `getAllModels` returned: the
   * free models flagged accessible, then the models whose id is not among
   * the free models' ids, flagged not accessible.
   */
  function WithAccessFlags(models: seq<ModelConfig>, freeIds: seq<string>): (r: seq<ModelConfig>)
    ensures forall i :: 0 <= i < |r| ==> (r[i].accessible <==> r[i].id in freeIds)
  {
    var free := Seqs.Filter(models, IsFree(freeIds));
    var freeModels := Seqs.MapSeq(free, Flagged(true));
    var freeModelIds := Seqs.MapSeq(freeModels, (m: ModelConfig) => m.id);
    var pro := Seqs.Filter(models, IdNotIn(freeModelIds));
    ProNotFree(models, freeIds, pro);
    FlagsOfPartition(free, pro, freeIds);
    freeModels + Seqs.MapSeq(pro, Flagged(false))
  }

  /** The models left out of the free list have ids that are not free. */
  lemma ProNotFree(models: seq<ModelConfig>, freeIds: seq<string>, pro: seq<ModelConfig>)
    requires pro == Seqs.Filter(models, IdNotIn(Seqs.MapSeq(Seqs.MapSeq(Seqs.Filter(models, IsFree(freeIds)), Flagged(true)), (m: ModelConfig) => m.id)))
    ensures forall i :: 0 <= i < |pro| ==> pro[i].id !in freeIds
  {
    forall i | 0 <= i < |pro| ensures pro[i].id !in freeIds {
      if pro[i].id in freeIds {
        ListedIfFree(models, freeIds, pro[i]);
      }
    }
  }

  /** A model whose id is free is among the free models, so its id is among their ids. */
  lemma ListedIfFree(models: seq<ModelConfig>, freeIds: seq<string>, m: ModelConfig)
    requires m in models && m.id in freeIds
    ensures m.id in Seqs.MapSeq(Seqs.MapSeq(Seqs.Filter(models, IsFree(freeIds)), Flagged(true)), (m: ModelConfig) => m.id)
  {
    var f := Seqs.Filter(models, IsFree(freeIds));
    assert m in f;
    var i :| 0 <= i < |f| && f[i] == m;
    assert Seqs.MapSeq(Seqs.MapSeq(f, Flagged(true)), (m: ModelConfig) => m.id)[i] == m.id;
  }

  /**
   * The access flags are a stable partition: the free models in input order,
   * then every other model in input order.
   */
  lemma AccessFlagsPartition(models: seq<ModelConfig>, freeIds: seq<string>)
    ensures WithAccessFlags(models, freeIds)
         == Seqs.MapSeq(Seqs.Filter(models, IsFree(freeIds)), Flagged(true))
          + Seqs.MapSeq(Seqs.Filter(models, IsNotFree(freeIds)), Flagged(false))
  {
    var freeModels := Seqs.MapSeq(Seqs.Filter(models, IsFree(freeIds)), Flagged(true));
    var freeModelIds := Seqs.MapSeq(freeModels, (m: ModelConfig) => m.id);
    forall m: ModelConfig | m in models
      ensures IdNotIn(freeModelIds)(m) == IsNotFree(freeIds)(m)
    {
      if m.id in freeIds {
        ListedIfFree(models, freeIds, m);
      } else {
        forall i | 0 <= i < |freeModelIds| ensures freeModelIds[i] != m.id {
          var f := Seqs.Filter(models, IsFree(freeIds));
          assert f[i].id in freeIds;
        }
      }
    }
    SameFilter(models, IdNotIn(freeModelIds), IsNotFree(freeIds));
  }

  lemma {:induction false} SameFilter(s: seq<ModelConfig>, p: ModelConfig -> bool, q: ModelConfig -> bool)
    requires forall m :: m in s ==> p(m) == q(m)
    ensures Seqs.Filter(s, p) == Seqs.Filter(s, q)
  {
    if s != [] {
      SameFilter(s[..|s| - 1], p, q);
    }
  }

  /** Every model appears once in the result, flagged accessible exactly when its id is free. */
  lemma AccessFlagsPermutation(models: seq<ModelConfig>, freeIds: seq<string>)
    ensures forall i :: 0 <= i < |WithAccessFlags(models, freeIds)| ==>
      (WithAccessFlags(models, freeIds)[i].accessible <==> WithAccessFlags(models, freeIds)[i].id in freeIds)
    ensures multiset(Seqs.MapSeq(WithAccessFlags(models, freeIds), Flagged(false))) == multiset(Seqs.MapSeq(models, Flagged(false)))
  {
    AccessFlagsPartition(models, freeIds);
    var free := Seqs.Filter(models, IsFree(freeIds));
    var pro := Seqs.Filter(models, IsNotFree(freeIds));
    FlagsOfPartition(free, pro, freeIds);
    Seqs.FilterComplement(models, IsFree(freeIds), IsNotFree(freeIds));
    assert multiset(free + pro) == multiset(free) + multiset(pro);
    FlagsForgotten(free, pro, models);
  }

  /** Forgetting the flags of a reordered list gives a reordering of the list with its flags forgotten. */
  lemma FlagsForgotten(free: seq<ModelConfig>, pro: seq<ModelConfig>, models: seq<ModelConfig>)
    requires multiset(free + pro) == multiset(models)
    ensures multiset(Seqs.MapSeq(Seqs.MapSeq(free, Flagged(true)) + Seqs.MapSeq(pro, Flagged(false)), Flagged(false)))
         == multiset(Seqs.MapSeq(models, Flagged(false)))
  {
    Seqs.MapPermutation(free + pro, models, Flagged(false));
    Seqs.MapAppend(Seqs.MapSeq(free, Flagged(true)), Seqs.MapSeq(pro, Flagged(false)), Flagged(false));
    Seqs.MapAppend(free, pro, Flagged(false));
    Reflag(free, true);
    Reflag(pro, false);
  }

  lemma FlagsOfPartition(free: seq<ModelConfig>, pro: seq<ModelConfig>, freeIds: seq<string>)
    requires forall i :: 0 <= i < |free| ==> free[i].id in freeIds
    requires forall i :: 0 <= i < |pro| ==> pro[i].id !in freeIds
    ensures var r := Seqs.MapSeq(free, Flagged(true)) + Seqs.MapSeq(pro, Flagged(false));
      forall i :: 0 <= i < |r| ==> (r[i].accessible <==> r[i].id in freeIds)
  {
  }

  lemma Reflag(s: seq<ModelConfig>, flag: bool)
    ensures Seqs.MapSeq(Seqs.MapSeq(s, Flagged(flag)), Flagged(false)) == Seqs.MapSeq(s, Flagged(false))
  {
  }

  function OfProvider(provider: string): ModelConfig -> bool {
    (m: ModelConfig) => m.providerId == provider
  }

  /** `getModelsForProvider`: exactly the provider's models, in order, flagged accessible. */
  function ForProvider(models: seq<ModelConfig>, provider: string): (r: seq<ModelConfig>)
    ensures forall i :: 0 <= i < |r| ==> r[i].providerId == provider && r[i].accessible
    ensures forall i :: 0 <= i < |r| ==> r[i].(accessible := false) in Seqs.MapSeq(models, Flagged(false))
    ensures forall i :: 0 <= i < |models| && models[i].providerId == provider ==> models[i].(accessible := true) in r
  {
    var kept := Seqs.Filter(models, OfProvider(provider));
    var r := Seqs.MapSeq(kept, Flagged(true));
    assert forall i :: 0 <= i < |r| ==> r[i] == kept[i].(accessible := true);
    assert forall i :: 0 <= i < |models| ==> Seqs.MapSeq(models, Flagged(false))[i] == models[i].(accessible := false);
    assert forall i :: 0 <= i < |r| ==> kept[i] in models;
    assert forall i :: 0 <= i < |models| && OfProvider(provider)(models[i]) ==> models[i] in kept;
    r
  }

  /** The provider's models keep their order: the result for a concatenation is the concatenation of the results. */
  lemma ForProviderAppend(a: seq<ModelConfig>, b: seq<ModelConfig>, provider: string)
    ensures ForProvider(a + b, provider) == ForProvider(a, provider) + ForProvider(b, provider)
  {
    Seqs.FilterAppend(a, b, OfProvider(provider));
    Seqs.MapAppend(Seqs.Filter(a, OfProvider(provider)), Seqs.Filter(b, OfProvider(provider)), Flagged(true));
  }

  /** Each model contributes itself, flagged accessible, exactly when it is the provider's, and once. */
  lemma ForProviderSingle(m: ModelConfig, provider: string)
    ensures ForProvider([m], provider) == if m.providerId == provider then [m.(accessible := true)] else []
  {
    assert [m][..0] == [];
  }

  function InProviders(providers: seq<string>): ModelConfig -> bool {
    (m: ModelConfig) => m.providerId in providers
  }

  /** `getModelsForUserProviders`: the models whose provider is one of the user's, unchanged and in order. */
  function ForUserProviders(models: seq<ModelConfig>, providers: seq<string>): (r: seq<ModelConfig>)
    ensures |r| <= |models|
    ensures forall i :: 0 <= i < |r| ==> r[i] in models && r[i].providerId in providers
    ensures forall i :: 0 <= i < |models| && models[i].providerId in providers ==> models[i] in r
  {
    Seqs.Filter(models, InProviders(providers))
  }

  /** The kept models keep their order: the result for a concatenation is the concatenation of the results. */
  lemma ForUserProvidersAppend(a: seq<ModelConfig>, b: seq<ModelConfig>, providers: seq<string>)
    ensures ForUserProviders(a + b, providers) == ForUserProviders(a, providers) + ForUserProviders(b, providers)
  {
    Seqs.FilterAppend(a, b, InProviders(providers));
  }

  /** Each model is kept unchanged, once, exactly when its provider is one of the user's. */
  lemma ForUserProvidersSingle(m: ModelConfig, providers: seq<string>)
    ensures ForUserProviders([m], providers) == if m.providerId in providers then [m] else []
  {
    assert [m][..0] == [];
  }
}
