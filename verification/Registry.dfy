/** The model registry: reference-counted models, quota and suspension marks, cached listings.
    Go's map iteration order is arbitrary, so loops over a map pick any remaining key; every
    contract below therefore holds for every order. */
module Registry {
  import opened Collections
  import opened Text
  import opened RegistryState
  import opened RegistryInvariant
  import opened RegistryReconcile
  import opened RegistrySteps
  import opened RegistryListing
  import opened RegistryRuns
  import opened RegistryQueries
  import opened RegistryMarks
  import opened RegistryBindings

  /** The IDs a caller passes in, repeated and unique, and the first metadata given for each. */
  method CollectModels(list: seq<Option<ModelInfo>>)
    returns (rawIds: seq<string>, uniqueIds: seq<string>, infos: Infos, counts: Bag)
    ensures rawIds == RawIds(list) && infos == FirstInfos(list) && counts == multiset(rawIds)
    ensures Distinct(uniqueIds) && Elements(uniqueIds) == infos.Keys
  {
    rawIds, uniqueIds, infos, counts := [], [], map[], multiset{};
    CollectedEnds(list);
    hide Collected, RawIds, FirstInfos, Distinct, Elements;
    for i := 0 to |list|
      invariant Collected(list, i, rawIds, uniqueIds, infos, counts)
    {
      CollectedOneMore(list, i, rawIds, uniqueIds, infos, counts);
      var model := list[i];
      if model == None || model.value.id == "" {
        continue;
      }
      var id := model.value.id;
      rawIds := rawIds + [id];
      counts := counts[id := counts[id] + 1];
      if id in infos {
        continue;
      }
      infos := infos[id := model.value];
      uniqueIds := uniqueIds + [id];
    }
  }

  /** What has been collected from the first i elements. */
  predicate Collected(list: seq<Option<ModelInfo>>, i: nat, rawIds: seq<string>, uniqueIds: seq<string>, infos: Infos,
          counts: Bag)
    requires i <= |list|
  {
    && rawIds == RawIds(list[..i]) && infos == FirstInfos(list[..i]) && counts == multiset(rawIds)
    && Distinct(uniqueIds) && Elements(uniqueIds) == infos.Keys
  }

  lemma CollectedEnds(list: seq<Option<ModelInfo>>)
    ensures Collected(list, 0, [], [], map[], multiset{})
    ensures forall rawIds, uniqueIds, infos, counts :: Collected(list, |list|, rawIds, uniqueIds, infos, counts) ==>
      && rawIds == RawIds(list) && infos == FirstInfos(list) && counts == multiset(rawIds)
      && Distinct(uniqueIds) && Elements(uniqueIds) == infos.Keys
  {
    assert list[..|list|] == list;
  }

  lemma CollectedOneMore(list: seq<Option<ModelInfo>>, i: nat, rawIds: seq<string>, uniqueIds: seq<string>,
          infos: Infos, counts: Bag)
    requires i < |list| && Collected(list, i, rawIds, uniqueIds, infos, counts)
    ensures !Valid(list[i]) ==> Collected(list, i + 1, rawIds, uniqueIds, infos, counts)
    ensures Valid(list[i]) ==>
      var id := list[i].value.id;
      if id in infos then Collected(list, i + 1, rawIds + [id], uniqueIds, infos, counts[id := counts[id] + 1])
      else
        var infos', counts' := infos[id := list[i].value], counts[id := counts[id] + 1];
        Collected(list, i + 1, rawIds + [id], uniqueIds + [id], infos', counts')
  {
    assert list[..i + 1][..i] == list[..i];
    if Valid(list[i]) && list[i].value.id !in infos {
      DistinctMore(uniqueIds, list[i].value.id);
    }
  }

  lemma NoElements(s: seq<string>)
    ensures Elements(s) == {} <==> s == []
  {
    if s != [] { assert s[0] in Elements(s); }
  }

  lemma DistinctMore(s: seq<string>, x: string)
    requires Distinct(s) && x !in Elements(s)
    ensures Distinct(s + [x]) && Elements(s + [x]) == Elements(s) + {x}
  {
  }

  lemma PrefixesListed(ids: seq<string>, infos: Infos)
    requires Elements(ids) <= infos.Keys
    ensures forall i :: 0 <= i <= |ids| ==> Support(multiset(ids[..i])) <= infos.Keys
    ensures Support(multiset(ids)) <= infos.Keys
    ensures forall i :: 0 <= i < |ids| ==> ids[i] in infos
  {
    forall i | 0 <= i < |ids| ensures ids[i] in infos {
      assert ids[i] in Elements(ids);
    }
    forall i, m | 0 <= i <= |ids| && m in Support(multiset(ids[..i])) ensures m in infos {
      assert m in ids[..i];
    }
    assert ids[..|ids|] == ids;
  }

  lemma KeyedModels(t: Tables)
    requires Inv(t)
    ensures forall m :: m in t.models ==> t.models[m].info.id == m
  {
    forall m | m in t.models ensures t.models[m].info.id == m {
      assert Counted(t, m);
    }
  }

  /** Model m's rendering has a creation time, and none later than that of model n. */
  predicate NoNewer(models: Models, handler: string, m: string, n: string) {
    && m in models && n in models
    && var a, b := CreatedIn(Listing(handler, models[m].info)), CreatedIn(Listing(handler, models[n].info));
       a.Some? && b.Some? && a.value <= b.value
  }

  /** If every model has a creation time, renderings other than for "claude" and "gemini" show it. */
  lemma ByCreation(models: Models, handler: string, now: int)
    requires handler != "claude" && handler != "gemini" && forall m :: m in models ==> models[m].info.created > 0
    ensures ShownDated(models, handler, now)
    ensures forall m, n :: NoNewer(models, handler, m, n) ==> models[m].info.created <= models[n].info.created
  {
  }

  lemma FoundIsNewest(models: Models, list: seq<Listing>, sorted: seq<Listing>, handler: string, now: int, i: nat)
    requires forall m :: m in models ==> models[m].info.id == m
    requires IsListing(list, models, handler, now) && multiset(sorted) == multiset(list) && i < |sorted|
    requires AllDated(list) ==> AllDated(sorted) && NewestFirst(sorted)
    requires handler != "gemini" && forall j :: 0 <= j < i ==> CountOf(models, sorted[j].info.id, now) == 0
    ensures ShownDated(models, handler, now) ==>
      forall m :: m in models && Available(models[m], now) > 0 ==> NoNewer(models, handler, m, sorted[i].info.id)
    ensures handler != "claude" && (forall m :: m in models ==> models[m].info.created > 0) ==>
      sorted[i].info.id in models && forall m :: m in models && Available(models[m], now) > 0 ==>
        models[m].info.created <= models[sorted[i].info.id].info.created
  {
    hide IsListing, NewestFirst, CreatedIn, Available;
    ListedModel(models, list, sorted, handler, now, i);
    if handler != "claude" && forall m :: m in models ==> models[m].info.created > 0 {
      ByCreation(models, handler, now);
    }
    if ShownDated(models, handler, now) {
      ShownDatedList(models, list, handler, now);
      forall m | m in models && Available(models[m], now) > 0
        ensures NoNewer(models, handler, m, sorted[i].info.id)
      {
        FirstIsNewest(models, list, sorted, handler, now, i, m);
      }
    }
  }

  class ModelRegistry {
    var models: Models
    var clientModels: map<string, seq<string>>
    var clientInfos: map<string, Infos>
    var clientProviders: map<string, string>
    var cache: map<string, CacheEntry>
    /** The latest time any call was made at; clocks do not run backwards. */
    ghost var clock: int

    ghost function View(): World
      reads this
    {
      World(Tables(models, clientModels, clientInfos, clientProviders), cache, clock)
    }

    constructor ()
      ensures View() == START && ValidWorld(View())
    {
      models, clientModels, clientInfos, clientProviders, cache := map[], map[], map[], map[], map[];
      clock := 0;
      new;
      EmptyInv();
    }

    // ----- one reference -----

    method AddModelRegistration(id: string, provider: string, info: ModelInfo)
      requires id != ""
      modifies this`models
      ensures models == AddAt(old(models), id, provider, info, 1)
    {
      if id in models {
        var existing := models[id];
        existing := existing.(count := existing.count + 1, info := info);
        if provider != "" {
          var count := if provider in existing.providers then existing.providers[provider] else 0;
          existing := existing.(providers := existing.providers[provider := count + 1]);
          existing := existing.(infoByProvider := existing.infoByProvider[provider := info]);
        }
        models := models[id := existing];
        return;
      }
      var registration := Registration(info, map[], 1, map[], map[], map[]);
      if provider != "" {
        registration := registration.(providers := map[provider := 1], infoByProvider := map[provider := info]);
      }
      models := models[id := registration];
    }

    method RemoveModelRegistration(client: string, id: string, provider: string)
      modifies this`models
      ensures models == RemoveAt(old(models), client, id, provider, 1)
    {
      if id !in models {
        return;
      }
      var registration := models[id];
      registration := registration.(count := registration.count - 1,
                                    quota := registration.quota - {client},
                                    suspended := registration.suspended - {client});
      if registration.count < 0 {
        registration := registration.(count := 0);
      }
      if provider != "" && provider in registration.providers {
        var count := registration.providers[provider];
        if count <= 1 {
          registration := registration.(providers := registration.providers - {provider},
                                        infoByProvider := registration.infoByProvider - {provider});
        } else {
          registration := registration.(providers := registration.providers[provider := count - 1]);
        }
      }
      models := models[id := registration];
      if registration.count <= 0 {
        models := models - {id};
      }
    }

    // ----- the passes of re-registration -----

    method ShiftProvider(oldProvider: string, oldCounts: Bag, newCounts: Bag)
      modifies this`models
      ensures models == Shifted(old(models), Support(newCounts), oldProvider, oldCounts, newCounts)
    {
      var todo := Support(newCounts);
      while todo != {}
        invariant todo <= Support(newCounts)
        invariant models == Shifted(old(models), Support(newCounts) - todo, oldProvider, oldCounts, newCounts)
      {
        var id :| id in todo;
        todo := todo - {id};
        var toRemove := if oldCounts[id] < newCounts[id] then oldCounts[id] else newCounts[id];
        if id in models && oldCounts[id] > 0 && oldProvider != "" && oldProvider in models[id].providers {
          var reg := models[id];
          var count := reg.providers[oldProvider];
          if count <= toRemove {
            reg := reg.(providers := reg.providers - {oldProvider},
              infoByProvider := reg.infoByProvider - {oldProvider});
          } else {
            reg := reg.(providers := reg.providers[oldProvider := count - toRemove]);
          }
          models := models[id := reg];
        }
      }
    }

    method RemoveSurplus(client: string, provider: string, ids: set<string>, oldCounts: Bag, newCounts: Bag)
      modifies this`models
      ensures models == Trimmed(old(models), ids, client, provider, oldCounts, newCounts)
    {
      var todo := ids;
      while todo != {}
        invariant todo <= ids
        invariant models == Trimmed(old(models), ids - todo, client, provider, oldCounts, newCounts)
      {
        var id :| id in todo;
        RemoveExtra(client, id, provider, Surplus(oldCounts, newCounts, id));
        TrimmedOneMore(old(models), ids, todo, client, provider, oldCounts, newCounts, id);
        todo := todo - {id};
      }
    }

    method RemoveExtra(client: string, id: string, provider: string, overage: nat)
      modifies this`models
      ensures models == RemoveAt(old(models), client, id, provider, overage)
    {
      for i := 0 to overage
        invariant models == RemoveAt(old(models), client, id, provider, i)
      {
        RemoveModelRegistration(client, id, provider);
        RemoveAgain(old(models), client, id, provider, i);
      }
    }

    method AddShortfall(provider: string, ids: set<string>, infos: Infos, oldCounts: Bag, newCounts: Bag)
      requires ids <= infos.Keys && "" !in ids
      modifies this`models
      ensures models == Grown(old(models), ids, provider, infos, oldCounts, newCounts)
    {
      var todo := ids;
      assert models == Grown(models, ids - todo, provider, infos, oldCounts, newCounts);
      hide Grown, Surplus, AddAt;
      while todo != {}
        invariant todo <= ids
        invariant models == Grown(old(models), ids - todo, provider, infos, oldCounts, newCounts)
      {
        var id :| id in todo;
        GrownOneMore(old(models), ids, todo, provider, infos, oldCounts, newCounts, id);
        AddMissing(id, provider, infos[id], Surplus(newCounts, oldCounts, id));
        todo := todo - {id};
      }
    }

    method AddMissing(id: string, provider: string, info: ModelInfo, diff: nat)
      requires id != ""
      modifies this`models
      ensures models == AddAt(old(models), id, provider, info, diff)
    {
      for i := 0 to diff
        invariant models == AddAt(old(models), id, provider, info, i)
      {
        AddModelRegistration(id, provider, info);
        AddAgain(old(models), id, provider, info, i);
      }
    }

    method RefreshOne(client: string, provider: string, providerChanged: bool, id: string, info: ModelInfo,
            oldCount: nat, newCount: nat)
      modifies this`models
      ensures models == if id !in old(models) then old(models)
                        else old(models)[id := Refresh(old(models)[id], client, provider, info,
                          if providerChanged then Min(oldCount, newCount) else 0)]
    {
      if id in models {
        var reg := models[id];
        reg := reg.(info := info);
        if provider != "" {
          reg := reg.(infoByProvider := reg.infoByProvider[provider := info]);
        }
        reg := reg.(quota := reg.quota - {client}, suspended := reg.suspended - {client});
        if providerChanged && provider != "" && oldCount != 0 {
          var overlapCount := if oldCount < newCount then oldCount else newCount;
          if overlapCount > 0 {
            var count := if provider in reg.providers then reg.providers[provider] else 0;
            reg := reg.(providers := reg.providers[provider := count + overlapCount]);
          }
        }
        models := models[id := reg];
      }
    }

    method RefreshMetadata(client: string, provider: string, providerChanged: bool, uniqueIds: seq<string>,
                           infos: Infos, oldCounts: Bag, newCounts: Bag)
      requires Distinct(uniqueIds) && Elements(uniqueIds) == infos.Keys
      modifies this`models
      ensures models == Refreshed(old(models), infos.Keys, client, provider, providerChanged, infos, oldCounts,
        newCounts)
    {
      for i := 0 to |uniqueIds|
        invariant Elements(uniqueIds[..i]) <= infos.Keys
        invariant models == Refreshed(old(models), Elements(uniqueIds[..i]), client, provider, providerChanged, infos,
          oldCounts, newCounts)
      {
        var id := uniqueIds[i];
        assert id !in Elements(uniqueIds[..i]) && id in infos;
        assert Elements(uniqueIds[..i + 1]) == Elements(uniqueIds[..i]) + {id};
        RefreshedOneMore(old(models), Elements(uniqueIds[..i]), client, provider, providerChanged, infos, oldCounts,
          newCounts, id);
        RefreshOne(client, provider, providerChanged, id, infos[id], oldCounts[id], newCounts[id]);
      }
      assert uniqueIds[..|uniqueIds|] == uniqueIds;
    }

    // ----- public mutators -----

    /** Bind a client to a provider and a list of models. */
    method RegisterClient(client: string, clientProvider: string, list: seq<Option<ModelInfo>>)
      requires ValidWorld(View())
      modifies this
      ensures ValidWorld(View()) && clock == old(clock)
      ensures Next(old(View()), RegisterOp(client, ToLower(clientProvider), list), View())
      ensures Bound(View().tables, client, ToLower(clientProvider), list)
    {
      var provider := ToLower(clientProvider);
      RegisterBinds(View().tables, client, provider, list);
      StepValid(View(), RegisterOp(client, provider, list));
      RegisterTables(client, provider, list);
      cache := map[];
    }

    method RegisterTables(client: string, provider: string, list: seq<Option<ModelInfo>>)
      requires Inv(View().tables)
      modifies this`models, this`clientModels, this`clientInfos, this`clientProviders
      ensures View().tables == Register(old(View().tables), client, provider, list)
    {
      var rawIds, uniqueIds, infos, newCounts := CollectModels(list);
      if |uniqueIds| == 0 {
        NoElements(rawIds);
        NoElements(uniqueIds);
        UnregisterInternal(client);
        return;
      }
      ListIsClientOk(list);
      NoElements(rawIds);
      NoElements(uniqueIds);
      assert Support(newCounts) == infos.Keys;
      if client !in clientModels {
        AddAll(rawIds, provider, infos);
      } else {
        ReconcileModels(client, provider, uniqueIds, infos, newCounts);
      }
      BindClient(client, provider, rawIds, infos);
    }

    method BindClient(client: string, provider: string, rawIds: seq<string>, infos: Infos)
      modifies this`clientModels, this`clientInfos, this`clientProviders
      ensures View().tables == Bind(old(View().tables), client, provider, rawIds, infos)
    {
      clientModels := clientModels[client := rawIds];
      clientInfos := clientInfos[client := infos];
      if provider != "" {
        clientProviders := clientProviders[client := provider];
      } else {
        clientProviders := clientProviders - {client};
      }
    }

    method AddAll(rawIds: seq<string>, provider: string, infos: Infos)
      requires "" !in rawIds && Elements(rawIds) <= infos.Keys
      modifies this`models
      ensures Support(multiset(rawIds)) <= infos.Keys
      ensures models == Added(old(models), provider, infos, multiset(rawIds))
    {
      hide Added, AddAt, Elements, Support, More;
      PrefixesListed(rawIds, infos);
      AddedNone(models, provider, infos);
      assert multiset(rawIds[..0]) == multiset{};
      for i := 0 to |rawIds|
        invariant models == Added(old(models), provider, infos, multiset(rawIds[..i]))
      {
        var id := rawIds[i];
        AddModelRegistration(id, provider, infos[id]);
        AddedOneMore(old(models), provider, infos, multiset(rawIds[..i]), id);
        assert rawIds[..i + 1] == rawIds[..i] + [id];
      }
      assert rawIds[..|rawIds|] == rawIds;
    }

    method ReconcileModels(client: string, provider: string, uniqueIds: seq<string>, infos: Infos, newCounts: Bag)
      requires Inv(View().tables) && client in clientModels
      requires Distinct(uniqueIds) && Elements(uniqueIds) == infos.Keys
      requires Support(newCounts) == infos.Keys && "" !in newCounts
      modifies this`models
      ensures models == Reconciled(old(models), client, ProviderOf(old(View().tables), client),
        BagOf(old(View().tables), client),
                                   provider, infos, newCounts)
    {
      ghost var t := View().tables;
      var oldProvider := if client in clientProviders then clientProviders[client] else "";
      var providerChanged := oldProvider != provider;
      var oldCounts := multiset(clientModels[client]);
      var removed := Support(oldCounts) - Support(newCounts);
      if providerChanged && oldProvider != "" {
        ShiftProvider(oldProvider, oldCounts, newCounts);
      }
      assert oldProvider == "" ==> Shifted(t.models, Support(newCounts), oldProvider, oldCounts, newCounts) == t.models;
      RemoveSurplus(client, oldProvider, removed, oldCounts, newCounts);
      RemoveSurplus(client, oldProvider, Support(oldCounts) * Support(newCounts), oldCounts, newCounts);
      AddShortfall(provider, Support(newCounts), infos, oldCounts, newCounts);
      RefreshMetadata(client, provider, providerChanged, uniqueIds, infos, oldCounts, newCounts);
      assert models == Passes(t, client, provider, infos, newCounts);
      PassesReconcile(t, client, provider, infos, newCounts);
    }

    method UnregisterClient(client: string)
      requires ValidWorld(View())
      modifies this
      ensures ValidWorld(View()) && clock == old(clock)
      ensures Next(old(View()), UnregisterOp(client), View())
      ensures client !in clientModels && client !in clientInfos && client !in clientProviders
    {
      StepValid(View(), UnregisterOp(client));
      UnregisterInternal(client);
      cache := map[];
    }

    method UnregisterInternal(client: string)
      requires Inv(View().tables)
      modifies this`models, this`clientModels, this`clientInfos, this`clientProviders
      ensures View().tables == Unregister(old(View().tables), client)
    {
      ghost var t := View().tables;
      if client !in clientModels {
        UnknownClient(t, client);
        clientProviders := clientProviders - {client};
        assert View().tables.clientProviders == Unregister(t, client).clientProviders;
        return;
      }
      var ids := clientModels[client];
      var provider := if client in clientProviders then clientProviders[client] else "";
      assert Removed(models, client, provider, multiset{}) == models;
      for i := 0 to |ids|
        invariant View().tables == t.(models := models)
        invariant models == Removed(t.models, client, provider, multiset(ids[..i]))
      {
        RemoveModelRegistration(client, ids[i], provider);
        RemovedOneMore(t.models, client, provider, multiset(ids[..i]), ids[i]);
        assert ids[..i + 1] == ids[..i] + [ids[i]];
      }
      assert ids[..|ids|] == ids;
      assert models == Removed(t.models, client, ProviderOf(t, client), BagOf(t, client));
      clientModels := clientModels - {client};
      clientInfos := clientInfos - {client};
      clientProviders := clientProviders - {client};
    }

    method SetModelQuotaExceeded(client: string, id: string, now: int)
      requires ValidWorld(View()) && clock <= now
      modifies this
      ensures ValidWorld(View()) && clock == now
      ensures Next(old(View()), SetQuotaOp(client, id), View())
      ensures models == if id !in old(models) then old(models) else
        old(models)[id := old(models)[id].(quota := old(models)[id].quota[client := now])]
      ensures id in models ==>
        forall later :: now <= later ==> (client in LiveQuota(models[id], later) <==> later < now + 300_000_000_000)
    {
      StepValidAt(View(), SetQuotaOp(client, id), now);
      clock := now;
      if id in models {
        models := models[id := models[id].(quota := models[id].quota[client := now])];
        cache := map[];
      }
    }

    method ClearModelQuotaExceeded(client: string, id: string)
      requires ValidWorld(View())
      modifies this
      ensures ValidWorld(View()) && clock == old(clock)
      ensures Next(old(View()), ClearQuotaOp(client, id), View())
      ensures models == if id !in old(models) then old(models) else
        old(models)[id := old(models)[id].(quota := old(models)[id].quota - {client})]
    {
      StepValid(View(), ClearQuotaOp(client, id));
      if id in models {
        models := models[id := models[id].(quota := models[id].quota - {client})];
        cache := map[];
      }
    }

    method SuspendClientModel(client: string, id: string, reason: string)
      requires ValidWorld(View())
      modifies this
      ensures ValidWorld(View()) && clock == old(clock)
      ensures Next(old(View()), SuspendOp(client, id, reason), View())
      ensures models ==
        if client == "" || id == "" || id !in old(models) || client in old(models)[id].suspended then old(models) else
        old(models)[id := old(models)[id].(suspended := old(models)[id].suspended[client := reason])]
    {
      StepValid(View(), SuspendOp(client, id, reason));
      if client == "" || id == "" || id !in models || client in models[id].suspended {
        return;
      }
      models := models[id := models[id].(suspended := models[id].suspended[client := reason])];
      cache := map[];
    }

    method ResumeClientModel(client: string, id: string)
      requires ValidWorld(View())
      modifies this
      ensures ValidWorld(View()) && clock == old(clock)
      ensures Next(old(View()), ResumeOp(client, id), View())
      ensures models == if client == "" || id == "" || id !in old(models) then old(models) else
        old(models)[id := old(models)[id].(suspended := old(models)[id].suspended - {client})]
    {
      StepValid(View(), ResumeOp(client, id));
      if client == "" || id == "" || id !in models {
        return;
      }
      if client !in models[id].suspended {
        assert models[id].suspended - {client} == models[id].suspended;
        return;
      }
      models := models[id := models[id].(suspended := models[id].suspended - {client})];
      cache := map[];
    }

    method CleanupExpiredQuotas(now: int)
      requires ValidWorld(View()) && clock <= now
      modifies this
      ensures ValidWorld(View()) && clock == now
      ensures Next(old(View()), CleanupOp, View())
      ensures Remarked(old(View().tables), CleanupOp, now, View().tables)
    {
      StepValidAt(View(), CleanupOp, now);
      CleanupMarks(View().tables, now);
      clock := now;
      var invalidated := CleanAll(now);
      if invalidated {
        cache := map[];
      }
    }

    method CleanAll(now: int) returns (invalidated: bool)
      modifies this`models
      ensures models == Cleanup(old(View().tables), now).models
      ensures invalidated <==> Clears(old(View().tables), CleanupOp, now)
    {
      ghost var before := models;
      invalidated := false;
      var todo := models.Keys;
      while todo != {}
        invariant todo <= models.Keys == before.Keys
        invariant forall m :: m in models ==> models[m] == if m in todo then before[m] else Cleaned(before[m], now)
        invariant invalidated ==> exists m, c :: DeadMark(before, now, m, c)
        invariant !invalidated ==> forall m, c :: m !in todo ==> !DeadMark(before, now, m, c)
      {
        var id :| id in todo;
        todo := todo - {id};
        var cleaned, some := CleanMarks(models[id], now);
        if some {
          ghost var c :| c in before[id].quota && !Live(before[id].quota[c], now);
          assert DeadMark(before, now, id, c);
        }
        models := models[id := cleaned];
        invalidated := invalidated || some;
      }
    }

    // ----- readers -----

    /** The models with a client able to serve; cached until a mark expires or a mutator clears it. */
    method GetAvailableModels(handler: string, now: int) returns (result: seq<Listing>)
      requires ValidWorld(View()) && clock <= now
      modifies this`cache, this`clock
      ensures ValidWorld(View()) && clock == now
      ensures Next(old(View()), ListOp(handler, result), View())
      ensures IsListing(result, models, handler, now)
    {
      ghost var before := View();
      clock := now;
      if handler in cache && Fresh(cache[handler], now) {
        result := cache[handler].models;
      } else {
        forall m | m in models ensures models[m].info.id == m {
          assert Counted(before.tables, m);
        }
        var list, expiresAt := BuildAvailableModels(models, handler, now);
        cache := cache[handler := CacheEntry(list, expiresAt)];
        result := list;
      }
      StepSafe(before, ListOp(handler, result), View());
    }

    method GetModelCount(id: string, now: int) returns (count: int)
      ensures count == CountOf(models, id, now)
      ensures id !in models ==> count == 0
      ensures id in models ==> var live, down := OverQuota(models[id].quota, now), models[id].suspended.Keys;
        count == Max(0, models[id].count - |live + down| - |live * down|)
    {
      if id in models { AvailableExactly(models[id], now); }
      if id !in models {
        return 0;
      }
      var live, _ := CountQuota(models[id], now, None);
      count := models[id].count - live - |models[id].suspended|;
      if count < 0 {
        count := 0;
      }
    }

    /** A model some client can serve right now. Found whenever there is one, except that listings
        for "gemini" carry no ID to look up. */
    method GetFirstAvailableModel(handler: string, now: int) returns (found: Option<string>)
      requires ValidWorld(View()) && clock <= now
      modifies this`cache, this`clock
      ensures ValidWorld(View()) && clock == now
      ensures found.Some? ==> found.value in models && Available(models[found.value], now) > 0
      ensures found == None <==> handler == "gemini" || forall m :: m in models ==> Available(models[m], now) == 0
      ensures found.Some? && ShownDated(models, handler, now) ==>
        forall m :: m in models && Available(models[m], now) > 0 ==> NoNewer(models, handler, m, found.value)
      ensures found.Some? && handler != "claude" && (forall m :: m in models ==> models[m].info.created > 0) ==>
        forall m :: m in models && Available(models[m], now) > 0 ==>
          models[m].info.created <= models[found.value].info.created
    {
      var list := GetAvailableModels(handler, now);
      ghost var after := View();
      var sorted := SortNewestFirst(list);
      found := None;
      KeyedModels(View().tables);
      hide ValidWorld, IsListing, ShownDated, AllDated, NewestFirst, CreatedIn, NoNewer;
      for i := 0 to |sorted|
        invariant View() == after
        invariant forall j :: 0 <= j < i && handler != "gemini" ==> CountOf(models, sorted[j].info.id, now) == 0
      {
        if handler != "gemini" {
          var id := sorted[i].info.id;
          var count := GetModelCount(id, now);
          if count > 0 {
            FoundIsNewest(models, list, sorted, handler, now, i);
            return Some(id);
          }
        }
      }
      forall m | m in models && handler != "gemini" ensures Available(models[m], now) == 0 {
        if Available(models[m], now) > 0 {
          AvailableIsListed(models, list, sorted, handler, now, m);
        }
      }
    }

    method ListByProvider(provider: string, now: int) returns (result: seq<ModelInfo>)
      requires Inv(View().tables)
      ensures Distinct(Ids(result))
      ensures var t, p := View().tables, ToLower(TrimSpace(provider));
        && (forall i :: 0 <= i < |result| ==> Described(t, p, result[i]))
        && (forall m :: m in Ids(result) <==> p != "" && RecountOffers(t, p, now, m))
        && (p != "" && ProviderTrimmed(t, p) ==> forall m :: m in Ids(result) <==> OfferedBy(t, p, now, m))
    {
      var p := ToLower(TrimSpace(provider));
      result := GetAvailableModelsByProvider(Tables(models, clientModels, clientInfos, clientProviders), p, now);
      forall i | 0 <= i < |result| ensures Described(View().tables, p, result[i]) {
        ShownAsDescribed(View().tables, p, result[i].id, result[i]);
      }
    }
  }

  /** Drop the expired quota marks of one registration. */
  method CleanMarks(r: Registration, now: int) returns (cleaned: Registration, some: bool)
    ensures cleaned == Cleaned(r, now)
    ensures some <==> !(forall c :: c in r.quota ==> Live(r.quota[c], now))
  {
    cleaned, some := r, false;
    var todo := r.quota.Keys;
    while todo != {}
      invariant todo <= r.quota.Keys
      invariant cleaned == r.(quota := map c | c in r.quota && (c in todo || Live(r.quota[c], now)) :: r.quota[c])
      invariant some <==> !(forall c :: c in r.quota && c !in todo ==> Live(r.quota[c], now))
    {
      var c :| c in todo;
      todo := todo - {c};
      if now - r.quota[c] >= QUOTA_WINDOW {
        cleaned := cleaned.(quota := cleaned.quota - {c});
        some := true;
      }
    }
  }

  /** The world a mutator leads to, and its validity. */
  lemma StepValidAt(w: World, op: Op, now: int)
    requires ValidWorld(w) && w.clock <= now && !op.ListOp?
    ensures ValidWorld(World(Effect(w.tables, op, now), if Clears(w.tables, op, now) then map[] else w.cache, now))
  {
    StepSafe(w, op, World(Effect(w.tables, op, now), if Clears(w.tables, op, now) then map[] else w.cache, now));
  }

  lemma StepValid(w: World, op: Op)
    requires ValidWorld(w) && !op.ListOp?
    ensures var cache := if Clears(w.tables, op, w.clock) then map[] else w.cache;
      ValidWorld(World(Effect(w.tables, op, w.clock), cache, w.clock))
  {
    StepValidAt(w, op, w.clock);
  }
}
