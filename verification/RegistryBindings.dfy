/** What a registration binds, read off the list that the caller passes in, and what it leaves alone. */
module RegistryBindings {
  import opened Collections
  import opened RegistryState
  import opened RegistryInvariant
  import opened RegistryReconcile

  /** The entry at place i has the ID m. */
  predicate Names(list: seq<Option<ModelInfo>>, i: int, m: string) {
    0 <= i < |list| && list[i].Some? && list[i].value.id == m
  }

  function PlacesOf(list: seq<Option<ModelInfo>>, m: string): set<int> {
    set i | 0 <= i < |list| && Names(list, i, m)
  }

  /** The metadata of the first entry with the ID m. */
  ghost predicate FirstGiven(list: seq<Option<ModelInfo>>, m: string, info: ModelInfo) {
    exists i :: Names(list, i, m) && list[i] == Some(info) && forall j :: 0 <= j < i ==> !Names(list, j, m)
  }

  lemma PlacesOneMore(list: seq<Option<ModelInfo>>, e: Option<ModelInfo>, m: string)
    ensures PlacesOf(list + [e], m) ==
      PlacesOf(list, m) + if e.Some? && e.value.id == m then {|list|} else {}
    ensures |list| !in PlacesOf(list, m)
  {
    var more := list + [e];
    forall i ensures Names(more, i, m) <==> Names(list, i, m) || (i == |list| && e.Some? && e.value.id == m) {
      assert 0 <= i < |list| ==> more[i] == list[i];
    }
  }

  /** Every entry with an ID counts once. */
  lemma {:induction false} RawIdsExactly(list: seq<Option<ModelInfo>>, m: string)
    ensures multiset(RawIds(list))[m] == if m == "" then 0 else |PlacesOf(list, m)|
  {
    if list == [] {
      assert PlacesOf(list, m) == {};
    } else {
      var init, last := list[..|list| - 1], list[|list| - 1];
      RawIdsExactly(init, m);
      PlacesOneMore(init, last, m);
      assert list == init + [last];
    }
  }

  lemma FirstGivenMore(list: seq<Option<ModelInfo>>, e: Option<ModelInfo>, m: string, info: ModelInfo)
    requires FirstGiven(list, m, info)
    ensures FirstGiven(list + [e], m, info)
  {
    var i :| Names(list, i, m) && list[i] == Some(info) && forall j :: 0 <= j < i ==> !Names(list, j, m);
    var more := list + [e];
    assert Names(more, i, m) && more[i] == list[i];
    forall j | 0 <= j < i ensures !Names(more, j, m) {
      assert more[j] == list[j] && !Names(list, j, m);
    }
  }

  lemma {:induction false} FirstInfosExactly(list: seq<Option<ModelInfo>>, m: string)
    ensures m in FirstInfos(list) <==> m != "" && exists i :: Names(list, i, m)
    ensures m in FirstInfos(list) ==> FirstGiven(list, m, FirstInfos(list)[m])
  {
    if list == [] {
    } else {
      var init, last := list[..|list| - 1], list[|list| - 1];
      FirstInfosExactly(init, m);
      assert list == init + [last];
      forall i ensures Names(list, i, m) <==> Names(init, i, m) || (i == |list| - 1 && Names(list, i, m)) {
      }
      if m in FirstInfos(init) {
        FirstGivenMore(init, last, m, FirstInfos(init)[m]);
      } else if m in FirstInfos(list) {
        assert Names(list, |list| - 1, m);
        forall j | 0 <= j < |list| - 1 ensures !Names(list, j, m) {
          assert !Names(init, j, m);
        }
      }
    }
  }

  /** The caller lists model m. */
  ghost predicate ListsModel(list: seq<Option<ModelInfo>>, m: string) {
    m != "" && exists i :: Names(list, i, m)
  }

  lemma ListedIds(list: seq<Option<ModelInfo>>, m: string)
    ensures ListsModel(list, m) <==> m in RawIds(list)
    ensures ListsModel(list, m) <==> m in FirstInfos(list)
  {
    FirstInfosExactly(list, m);
    assert m in FirstInfos(list) <==> m in Elements(RawIds(list));
  }

  /** The client is bound to what it listed, each entry counting once, under its provider; without any
      entry it is not known at all. */
  ghost predicate Bound(t: Tables, c: string, p: string, list: seq<Option<ModelInfo>>) {
    && (c in t.clientModels <==> exists m :: ListsModel(list, m))
    && (c in t.clientModels <==> c in t.clientInfos)
    && ProviderOf(t, c) == (if c in t.clientModels then p else "")
    && (forall m :: BagOf(t, c)[m] == if m == "" then 0 else |PlacesOf(list, m)|)
    && (forall m :: ListsModel(list, m) ==>
          c in t.clientInfos && m in t.clientInfos[c] && FirstGiven(list, m, t.clientInfos[c][m]))
  }

  lemma RegisterBinds(t: Tables, c: string, p: string, list: seq<Option<ModelInfo>>)
    ensures Bound(Register(t, c, p, list), c, p, list)
  {
    var t', ids, infos := Register(t, c, p, list), RawIds(list), FirstInfos(list);
    forall m ensures multiset(ids)[m] == if m == "" then 0 else |PlacesOf(list, m)| {
      RawIdsExactly(list, m);
    }
    forall m ensures (ListsModel(list, m) <==> m in ids) && (ListsModel(list, m) <==> m in infos) {
      ListedIds(list, m);
    }
    if ids != [] { assert ListsModel(list, ids[0]); }
    forall m | ListsModel(list, m) ensures FirstGiven(list, m, infos[m]) {
      FirstInfosExactly(list, m);
    }
    BoundTables(t, c, p, list);
  }

  lemma ClientTables(t: Tables, c: string, p: string, list: seq<Option<ModelInfo>>)
    ensures var ids, infos := RawIds(list), FirstInfos(list);
      Register(t, c, p, list).(models := map[]) ==
        if ids == [] then Forget(t.(models := map[]), c) else Bind(t.(models := map[]), c, p, ids, infos)
  {
  }

  lemma BoundTables(t: Tables, c: string, p: string, list: seq<Option<ModelInfo>>)
    ensures var t', ids := Register(t, c, p, list), RawIds(list);
      && (c in t'.clientModels <==> ids != []) && (c in t'.clientInfos <==> ids != [])
      && BagOf(t', c) == multiset(ids)
      && (ids != [] ==> t'.clientInfos[c] == FirstInfos(list))
      && ProviderOf(t', c) == (if ids != [] then p else "")
  {
    ClientTables(t, c, p, list);
    hide Register, RawIds, FirstInfos;
  }

  /** What becomes of one model's registration. */
  lemma ModelEntry(t: Tables, c: string, p: string, list: seq<Option<ModelInfo>>, m: string)
    ensures var ids, q, k := RawIds(list), ProviderOf(t, c), BagOf(t, c)[m];
      var r' := Lookup(Register(t, c, p, list).models, m);
      if m in ids then
        var n, info := multiset(ids)[m], FirstInfos(list)[m];
        if c !in t.clientModels then r' == Some(More(Lookup(t.models, m), p, info, n))
        else r' == Some(Unmark(More(if m in t.models then Some(Less(t.models[m], c, q, k)) else None, p, info, n), c))
      else if m in t.models && (Survives(t.models[m], k)) then r' == Some(Less(t.models[m], c, q, k))
      else r' == None
  {
    var ids := RawIds(list);
    assert m in ids <==> m in multiset(ids);
    assert m in ids <==> m in Elements(ids);
    hide More, Less, Unmark;
    if ids != [] && c !in t.clientModels {
      NoReferences(t, c, m);
    }
  }

  lemma NoReferences(t: Tables, c: string, m: string)
    requires c !in t.clientModels
    ensures BagOf(t, c)[m] == 0
    ensures m in t.models ==> Less(t.models[m], c, ProviderOf(t, c), 0) == t.models[m] && Survives(t.models[m], 0)
  {
  }

  /** Every model listed carries the metadata that is given first for it, also as its provider's. */
  lemma RegisterDescribes(t: Tables, c: string, p: string, list: seq<Option<ModelInfo>>, m: string)
    requires ListsModel(list, m)
    ensures var t' := Register(t, c, p, list);
      && m in t'.models && FirstGiven(list, m, t'.models[m].info)
      && (p != "" ==> p in t'.models[m].infoByProvider && t'.models[m].infoByProvider[p] == t'.models[m].info)
  {
    ListedIds(list, m);
    FirstInfosExactly(list, m);
    ModelEntry(t, c, p, list, m);
    hide Register, FirstGiven, ListsModel, FirstInfos, RawIds, Less;
  }

  /** Of every other client all bindings stay, and its marks on each model that stays. */
  lemma RegisterSpares(t: Tables, c: string, p: string, list: seq<Option<ModelInfo>>, d: string)
    requires d != c
    ensures var t' := Register(t, c, p, list);
      && Lookup(t'.clientModels, d) == Lookup(t.clientModels, d)
      && Lookup(t'.clientInfos, d) == Lookup(t.clientInfos, d)
      && ProviderOf(t', d) == ProviderOf(t, d)
      && forall m :: m in t.models && m in t'.models ==>
           && Lookup(t'.models[m].quota, d) == Lookup(t.models[m].quota, d)
           && Lookup(t'.models[m].suspended, d) == Lookup(t.models[m].suspended, d)
  {
    var t' := Register(t, c, p, list);
    ClientTables(t, c, p, list);
    hide Register, RawIds, FirstInfos;
    forall m | m in t.models && m in t'.models
      ensures Lookup(t'.models[m].quota, d) == Lookup(t.models[m].quota, d)
      ensures Lookup(t'.models[m].suspended, d) == Lookup(t.models[m].suspended, d)
    {
      ModelEntry(t, c, p, list, m);
    }
  }

  /** A known client has no mark on any model it has given up or listed again. */
  lemma RegisterUnmarks(t: Tables, c: string, p: string, list: seq<Option<ModelInfo>>, m: string)
    requires c in t.clientModels && (BagOf(t, c)[m] > 0 || ListsModel(list, m))
    ensures var t' := Register(t, c, p, list);
      m in t'.models ==> c !in t'.models[m].quota && c !in t'.models[m].suspended
  {
    ListedIds(list, m);
    ModelEntry(t, c, p, list, m);
    hide Register, RawIds, FirstInfos, ListsModel;
  }

  /** A model that the client neither listed before nor lists now is untouched. */
  lemma RegisterElsewhere(t: Tables, c: string, p: string, list: seq<Option<ModelInfo>>, m: string)
    requires BagOf(t, c)[m] == 0 && !ListsModel(list, m)
    ensures Lookup(Register(t, c, p, list).models, m) == Lookup(t.models, m)
  {
    ListedIds(list, m);
    ModelEntry(t, c, p, list, m);
  }

  /** Unregistering is registering nothing. */
  lemma UnregisterBindsNothing(t: Tables, c: string, p: string)
    ensures Register(t, c, p, []) == Unregister(t, c)
  {
  }
}
