/** Re-registering a client in place against removing it and registering it afresh. */
module RegistryReconcile {
  import opened Collections
  import opened RegistryState
  import opened RegistryInvariant

  function Rebuild(t: Tables, c: string, p: string, list: seq<Option<ModelInfo>>): Tables {
    Register(Unregister(t, c), c, p, list)
  }

  function EraseMarks(r: Registration): Registration {
    r.(quota := map[], suspended := map[])
  }

  predicate SameMarks(r: Registration, s: Registration) {
    r.quota == s.quota && r.suspended == s.suspended
  }

  /** No mark would be lost by dropping and recreating a registration that only c holds, and
      c has no mark on a model it is about to join. */
  predicate MarksSafeAt(t: Tables, c: string, m: string) {
    m in t.models ==>
      var r, k := t.models[m], BagOf(t, c)[m];
      && (k == 0 ==> c !in r.quota && c !in r.suspended)
      && (k > 0 && r.count == k ==> r.quota.Keys + r.suspended.Keys <= {c})
  }

  predicate MarksSafe(t: Tables, c: string, list: seq<Option<ModelInfo>>) {
    c in t.clientModels ==> forall m :: m in RawIds(list) ==> MarksSafeAt(t, c, m)
  }

  lemma RemovedEntry(t: Tables, c: string, m: string)
    ensures Lookup(Unregister(t, c).models, m) ==
            if m in t.models && Survives(t.models[m], BagOf(t, c)[m])
            then Some(Less(t.models[m], c, ProviderOf(t, c), BagOf(t, c)[m])) else None
  {
  }

  lemma UnknownClient(t: Tables, c: string)
    requires Inv(t) && c !in t.clientModels
    ensures Unregister(t, c) == t
  {
    assert Unregister(t, c).models == t.models;
    assert t.clientModels - {c} == t.clientModels;
    assert t.clientInfos - {c} == t.clientInfos;
    assert t.clientProviders - {c} == t.clientProviders;
  }

  /** The last holder's provider is the only one, and all its references are given up. */
  lemma LastProvider(t: Tables, c: string, m: string)
    requires Inv(t) && m in t.models && t.models[m].count <= BagOf(t, c)[m]
    ensures forall q :: q in t.models[m].providers ==>
      q == ProviderOf(t, c) && t.models[m].providers[q] <= BagOf(t, c)[m]
    ensures t.models[m].count == BagOf(t, c)[m]
  {
    var t' := Unregister(t, c);
    assert Counted(t, m);
    TotalsWithout(t, t', c, m, "");
    TotalsNonNegative(t', m, "");
    forall q | q in t.models[m].providers ensures q == ProviderOf(t, c) && t.models[m].providers[q] <= BagOf(t, c)[m] {
      assert ProviderCounted(t, m, q);
      TotalsWithout(t, t', c, m, q);
      TotalsNonNegative(t', m, q);
    }
  }

  /** So nothing of the registration is left behind. */
  lemma LastHolder(t: Tables, c: string, m: string)
    requires Inv(t) && m in t.models && t.models[m].count <= BagOf(t, c)[m]
    ensures var r := Less(t.models[m], c, ProviderOf(t, c), BagOf(t, c)[m]);
      r.count == 0 && r.providers == map[] && r.infoByProvider == map[]
  {
    var r, p, k := t.models[m], ProviderOf(t, c), BagOf(t, c)[m];
    LastProvider(t, c, m);
    assert Counted(t, m);
    TotalsNonNegative(t, m, p);
    assert Debit(r.providers, p, k) == map[];
    LessKeepsKeys(r, c, p, k);
    assert Less(r, c, p, k).infoByProvider.Keys == {};
  }

  /** For each model: the same registration up to marks, and the same marks exactly when safe. */
  lemma AgreeAt(t: Tables, c: string, p: string, ids: seq<string>, infos: Infos, m: string)
    requires Inv(t) && c in t.clientModels && ClientOk(ids, infos)
    ensures var a, b := Reconcile(t, c, p, ids, infos).models, Enrol(Unregister(t, c), c, p, ids, infos).models;
      && (m in a <==> m in b)
      && (m in a ==> EraseMarks(a[m]) == EraseMarks(b[m]))
      && (m in a ==> (SameMarks(a[m], b[m]) <==> (m in ids ==> MarksSafeAt(t, c, m))))
  {
    hide Inv, ClientOk, MarksSafeAt;
    var q, k := ProviderOf(t, c), BagOf(t, c)[m];
    RemovedEntry(t, c, m);
    if m in t.models && !Survives(t.models[m], k) {
      LastHolder(t, c, m);
    }
    if m in ids {
      AgreeOnListed(t, c, p, ids, infos, m);
    }
  }

  lemma AgreeOnListed(t: Tables, c: string, p: string, ids: seq<string>, infos: Infos, m: string)
    requires Inv(t) && c in t.clientModels && ClientOk(ids, infos) && m in ids
    ensures var a, b := Reconcile(t, c, p, ids, infos).models, Enrol(Unregister(t, c), c, p, ids, infos).models;
      && m in a && m in b
      && EraseMarks(a[m]) == EraseMarks(b[m])
      && (SameMarks(a[m], b[m]) <==> MarksSafeAt(t, c, m))
  {
    var q, k, n := ProviderOf(t, c), BagOf(t, c)[m], multiset(ids)[m];
    RemovedEntry(t, c, m);
    assert m in multiset(ids);
    if m in t.models {
      var r := t.models[m];
      if Survives(r, k) {
        AgreeOnSurvivor(r, c, q, k, p, infos[m], n);
      } else {
        LastHolder(t, c, m);
        assert r.count == k by { assert Counted(t, m); TotalsNonNegative(t, m, q); }
        AgreeOnRecreated(r, c, q, k, p, infos[m], n);
      }
    } else {
      assert Unmark(More(None, p, infos[m], n), c) == More(None, p, infos[m], n);
    }
  }

  lemma AgreeOnSurvivor(r: Registration, c: string, q: string, k: nat, p: string, info: ModelInfo, n: nat)
    ensures var b := More(Some(Less(r, c, q, k)), p, info, n); var a := Unmark(b, c);
      && EraseMarks(a) == EraseMarks(b)
      && (SameMarks(a, b) <==> (k == 0 ==> c !in r.quota && c !in r.suspended))
  {
    var b := More(Some(Less(r, c, q, k)), p, info, n);
    MarksAfterUnmark(b, c);
    assert k > 0 ==> c !in b.quota && c !in b.suspended;
    assert k == 0 ==> b.quota == r.quota && b.suspended == r.suspended;
  }

  lemma AgreeOnRecreated(r: Registration, c: string, q: string, k: nat, p: string, info: ModelInfo, n: nat)
    requires k > 0
    requires var l := Less(r, c, q, k); l.count == 0 && l.providers == map[] && l.infoByProvider == map[]
    ensures var a, b := Unmark(More(Some(Less(r, c, q, k)), p, info, n), c), More(None, p, info, n);
      && EraseMarks(a) == EraseMarks(b)
      && (SameMarks(a, b) <==> r.quota.Keys + r.suspended.Keys <= {c})
  {
    var l := Less(r, c, q, k);
    assert l.quota == r.quota - {c} && l.suspended == r.suspended - {c};
    MarksAfterUnmark(l, c);
    MarksAfterUnmark(r, c);
  }

  lemma MarksAfterUnmark(r: Registration, c: string)
    ensures Unmark(Unmark(r, c), c) == Unmark(r, c)
    ensures SameMarks(Unmark(r, c), r) <==> c !in r.quota && c !in r.suspended
    ensures Unmark(r, c).quota == map[] && Unmark(r, c).suspended == map[] <==> r.quota.Keys + r.suspended.Keys <= {c}
  {
    assert c !in r.quota ==> r.quota - {c} == r.quota;
    assert c !in r.suspended ==> r.suspended - {c} == r.suspended;
    OnlyKey(r.quota, c);
    OnlyKey(r.suspended, c);
  }

  lemma OnlyKey<V>(m: map<string, V>, c: string)
    ensures m - {c} == map[] <==> m.Keys <= {c}
  {
    assert (m - {c}).Keys == m.Keys - {c};
    assert m - {c} == map[] <==> (m - {c}).Keys == {};
  }

  /** In place or afresh, every model ends with the same registration up to marks. */
  lemma ReconcileIsRebuildUpToMarks(t: Tables, c: string, p: string, list: seq<Option<ModelInfo>>)
    requires Inv(t)
    ensures var a, b := Register(t, c, p, list), Rebuild(t, c, p, list);
      && a.models.Keys == b.models.Keys
      && (forall m :: m in a.models ==> EraseMarks(a.models[m]) == EraseMarks(b.models[m]))
      && a.(models := map[]) == b.(models := map[])
  {
    var ids, infos, u := RawIds(list), FirstInfos(list), Unregister(t, c);
    if c !in t.clientModels {
      UnknownClient(t, c);
    } else if ids == [] {
      UnregisterKeepsInv(t, c);
      UnknownClient(u, c);
    } else {
      ListIsClientOk(list);
      AgreeEverywhere(t, c, p, ids, infos);
      SameBindings(t, c, p, ids, infos);
    }
  }

  lemma AgreeEverywhere(t: Tables, c: string, p: string, ids: seq<string>, infos: Infos)
    requires Inv(t) && c in t.clientModels && ClientOk(ids, infos)
    ensures var a, b := Reconcile(t, c, p, ids, infos).models, Enrol(Unregister(t, c), c, p, ids, infos).models;
      a.Keys == b.Keys && forall m :: m in a ==> EraseMarks(a[m]) == EraseMarks(b[m])
  {
    var a, b := Reconcile(t, c, p, ids, infos).models, Enrol(Unregister(t, c), c, p, ids, infos).models;
    forall m ensures (m in a <==> m in b) && (m in a ==> EraseMarks(a[m]) == EraseMarks(b[m])) {
      AgreeAt(t, c, p, ids, infos, m);
    }
  }

  lemma SameBindings(t: Tables, c: string, p: string, ids: seq<string>, infos: Infos)
    requires ClientOk(ids, infos)
    ensures Reconcile(t, c, p, ids, infos).(models := map[]) ==
      Enrol(Unregister(t, c), c, p, ids, infos).(models := map[])
  {
    assert (t.clientModels - {c})[c := ids] == t.clientModels[c := ids];
    assert (t.clientInfos - {c})[c := infos] == t.clientInfos[c := infos];
    assert (t.clientProviders - {c})[c := p] == t.clientProviders[c := p];
    assert t.clientProviders - {c} - {c} == t.clientProviders - {c};
  }

  lemma {:induction false} ListIsClientOk(list: seq<Option<ModelInfo>>)
    ensures "" !in RawIds(list)
    ensures forall m :: m in FirstInfos(list) ==> FirstInfos(list)[m].id == m
    ensures RawIds(list) != [] ==> ClientOk(RawIds(list), FirstInfos(list))
  {
    if list == [] {
    } else {
      ListIsClientOk(list[..|list| - 1]);
    }
  }

  /** Re-registering in place gives exactly the tables of a rebuild, if and only if the marks are safe. */
  lemma ReconcileIsRebuild(t: Tables, c: string, p: string, list: seq<Option<ModelInfo>>)
    requires Inv(t)
    ensures Register(t, c, p, list) == Rebuild(t, c, p, list) <==> MarksSafe(t, c, list)
  {
    var ids, infos, a, b := RawIds(list), FirstInfos(list), Register(t, c, p, list), Rebuild(t, c, p, list);
    ReconcileIsRebuildUpToMarks(t, c, p, list);
    if c !in t.clientModels {
      UnknownClient(t, c);
    } else if ids == [] {
      UnregisterKeepsInv(t, c);
      UnknownClient(Unregister(t, c), c);
    } else {
      ListIsClientOk(list);
      forall m | m in a.models
        ensures SameMarks(a.models[m], b.models[m]) <==> (m in ids ==> MarksSafeAt(t, c, m))
      {
        AgreeAt(t, c, p, ids, infos, m);
      }
      assert forall m :: m in ids ==> m in multiset(ids) && m in a.models;
      MarksDecide(a.models, b.models);
    }
  }

  lemma MarksDecide(a: Models, b: Models)
    requires a.Keys == b.Keys
    requires forall m :: m in a ==> EraseMarks(a[m]) == EraseMarks(b[m])
    ensures a == b <==> forall m :: m in a ==> SameMarks(a[m], b[m])
  {
    forall m | m in a && SameMarks(a[m], b[m]) ensures a[m] == b[m] {
      assert a[m] == EraseMarks(a[m]).(quota := a[m].quota, suspended := a[m].suspended);
    }
  }

  lemma RegisterKeepsInv(t: Tables, c: string, p: string, list: seq<Option<ModelInfo>>)
    requires Inv(t)
    ensures Inv(Register(t, c, p, list))
  {
    UnregisterKeepsInv(t, c);
    if RawIds(list) != [] {
      ListIsClientOk(list);
      EnrolKeepsInv(Unregister(t, c), c, p, RawIds(list), FirstInfos(list));
      ReconcileIsRebuildUpToMarks(t, c, p, list);
      InvIgnoresMarks(Rebuild(t, c, p, list), Register(t, c, p, list));
    }
  }

  lemma InvIgnoresMarks(t: Tables, t': Tables)
    requires Inv(t)
    requires t'.(models := map[]) == t.(models := map[])
    requires t'.models.Keys == t.models.Keys
    requires forall m :: m in t.models ==> EraseMarks(t.models[m]) == EraseMarks(t'.models[m])
    ensures Inv(t')
  {
    forall m ensures Counted(t', m) {
      assert Counted(t, m);
      if m in t.models {
        assert EraseMarks(t.models[m]) == EraseMarks(t'.models[m]);
        forall p | p != "" ensures ProviderCounted(t', m, p) {
          ProviderIgnoresMarks(t, t', m, p);
        }
      }
    }
  }

  lemma ProviderIgnoresMarks(t: Tables, t': Tables, m: string, p: string)
    requires t'.(models := map[]) == t.(models := map[])
    requires m in t.models && m in t'.models && EraseMarks(t.models[m]) == EraseMarks(t'.models[m])
    requires ProviderCounted(t, m, p)
    ensures ProviderCounted(t', m, p)
  {
    assert ProviderWeights(t', m, p) == ProviderWeights(t, m, p);
  }

  // ----- when marks are only set for clients that hold the model -----

  predicate Marked(t: Tables, c: string, m: string) {
    m in t.models && (c in t.models[m].quota || c in t.models[m].suspended)
  }

  /** Every mark belongs to a client that lists the model. */
  ghost predicate MarksHeld(t: Tables) {
    forall c, m :: Marked(t, c, m) ==> BagOf(t, c)[m] > 0
  }

  /** Then re-registering in place is always a rebuild. */
  lemma HeldMarksAreSafe(t: Tables, c: string, p: string, list: seq<Option<ModelInfo>>)
    requires Inv(t) && MarksHeld(t)
    ensures Register(t, c, p, list) == Rebuild(t, c, p, list)
  {
    forall m | m in RawIds(list) && c in t.clientModels ensures MarksSafeAt(t, c, m) {
      HeldMarksAreSafeAt(t, c, m);
    }
    ReconcileIsRebuild(t, c, p, list);
  }

  lemma HeldMarksAreSafeAt(t: Tables, c: string, m: string)
    requires Inv(t) && MarksHeld(t)
    ensures MarksSafeAt(t, c, m)
  {
    assert Counted(t, m) && (Marked(t, c, m) ==> BagOf(t, c)[m] > 0);
    if m in t.models && t.models[m].count == BagOf(t, c)[m] {
      forall d | d in t.models[m].quota.Keys + t.models[m].suspended.Keys ensures d == c {
        assert Marked(t, d, m);
        if d != c { TwoHolders(t, c, d, m); }
      }
    }
  }

  lemma TwoHolders(t: Tables, c: string, d: string, m: string)
    requires c != d && BagOf(t, c)[m] > 0 && BagOf(t, d)[m] > 0
    ensures Total(t, m) > BagOf(t, c)[m]
  {
    var t' := Forget(t, c);
    TotalsWithout(t, t', c, m, "");
    TotalsNonNegative(t', m, "");
    assert d in t'.clientModels && BagOf(t', d) == BagOf(t, d);
  }

  /** Without that discipline the two differ: client "a" is re-registered for the one model it
      holds, on which a client that does not hold it was suspended. */
  lemma StrayMarkDiverges()
    ensures var info := ModelInfo("m", 0, "");
      var t := Suspend(Register(EMPTY, "a", "p", [Some(info)]), "b", "m", "stray");
      Inv(t) && Register(t, "a", "p", [Some(info)]) != Rebuild(t, "a", "p", [Some(info)])
  {
    var info := ModelInfo("m", 0, "");
    var list := [Some(info)];
    EmptyInv();
    RegisterKeepsInv(EMPTY, "a", "p", list);
    var t0 := Register(EMPTY, "a", "p", list);
    assert list[..0] == [];
    assert RawIds(list) == ["m"] && FirstInfos(list) == map["m" := info];
    var t := Suspend(t0, "b", "m", "stray");
    InvIgnoresMarks(t0, t);
    assert t.models["m"].count == 1 && BagOf(t, "a")["m"] == 1;
    assert "b" in t.models["m"].suspended;
    assert !MarksSafeAt(t, "a", "m");
    ReconcileIsRebuild(t, "a", "p", list);
  }

  lemma EmptyInv()
    ensures Inv(EMPTY) && MarksHeld(EMPTY)
  {
    forall m ensures Counted(EMPTY, m) {
      assert Weights(EMPTY.clientModels, m) == map[];
    }
  }
}
