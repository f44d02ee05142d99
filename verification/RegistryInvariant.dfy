/** The registry's counters always equal sums over its clients, and re-registering a client
    is the same as removing it and registering it afresh. */
module RegistryInvariant {
  import opened Collections
  import opened MapSums
  import opened RegistryState

  // ----- the counters' meaning -----

  /** How often each client lists model m. */
  function Weights(clientModels: map<string, seq<string>>, m: string): map<string, int> {
    map c | c in clientModels :: multiset(clientModels[c])[m]
  }

  /** The same, counting only the clients of provider p. */
  function ProviderWeights(t: Tables, m: string, p: string): map<string, int> {
    map c | c in t.clientModels :: if ProviderOf(t, c) == p then multiset(t.clientModels[c])[m] else 0
  }

  ghost function Total(t: Tables, m: string): int {
    Sum(Weights(t.clientModels, m))
  }

  ghost function ProviderTotal(t: Tables, m: string, p: string): int {
    Sum(ProviderWeights(t, m, p))
  }

  /** The three client tables agree with each other. */
  ghost predicate Bookkeeping(t: Tables) {
    && t.clientInfos.Keys == t.clientModels.Keys
    && t.clientProviders.Keys <= t.clientModels.Keys
    && (forall c :: c in t.clientProviders ==> t.clientProviders[c] != "")
    && (forall c :: c in t.clientModels ==> ClientOk(t.clientModels[c], t.clientInfos[c]))
  }

  ghost predicate ClientOk(ids: seq<string>, infos: Infos) {
    && ids != []
    && "" !in ids
    && infos.Keys == Elements(ids)
    && forall m :: m in infos ==> infos[m].id == m
  }

  /** Model m is registered exactly when some client lists it, its count is the total number of
      listings, its provider counts are the listings per provider (and positive), and exactly the
      counted providers have their own metadata. */
  ghost predicate Counted(t: Tables, m: string) {
    && (m in t.models <==> Total(t, m) > 0)
    && (m in t.models ==>
          && t.models[m].info.id == m
          && t.models[m].count == Total(t, m)
          && t.models[m].infoByProvider.Keys == t.models[m].providers.Keys
          && "" !in t.models[m].providers
          && forall p :: p != "" ==> ProviderCounted(t, m, p))
  }

  ghost predicate ProviderCounted(t: Tables, m: string, p: string)
    requires m in t.models
  {
    && (p in t.models[m].providers <==> ProviderTotal(t, m, p) > 0)
    && (p in t.models[m].providers ==> t.models[m].providers[p] == ProviderTotal(t, m, p))
  }

  ghost predicate Inv(t: Tables) {
    Bookkeeping(t) && forall m :: Counted(t, m)
  }

  lemma TotalsNonNegative(t: Tables, m: string, p: string)
    ensures Total(t, m) >= 0 && ProviderTotal(t, m, p) >= 0
    ensures ProviderTotal(t, m, p) <= Total(t, m)
    ensures forall c :: c in t.clientModels ==> BagOf(t, c)[m] <= Total(t, m)
    ensures forall c :: c in t.clientModels && ProviderOf(t, c) == p ==> BagOf(t, c)[m] <= ProviderTotal(t, m, p)
  {
    SumNonNegative(Weights(t.clientModels, m));
    SumNonNegative(ProviderWeights(t, m, p));
    forall c | c in t.clientModels
      ensures BagOf(t, c)[m] <= Total(t, m)
      ensures ProviderOf(t, c) == p ==> BagOf(t, c)[m] <= ProviderTotal(t, m, p)
    {
      assert Weights(t.clientModels, m)[c] == BagOf(t, c)[m];
      assert c in ProviderWeights(t, m, p);
    }
    SumMonotone(ProviderWeights(t, m, p), Weights(t.clientModels, m));
  }

  lemma {:induction false} SumMonotone(a: map<string, int>, b: map<string, int>)
    requires a.Keys == b.Keys
    requires forall k :: k in a ==> a[k] <= b[k]
    ensures Sum(a) <= Sum(b)
    decreases |a|
  {
    if a == map[] {
      assert b == map[];
    } else {
      var k :| k in a;
      SumSplit(a, k);
      SumSplit(b, k);
      SumMonotone(a - {k}, b - {k});
    }
  }

  // ----- one client's listings change -----

  /** The totals after client c's entry is dropped. */
  lemma SumWithout(w: map<string, int>, c: string)
    ensures Sum(w - {c}) == Sum(w) - if c in w then w[c] else 0
  {
    if c in w {
      SumSplit(w, c);
    } else {
      assert w - {c} == w;
    }
  }

  lemma TotalsWithout(t: Tables, t': Tables, c: string, m: string, p: string)
    requires t'.clientModels == t.clientModels - {c}
    requires t'.clientProviders == t.clientProviders - {c}
    ensures Total(t', m) == Total(t, m) - BagOf(t, c)[m]
    ensures ProviderTotal(t', m, p) == ProviderTotal(t, m, p) - if ProviderOf(t, c) == p then BagOf(t, c)[m] else 0
  {
    ProviderTotalWithout(t, t', c, m, p);
    var w := Weights(t.clientModels, m);
    assert Weights(t'.clientModels, m) == w - {c};
    SumWithout(w, c);
  }

  lemma ProviderTotalWithout(t: Tables, t': Tables, c: string, m: string, p: string)
    requires t'.clientModels == t.clientModels - {c}
    requires t'.clientProviders == t.clientProviders - {c}
    ensures ProviderTotal(t', m, p) == ProviderTotal(t, m, p) - if ProviderOf(t, c) == p then BagOf(t, c)[m] else 0
  {
    var v := ProviderWeights(t, m, p);
    assert ProviderWeights(t', m, p) == v - {c};
    SumWithout(v, c);
  }

  /** The totals after a new client c is bound to ids under provider q. */
  lemma TotalWith(t: Tables, t': Tables, c: string, ids: seq<string>, m: string)
    requires c !in t.clientModels
    requires t'.clientModels == t.clientModels[c := ids]
    ensures Total(t', m) == Total(t, m) + multiset(ids)[m]
  {
    var w, w' := Weights(t.clientModels, m), Weights(t'.clientModels, m);
    assert w'.Keys == w[c := multiset(ids)[m]].Keys;
    assert w' == w[c := multiset(ids)[m]];
    SumUpdate(w, c, multiset(ids)[m]);
  }

  lemma ProviderTotalWith(t: Tables, t': Tables, c: string, q: string, ids: seq<string>, m: string, p: string)
    requires c !in t.clientModels
    requires t'.clientModels == t.clientModels[c := ids]
    requires ProviderOf(t', c) == q
    requires forall d :: d != c ==> ProviderOf(t', d) == ProviderOf(t, d)
    ensures ProviderTotal(t', m, p) == ProviderTotal(t, m, p) + if q == p then multiset(ids)[m] else 0
  {
    var v, v' := ProviderWeights(t, m, p), ProviderWeights(t', m, p);
    var k := if q == p then multiset(ids)[m] else 0;
    assert v'.Keys == v[c := k].Keys;
    forall d | d in v' ensures v'[d] == v[c := k][d] {
      if d != c { assert d in t.clientModels; }
    }
    assert v' == v[c := k];
    SumUpdate(v, c, k);
  }

  // ----- every mutator keeps the invariant -----

  lemma UnregisterKeepsInv(t: Tables, c: string)
    requires Inv(t)
    ensures Inv(Unregister(t, c))
  {
    forall m ensures Counted(Unregister(t, c), m) {
      UnregisterCounts(t, c, m);
    }
  }

  /** Debit lowers p's count by k, dropping p when it reaches zero, and leaves other providers alone. */
  lemma DebitAt(providers: map<string, int>, p: string, k: nat, q: string)
    ensures var d := Debit(providers, p, k);
      if q == p && p != "" && k > 0 then
        (q in d <==> q in providers && providers[q] > k) && (q in d ==> d[q] == providers[q] - k)
      else Lookup(d, q) == Lookup(providers, q)
  {
  }

  ghost predicate SameKeys(r: Registration) {
    r.infoByProvider.Keys == r.providers.Keys && "" !in r.providers
  }

  lemma LessKeepsKeys(r: Registration, c: string, p: string, k: nat)
    requires SameKeys(r)
    ensures SameKeys(Less(r, c, p, k))
    ensures Less(r, c, p, k).count == r.count - k && Less(r, c, p, k).info == r.info
  {
  }

  lemma MoreKeepsKeys(r: Option<Registration>, p: string, info: ModelInfo, k: nat)
    requires r.Some? ==> SameKeys(r.value)
    requires k > 0
    ensures SameKeys(More(r, p, info, k))
  {
  }

  lemma UnregisterCounts(t: Tables, c: string, m: string)
    requires Bookkeeping(t) && Counted(t, m)
    ensures Counted(Unregister(t, c), m)
  {
    var t', p, k := Unregister(t, c), ProviderOf(t, c), BagOf(t, c)[m];
    assert Total(t', m) == Total(t, m) - k && Total(t', m) >= 0 by {
      TotalsWithout(t, t', c, m, p);
      TotalsNonNegative(t', m, p);
    }
    if m in t'.models {
      LessKeepsKeys(t.models[m], c, p, k);
      forall q | q != "" ensures ProviderCounted(t', m, q) {
        assert ProviderCounted(t, m, q);
        UnregisterProviderCounts(t, c, m, q);
      }
    }
  }

  lemma UnregisterProviderCounts(t: Tables, c: string, m: string, q: string)
    requires q != "" && m in t.models && m in Unregister(t, c).models
    requires ProviderCounted(t, m, q)
    ensures ProviderCounted(Unregister(t, c), m, q)
  {
    var p, k := ProviderOf(t, c), BagOf(t, c)[m];
    TotalsWithout(t, Unregister(t, c), c, m, q);
    TotalsNonNegative(t, m, q);
    DebitAt(t.models[m].providers, p, k, q);
  }

  lemma EnrolKeepsInv(t: Tables, c: string, p: string, ids: seq<string>, infos: Infos)
    requires Inv(t) && c !in t.clientModels && ClientOk(ids, infos)
    ensures Inv(Enrol(t, c, p, ids, infos))
  {
    forall m ensures Counted(Enrol(t, c, p, ids, infos), m) {
      EnrolCounts(t, c, p, ids, infos, m);
    }
  }

  lemma EnrolCounts(t: Tables, c: string, p: string, ids: seq<string>, infos: Infos, m: string)
    requires Bookkeeping(t) && Counted(t, m) && c !in t.clientModels && ClientOk(ids, infos)
    ensures Counted(Enrol(t, c, p, ids, infos), m)
  {
    var t', k := Enrol(t, c, p, ids, infos), multiset(ids)[m];
    TotalWith(t, t', c, ids, m);
    TotalsNonNegative(t, m, p);
    if m in t'.models {
      if k > 0 {
        MoreKeepsKeys(Lookup(t.models, m), p, infos[m], k);
      }
      forall q | q != "" ensures ProviderCounted(t', m, q) {
        if m in t.models { assert ProviderCounted(t, m, q); }
        EnrolProviderCounts(t, c, p, ids, infos, m, q);
      }
    }
  }

  lemma EnrolProviderTotal(t: Tables, c: string, p: string, ids: seq<string>, infos: Infos, m: string, q: string)
    requires c !in t.clientModels && ClientOk(ids, infos)
    ensures ProviderTotal(Enrol(t, c, p, ids, infos), m, q) ==
      ProviderTotal(t, m, q) + if p == q then multiset(ids)[m] else 0
  {
    ProviderTotalWith(t, Enrol(t, c, p, ids, infos), c, p, ids, m, q);
  }

  lemma EnrolProviderCounts(t: Tables, c: string, p: string, ids: seq<string>, infos: Infos, m: string, q: string)
    requires q != "" && c !in t.clientModels && ClientOk(ids, infos)
    requires m in Enrol(t, c, p, ids, infos).models
    requires if m in t.models then ProviderCounted(t, m, q) else Total(t, m) <= 0
    ensures ProviderCounted(Enrol(t, c, p, ids, infos), m, q)
  {
    hide Enrol, Total, ProviderTotal, ProviderCounted, ProviderOf, BagOf;
    EnrolProviderTotal(t, c, p, ids, infos, m, q);
    TotalsNonNegative(t, m, q);
    EnrolProviders(t, c, p, ids, infos, m, q);
    MoreCounted(t, Enrol(t, c, p, ids, infos), m, q, if p == q then multiset(ids)[m] else 0);
  }

  lemma MoreCounted(t: Tables, t': Tables, m: string, q: string, more: nat)
    requires m in t'.models && ProviderTotal(t', m, q) == ProviderTotal(t, m, q) + more
    requires if m in t.models then ProviderCounted(t, m, q) else ProviderTotal(t, m, q) == 0
    requires var before := if m in t.models && q in t.models[m].providers then t.models[m].providers[q] else 0;
      Lookup(t'.models[m].providers, q) ==
        if more > 0 || (m in t.models && q in t.models[m].providers) then Some(before + more) else None
    requires ProviderTotal(t, m, q) >= 0
    ensures ProviderCounted(t', m, q)
  {
  }

  lemma EnrolProviders(t: Tables, c: string, p: string, ids: seq<string>, infos: Infos, m: string, q: string)
    requires q != "" && ClientOk(ids, infos) && m in Enrol(t, c, p, ids, infos).models
    ensures var before := if m in t.models && q in t.models[m].providers then t.models[m].providers[q] else 0;
      var more := if p == q then multiset(ids)[m] else 0;
      var after := Enrol(t, c, p, ids, infos).models[m].providers;
      Lookup(after, q) ==
        if more > 0 || (m in t.models && q in t.models[m].providers) then Some(before + more) else None
  {
  }
}
