/** The single-reference steps the registry's loops take, and how they add up. */
module RegistrySteps {
  import opened Collections
  import opened RegistryState
  import opened RegistryInvariant

  // ----- one model, k references -----

  function RemoveAt(models: Models, c: string, m: string, p: string, k: nat): Models {
    if m !in models || k == 0 then models
    else if models[m].count > k then models[m := Less(models[m], c, p, k)]
    else models - {m}
  }

  function AddAt(models: Models, m: string, p: string, info: ModelInfo, k: nat): Models {
    if k == 0 then models else models[m := More(Lookup(models, m), p, info, k)]
  }

  lemma LessAgain(r: Registration, c: string, p: string, k: nat)
    ensures Less(Less(r, c, p, k), c, p, 1) == Less(r, c, p, k + 1)
  {
    DebitAgain(r, p, k);
    var a, b := Less(Less(r, c, p, k), c, p, 1), Less(r, c, p, k + 1);
    hide Debit, DebitInfos;
    assert a.providers == b.providers && a.infoByProvider == b.infoByProvider;
    assert a.quota == b.quota && a.suspended == b.suspended;
  }

  lemma DebitAgain(r: Registration, p: string, k: nat)
    ensures var d := DebitProvider(r, p, k);
      && Debit(d.providers, p, 1) == Debit(r.providers, p, k + 1)
      && DebitInfos(d.infoByProvider, d.providers, p, 1) == DebitInfos(r.infoByProvider, r.providers, p, k + 1)
  {
  }

  lemma LessNone(r: Registration, c: string, p: string)
    ensures Less(r, c, p, 0) == r
    ensures forall k: nat :: Less(r, c, p, k).count == r.count - k
  {
  }

  lemma RemoveAgain(models: Models, c: string, m: string, p: string, k: nat)
    ensures RemoveAt(RemoveAt(models, c, m, p, k), c, m, p, 1) == RemoveAt(models, c, m, p, k + 1)
  {
    if m in models && models[m].count > k { LessAgain(models[m], c, p, k); }
  }

  lemma MoreAgain(r: Option<Registration>, p: string, info: ModelInfo, k: nat)
    requires k > 0
    ensures More(Some(More(r, p, info, k)), p, info, 1) == More(r, p, info, k + 1)
  {
  }

  lemma AddAgain(models: Models, m: string, p: string, info: ModelInfo, k: nat)
    ensures AddAt(AddAt(models, m, p, info, k), m, p, info, 1) == AddAt(models, m, p, info, k + 1)
  {
    if k > 0 { MoreAgain(Lookup(models, m), p, info, k); }
  }

  // ----- a whole list of IDs, one reference each -----

  lemma RemovedOneMore(models: Models, c: string, p: string, bag: Bag, m: string)
    ensures RemoveAt(Removed(models, c, p, bag), c, m, p, 1) == Removed(models, c, p, bag + multiset{m})
  {
    var bag' := bag + multiset{m};
    var a, b := RemoveAt(Removed(models, c, p, bag), c, m, p, 1), Removed(models, c, p, bag');
    forall n ensures Lookup(a, n) == Lookup(b, n) {
      assert bag'[n] == if n == m then bag[n] + 1 else bag[n];
      hide Less;
      if n == m && m in models && models[m].count > bag[m] {
        LessAgain(models[m], c, p, bag[m]);
        LessNone(models[m], c, p);
      }
    }
    SameLookups(a, b);
  }

  lemma AddedNone(models: Models, p: string, infos: Infos)
    ensures Support(multiset{}) <= infos.Keys && Added(models, p, infos, multiset{}) == models
  {
  }

  lemma AddedOneMore(models: Models, p: string, infos: Infos, bag: Bag, m: string)
    requires Support(bag) <= infos.Keys && m in infos
    ensures Support(bag + multiset{m}) <= infos.Keys
    ensures AddAt(Added(models, p, infos, bag), m, p, infos[m], 1) == Added(models, p, infos, bag + multiset{m})
  {
    var bag' := bag + multiset{m};
    forall n | n in Support(bag') ensures n in infos {
      assert n == m || n in Support(bag);
    }
    var a, b := AddAt(Added(models, p, infos, bag), m, p, infos[m], 1), Added(models, p, infos, bag');
    forall n ensures Lookup(a, n) == Lookup(b, n) {
      assert bag'[n] == if n == m then bag[n] + 1 else bag[n];
      if n == m && m in bag {
        MoreAgain(Lookup(models, m), p, infos[m], bag[m]);
      }
    }
    SameLookups(a, b);
  }

  // ----- the five passes of re-registration; ids are those already visited -----

  function Shifted(models: Models, ids: set<string>, oldP: string, oldBag: Bag, newBag: Bag): Models {
    map m | m in models :: if m in ids then DebitProvider(models[m], oldP, Min(oldBag[m], newBag[m])) else models[m]
  }

  function Surplus(oldBag: Bag, newBag: Bag, m: string): nat {
    if oldBag[m] > newBag[m] then oldBag[m] - newBag[m] else 0
  }

  function Trimmed(models: Models, ids: set<string>, c: string, p: string, oldBag: Bag, newBag: Bag): Models {
    map m | m in models && (m in ids ==> Survives(models[m], Surplus(oldBag, newBag, m))) ::
      if m in ids then Less(models[m], c, p, Surplus(oldBag, newBag, m)) else models[m]
  }

  function Grown(models: Models, ids: set<string>, p: string, infos: Infos, oldBag: Bag, newBag: Bag): Models
    requires ids <= infos.Keys
  {
    map m | m in models.Keys + (set n | n in ids && Surplus(newBag, oldBag, n) > 0) ::
      if m in ids && Surplus(newBag, oldBag, m) > 0
      then More(Lookup(models, m), p, infos[m], Surplus(newBag, oldBag, m)) else models[m]
  }

  function Refresh(r: Registration, c: string, p: string, info: ModelInfo, carried: nat): Registration {
    Unmark(r.(info := info,
              infoByProvider := CreditInfos(r.infoByProvider, p, info),
              providers := Credit(r.providers, p, carried)), c)
  }

  function Refreshed(models: Models, ids: set<string>, c: string, p: string, changed: bool, infos: Infos, oldBag: Bag,
          newBag: Bag): Models
    requires ids <= infos.Keys
  {
    map m | m in models ::
      if m in ids then Refresh(models[m], c, p, infos[m], if changed then Min(oldBag[m], newBag[m]) else 0)
        else models[m]
  }

  // ----- visiting one more ID -----

  lemma TrimmedOneMore(models: Models, ids: set<string>, todo: set<string>, c: string, p: string, oldBag: Bag,
          newBag: Bag, m: string)
    requires m in ids && m in todo
    ensures RemoveAt(Trimmed(models, ids - todo, c, p, oldBag, newBag), c, m, p, Surplus(oldBag, newBag, m))
            == Trimmed(models, ids - (todo - {m}), c, p, oldBag, newBag)
  {
    var a := RemoveAt(Trimmed(models, ids - todo, c, p, oldBag, newBag), c, m, p, Surplus(oldBag, newBag, m));
    var b := Trimmed(models, ids - (todo - {m}), c, p, oldBag, newBag);
    forall n ensures Lookup(a, n) == Lookup(b, n) {
      TrimmedAt(models, ids - todo, c, p, oldBag, newBag, n);
      TrimmedAt(models, ids - (todo - {m}), c, p, oldBag, newBag, n);
    }
    SameLookups(a, b);
  }

  lemma GrownOneMore(models: Models, ids: set<string>, todo: set<string>, p: string, infos: Infos, oldBag: Bag,
          newBag: Bag, m: string)
    requires ids <= infos.Keys && m in ids && m in todo
    ensures AddAt(Grown(models, ids - todo, p, infos, oldBag, newBag), m, p, infos[m], Surplus(newBag, oldBag, m))
            == Grown(models, ids - (todo - {m}), p, infos, oldBag, newBag)
  {
    var a := AddAt(Grown(models, ids - todo, p, infos, oldBag, newBag), m, p, infos[m], Surplus(newBag, oldBag, m));
    var b := Grown(models, ids - (todo - {m}), p, infos, oldBag, newBag);
    forall n ensures Lookup(a, n) == Lookup(b, n) {
      GrownAt(models, ids - todo, p, infos, oldBag, newBag, n);
      GrownAt(models, ids - (todo - {m}), p, infos, oldBag, newBag, n);
    }
    SameLookups(a, b);
  }

  lemma RefreshedOneMore(models: Models, ids: set<string>, c: string, p: string, changed: bool, infos: Infos,
          oldBag: Bag, newBag: Bag, m: string)
    requires ids <= infos.Keys && m in infos && m !in ids
    ensures var before := Refreshed(models, ids, c, p, changed, infos, oldBag, newBag);
      var after := Refreshed(models, ids + {m}, c, p, changed, infos, oldBag, newBag);
      after == if m !in before then before
               else before[m := Refresh(before[m], c, p, infos[m], if changed then Min(oldBag[m], newBag[m]) else 0)]
  {
  }

  // ----- what each pass does to one model -----

  function ShiftEntry(r: Option<Registration>, visited: bool, oldP: string, k: nat): Option<Registration> {
    if r.Some? && visited then Some(DebitProvider(r.value, oldP, k)) else r
  }

  function TrimEntry(r: Option<Registration>, visited: bool, c: string, p: string, k: nat): Option<Registration> {
    if r.None? || !visited then r
    else if Survives(r.value, k) then Some(Less(r.value, c, p, k))
    else None
  }

  function GrowEntry(r: Option<Registration>, p: string, info: ModelInfo, k: nat): Option<Registration> {
    if k > 0 then Some(More(r, p, info, k)) else r
  }

  function RefreshEntry(r: Option<Registration>, c: string, p: string, info: ModelInfo,
          carried: nat): Option<Registration> {
    if r.Some? then Some(Refresh(r.value, c, p, info, carried)) else None
  }

  /** The five passes together. */
  function Passes(t: Tables, c: string, p: string, infos: Infos, newBag: Bag): Models
    requires Support(newBag) <= infos.Keys
  {
    var oldP, oldBag, ids := ProviderOf(t, c), BagOf(t, c), Support(newBag);
    var shifted := if oldP != p then Shifted(t.models, ids, oldP, oldBag, newBag) else t.models;
    var trimmed := Trimmed(Trimmed(shifted, Support(oldBag) - ids, c, oldP, oldBag, newBag),
                           Support(oldBag) * ids, c, oldP, oldBag, newBag);
    Refreshed(Grown(trimmed, ids, p, infos, oldBag, newBag), ids, c, p, oldP != p, infos, oldBag, newBag)
  }

  /** They amount to giving up the old references and taking the new ones. */
  lemma PassesReconcile(t: Tables, c: string, p: string, infos: Infos, newBag: Bag)
    requires Inv(t) && Support(newBag) <= infos.Keys && forall m :: m in newBag ==> m != ""
    ensures Passes(t, c, p, infos, newBag) == Reconciled(t.models, c, ProviderOf(t, c), BagOf(t, c), p, infos, newBag)
  {
    forall m ensures Lookup(Passes(t, c, p, infos, newBag), m) ==
                     Lookup(Reconciled(t.models, c, ProviderOf(t, c), BagOf(t, c), p, infos, newBag), m)
    {
      PassesAt(t, c, p, infos, newBag, m);
    }
    SameLookups(Passes(t, c, p, infos, newBag),
      Reconciled(t.models, c, ProviderOf(t, c), BagOf(t, c), p, infos, newBag));
  }

  lemma PassesAt(t: Tables, c: string, p: string, infos: Infos, newBag: Bag, m: string)
    requires Inv(t) && Support(newBag) <= infos.Keys
    ensures Lookup(Passes(t, c, p, infos, newBag), m) ==
            Lookup(Reconciled(t.models, c, ProviderOf(t, c), BagOf(t, c), p, infos, newBag), m)
  {
    HolderCounted(t, c, m);
    PassesEntry(t, c, p, infos, newBag, m);
    ReconciledAt(t.models, c, ProviderOf(t, c), BagOf(t, c), p, infos, newBag, m);
    SameEntry(Lookup(t.models, m), c, ProviderOf(t, c), BagOf(t, c)[m], p, Lookup(infos, m), newBag[m]);
  }

  /** What the passes leave of a model with o old and n new references. */
  function PassEntry(r: Option<Registration>, c: string, oldP: string, o: nat, p: string, info: Option<ModelInfo>,
          n: nat): Option<Registration>
    requires n > 0 ==> info.Some?
  {
    if n == 0 then TrimEntry(r, o > 0, c, oldP, o)
    else
      var shifted := ShiftEntry(r, oldP != p, oldP, Min(o, n));
      var trimmed := TrimEntry(shifted, o > 0, c, oldP, if o > n then o - n else 0);
      var grown := GrowEntry(trimmed, p, info.value, if n > o then n - o else 0);
      RefreshEntry(grown, c, p, info.value, if oldP != p then Min(o, n) else 0)
  }

  /** What Reconciled says of it. */
  function ReconcileEntry(r: Option<Registration>, c: string, oldP: string, o: nat, p: string,
          info: Option<ModelInfo>, n: nat): Option<Registration>
    requires n > 0 ==> info.Some?
  {
    if n > 0 then
      Some(Unmark(More(if r.Some? then Some(Less(r.value, c, oldP, o)) else None, p, info.value, n), c))
    else if r.Some? && Survives(r.value, o) then Some(Less(r.value, c, oldP, o))
    else None
  }

  lemma SameEntry(r: Option<Registration>, c: string, oldP: string, o: nat, p: string, info: Option<ModelInfo>, n: nat)
    requires n > 0 ==> info.Some?
    requires o > 0 ==> r.Some? && r.value.count >= o
    requires o > 0 && oldP != "" ==> oldP in r.value.providers && r.value.providers[oldP] >= o
    ensures PassEntry(r, c, oldP, o, p, info, n) == ReconcileEntry(r, c, oldP, o, p, info, n)
  {
    if n > 0 {
      match r
      case Some(r) =>
        KeptAt(r, c, oldP, o, p, info.value, n);
      case None =>
        assert Refresh(More(None, p, info.value, n), c, p, info.value, 0) == Unmark(More(None, p, info.value, n), c);
    }
  }

  lemma ReconciledAt(models: Models, c: string, oldP: string, oldBag: Bag,
                     p: string, infos: Infos, newBag: Bag, m: string)
    requires Support(newBag) <= infos.Keys
    ensures newBag[m] > 0 ==> m in infos
    ensures Lookup(Reconciled(models, c, oldP, oldBag, p, infos, newBag), m) ==
            ReconcileEntry(Lookup(models, m), c, oldP, oldBag[m], p, Lookup(infos, m), newBag[m])
  {
    assert m in Support(newBag) <==> newBag[m] > 0;
  }

  lemma HolderCounted(t: Tables, c: string, m: string)
    requires Inv(t)
    ensures var oldP, o := ProviderOf(t, c), BagOf(t, c)[m];
      o > 0 ==>
        && m in t.models
        && t.models[m].count >= o
        && (oldP != "" ==> oldP in t.models[m].providers && t.models[m].providers[oldP] >= o)
  {
    var oldP := ProviderOf(t, c);
    assert Counted(t, m);
    TotalsNonNegative(t, m, oldP);
    if oldP != "" && m in t.models { assert ProviderCounted(t, m, oldP); }
  }

  function Kept(r: Registration, c: string, oldP: string, o: nat, p: string, info: ModelInfo, n: nat): Registration {
    var shifted := if oldP != p then DebitProvider(r, oldP, Min(o, n)) else r;
    var trimmed := Less(shifted, c, oldP, if o > n then o - n else 0);
    var grown := if n > o then More(Some(trimmed), p, info, n - o) else trimmed;
    Refresh(grown, c, p, info, if oldP != p then Min(o, n) else 0)
  }

  lemma PassesEntry(t: Tables, c: string, p: string, infos: Infos, newBag: Bag, m: string)
    requires Support(newBag) <= infos.Keys
    requires m in t.models || BagOf(t, c)[m] == 0
    ensures newBag[m] > 0 ==> m in infos
    ensures Lookup(Passes(t, c, p, infos, newBag), m) ==
            PassEntry(Lookup(t.models, m), c, ProviderOf(t, c), BagOf(t, c)[m], p, Lookup(infos, m), newBag[m])
  {
    var oldP, oldBag, ids := ProviderOf(t, c), BagOf(t, c), Support(newBag);
    var shifted := if oldP != p then Shifted(t.models, ids, oldP, oldBag, newBag) else t.models;
    var trimmed1 := Trimmed(shifted, Support(oldBag) - ids, c, oldP, oldBag, newBag);
    var trimmed2 := Trimmed(trimmed1, Support(oldBag) * ids, c, oldP, oldBag, newBag);
    TrimmedAt(shifted, Support(oldBag) - ids, c, oldP, oldBag, newBag, m);
    TrimmedAt(trimmed1, Support(oldBag) * ids, c, oldP, oldBag, newBag, m);
    GrownAt(trimmed2, ids, p, infos, oldBag, newBag, m);
    assert m in ids <==> newBag[m] > 0;
    assert m in Support(oldBag) <==> oldBag[m] > 0;
  }

  lemma TrimmedAt(models: Models, ids: set<string>, c: string, p: string, oldBag: Bag, newBag: Bag, m: string)
    ensures Lookup(Trimmed(models, ids, c, p, oldBag, newBag), m) ==
      TrimEntry(Lookup(models, m), m in ids, c, p, Surplus(oldBag, newBag, m))
  {
  }

  lemma GrownAt(models: Models, ids: set<string>, p: string, infos: Infos, oldBag: Bag, newBag: Bag, m: string)
    requires ids <= infos.Keys
    ensures Lookup(Grown(models, ids, p, infos, oldBag, newBag), m) ==
            if m in ids then GrowEntry(Lookup(models, m), p, infos[m], Surplus(newBag, oldBag, m))
              else Lookup(models, m)
  {
  }

  /** A model listed before and after, whose provider's count covers the old references. */
  lemma KeptAt(r: Registration, c: string, oldP: string, o: nat, p: string, info: ModelInfo, n: nat)
    requires n > 0
    requires o > 0 && oldP != "" ==> oldP in r.providers && r.providers[oldP] >= o
    ensures Kept(r, c, oldP, o, p, info, n) == Unmark(More(Some(Less(r, c, oldP, o)), p, info, n), c)
  {
    if oldP == p {
      KeptSameProvider(r, c, p, o, info, n);
    } else {
      KeptNewProvider(r, c, oldP, o, p, info, n);
    }
  }

  lemma KeptSameProvider(r: Registration, c: string, p: string, o: nat, info: ModelInfo, n: nat)
    requires n > 0
    requires o > 0 && p != "" ==> p in r.providers && r.providers[p] >= o
    ensures Kept(r, c, p, o, p, info, n) == Unmark(More(Some(Less(r, c, p, o)), p, info, n), c)
  {
    CountsSameProvider(r.providers, p, o, n);
    InfosSameProvider(r.infoByProvider, r.providers, p, o, info, n);
    MarksTwice(r, c);
  }

  lemma CountsSameProvider(v: map<string, int>, p: string, o: nat, n: nat)
    requires n > 0
    requires o > 0 && p != "" ==> p in v && v[p] >= o
    ensures var trimmed := if o > n then Debit(v, p, o - n) else v;
      (if n > o then Credit(trimmed, p, n - o) else trimmed) == Credit(Debit(v, p, o), p, n)
  {
  }

  lemma InfosSameProvider(infos: Infos, v: map<string, int>, p: string, o: nat, info: ModelInfo, n: nat)
    ensures var trimmed := if o > n then DebitInfos(infos, v, p, o - n) else infos;
      CreditInfos(trimmed, p, info) == CreditInfos(DebitInfos(infos, v, p, o), p, info)
    ensures var trimmed := if o > n then DebitInfos(infos, v, p, o - n) else infos;
      CreditInfos(CreditInfos(trimmed, p, info), p, info) == CreditInfos(DebitInfos(infos, v, p, o), p, info)
  {
  }

  lemma MarksTwice(r: Registration, c: string)
    ensures r.quota - {c} - {c} == r.quota - {c} && r.suspended - {c} - {c} == r.suspended - {c}
  {
  }

  lemma KeptNewProvider(r: Registration, c: string, oldP: string, o: nat, p: string, info: ModelInfo, n: nat)
    requires n > 0 && oldP != p
    requires o > 0 && oldP != "" ==> oldP in r.providers && r.providers[oldP] >= o
    ensures Kept(r, c, oldP, o, p, info, n) == Unmark(More(Some(Less(r, c, oldP, o)), p, info, n), c)
  {
    CountsNewProvider(r.providers, oldP, o, p, n);
    InfosNewProvider(r.infoByProvider, r.providers, oldP, o, p, info, n);
    MarksTwice(r, c);
  }

  lemma CountsNewProvider(v: map<string, int>, oldP: string, o: nat, p: string, n: nat)
    requires n > 0 && oldP != p
    requires o > 0 && oldP != "" ==> oldP in v && v[oldP] >= o
    ensures var shifted := Debit(v, oldP, Min(o, n));
      var trimmed := if o > n then Debit(shifted, oldP, o - n) else shifted;
      Credit(if n > o then Credit(trimmed, p, n - o) else trimmed, p, Min(o, n)) == Credit(Debit(v, oldP, o), p, n)
  {
  }

  lemma InfosNewProvider(infos: Infos, v: map<string, int>, oldP: string, o: nat, p: string, info: ModelInfo, n: nat)
    requires n > 0 && oldP != p
    ensures var shifted, w := DebitInfos(infos, v, oldP, Min(o, n)), Debit(v, oldP, Min(o, n));
      var trimmed := if o > n then DebitInfos(shifted, w, oldP, o - n) else shifted;
      && CreditInfos(trimmed, p, info) == CreditInfos(DebitInfos(infos, v, oldP, o), p, info)
      && CreditInfos(CreditInfos(trimmed, p, info), p, info) == CreditInfos(DebitInfos(infos, v, oldP, o), p, info)
  {
  }
}
