/** The tables of the model registry and what each mutator does to them, in closed form. */
module RegistryState {
  import opened Collections

  /** A model's metadata; `details` stands for all the descriptive fields. */
  datatype ModelInfo = ModelInfo(id: string, created: int, details: string)

  /** One model's registration. A mark in `quota` holds the time it was set. */
  datatype Registration = Registration(
    info: ModelInfo,
    infoByProvider: Infos,
    count: int,
    quota: map<string, int>,
    providers: map<string, int>,
    suspended: map<string, string>)

  /** The registry's redundant tables. A client without provider has no entry in clientProviders. */
  datatype Tables = Tables(
    models: Models,
    clientModels: map<string, seq<string>>,
    clientInfos: map<string, Infos>,
    clientProviders: map<string, string>)

  type Models = map<string, Registration>
  type Infos = map<string, ModelInfo>
  type Bag = multiset<string>

  const EMPTY := Tables(map[], map[], map[], map[])

  function Support(bag: Bag): set<string> {
    set m | m in bag
  }

  function Elements(ids: seq<string>): set<string> {
    set m | m in ids
  }

  function ProviderOf(t: Tables, c: string): string {
    if c in t.clientProviders then t.clientProviders[c] else ""
  }

  function BagOf(t: Tables, c: string): Bag {
    if c in t.clientModels then multiset(t.clientModels[c]) else multiset{}
  }

  // ----- the models a caller passes in -----

  predicate Valid(entry: Option<ModelInfo>) {
    entry.Some? && entry.value.id != ""
  }

  function RawIds(list: seq<Option<ModelInfo>>): seq<string> {
    if list == [] then []
    else
      var last := list[|list| - 1];
      RawIds(list[..|list| - 1]) + if Valid(last) then [last.value.id] else []
  }

  /** The first entry given for each model ID. */
  function FirstInfos(list: seq<Option<ModelInfo>>): (infos: Infos)
    ensures infos.Keys == Elements(RawIds(list))
  {
    if list == [] then map[]
    else
      var last := list[|list| - 1];
      var infos := FirstInfos(list[..|list| - 1]);
      if Valid(last) && last.value.id !in infos then infos[last.value.id := last.value] else infos
  }

  // ----- the effect of k removals or additions on one registration -----

  function Min(a: int, b: int): int { if a < b then a else b }

  /** Take k references of provider p away, forgetting the provider when none is left. */
  function Debit(providers: map<string, int>, p: string, k: nat): map<string, int> {
    if p == "" || k == 0 || p !in providers then providers
    else if providers[p] <= k then providers - {p}
    else providers[p := providers[p] - k]
  }

  function DebitInfos(infos: Infos, providers: map<string, int>, p: string, k: nat): Infos {
    if p in providers && p !in Debit(providers, p, k) then infos - {p} else infos
  }

  function DebitProvider(r: Registration, p: string, k: nat): Registration {
    r.(providers := Debit(r.providers, p, k), infoByProvider := DebitInfos(r.infoByProvider, r.providers, p, k))
  }

  function Unmark(r: Registration, c: string): Registration {
    r.(quota := r.quota - {c}, suspended := r.suspended - {c})
  }

  /** Client c of provider p gives up k references. */
  function Less(r: Registration, c: string, p: string, k: nat): Registration {
    if k == 0 then r
    else Unmark(DebitProvider(r.(count := r.count - k), p, k), c)
  }

  function Credit(providers: map<string, int>, p: string, k: nat): map<string, int> {
    if p == "" || k == 0 then providers
    else providers[p := k + if p in providers then providers[p] else 0]
  }

  function CreditInfos(infos: Infos, p: string, info: ModelInfo): Infos {
    if p == "" then infos else infos[p := info]
  }

  /** k more references of provider p; a missing registration is created. */
  function More(r: Option<Registration>, p: string, info: ModelInfo, k: nat): Registration {
    match r
    case None => Registration(info, CreditInfos(map[], p, info), k, map[], Credit(map[], p, k), map[])
    case Some(r) => r.(info := info, count := r.count + k,
                       infoByProvider := CreditInfos(r.infoByProvider, p, info),
                       providers := Credit(r.providers, p, k))
  }

  // ----- the same on the whole models table, one multiplicity per model -----

  predicate Survives(r: Registration, k: nat) {
    k > 0 ==> r.count > k
  }

  function Removed(models: Models, c: string, p: string, bag: Bag): Models {
    map m | m in models && Survives(models[m], bag[m]) :: Less(models[m], c, p, bag[m])
  }

  function Added(models: Models, p: string, infos: Infos, bag: Bag): Models
    requires Support(bag) <= infos.Keys
  {
    map m | m in models.Keys + Support(bag) ::
      if m in bag then More(Lookup(models, m), p, infos[m], bag[m]) else models[m]
  }

  /** What re-registration does: per model, give up the old references and take the new ones,
      without ever dropping a registration in between, and forget the client's marks. */
  function Reconciled(models: Models, c: string, oldP: string, oldBag: Bag,
                      p: string, infos: Infos, newBag: Bag): Models
    requires Support(newBag) <= infos.Keys
  {
    map m | m in models.Keys + Support(newBag) && (m in newBag || Survives(models[m], oldBag[m])) ::
      if m in newBag then
        Unmark(More(if m in models then Some(Less(models[m], c, oldP, oldBag[m])) else None, p, infos[m], newBag[m]), c)
      else Less(models[m], c, oldP, oldBag[m])
  }

  // ----- the public mutators -----

  function Forget(t: Tables, c: string): Tables {
    t.(clientModels := t.clientModels - {c}, clientInfos := t.clientInfos - {c},
       clientProviders := t.clientProviders - {c})
  }

  function Unregister(t: Tables, c: string): Tables {
    Forget(t.(models := Removed(t.models, c, ProviderOf(t, c), BagOf(t, c))), c)
  }

  function Bind(t: Tables, c: string, p: string, ids: seq<string>, infos: Infos): Tables {
    t.(clientModels := t.clientModels[c := ids], clientInfos := t.clientInfos[c := infos],
       clientProviders := if p == "" then t.clientProviders - {c} else t.clientProviders[c := p])
  }

  /** Bind a client the registry does not know yet. */
  function Enrol(t: Tables, c: string, p: string, ids: seq<string>, infos: Infos): Tables
    requires Support(multiset(ids)) <= infos.Keys
  {
    Bind(t.(models := Added(t.models, p, infos, multiset(ids))), c, p, ids, infos)
  }

  /** Bind a client anew on top of its present bindings. */
  function Reconcile(t: Tables, c: string, p: string, ids: seq<string>, infos: Infos): Tables
    requires Support(multiset(ids)) <= infos.Keys
  {
    Bind(t.(models := Reconciled(t.models, c, ProviderOf(t, c), BagOf(t, c), p, infos, multiset(ids))), c, p, ids,
      infos)
  }

  function Register(t: Tables, c: string, p: string, list: seq<Option<ModelInfo>>): Tables {
    var ids, infos := RawIds(list), FirstInfos(list);
    if ids == [] then Unregister(t, c)
    else if c !in t.clientModels then Enrol(t, c, p, ids, infos)
    else Reconcile(t, c, p, ids, infos)
  }

  function UpdateModel(t: Tables, m: string, r: Registration): Tables {
    t.(models := t.models[m := r])
  }

  function MarkQuota(t: Tables, c: string, m: string, now: int): Tables {
    if m in t.models then UpdateModel(t, m, t.models[m].(quota := t.models[m].quota[c := now])) else t
  }

  function ClearQuota(t: Tables, c: string, m: string): Tables {
    if m in t.models then UpdateModel(t, m, t.models[m].(quota := t.models[m].quota - {c})) else t
  }

  function Suspend(t: Tables, c: string, m: string, reason: string): Tables {
    if c != "" && m != "" && m in t.models && c !in t.models[m].suspended
    then UpdateModel(t, m, t.models[m].(suspended := t.models[m].suspended[c := reason])) else t
  }

  function Resume(t: Tables, c: string, m: string): Tables {
    if c != "" && m != "" && m in t.models
    then UpdateModel(t, m, t.models[m].(suspended := t.models[m].suspended - {c})) else t
  }

  /** The cool-down after a quota error: five minutes, in nanoseconds. */
  const QUOTA_WINDOW: int := 5 * 60 * 1_000_000_000

  predicate Live(mark: int, now: int) {
    now < mark + QUOTA_WINDOW
  }

  function LiveQuota(r: Registration, now: int): set<string> {
    set c | c in r.quota && Live(r.quota[c], now)
  }

  function Cleaned(r: Registration, now: int): Registration {
    r.(quota := map c | c in r.quota && Live(r.quota[c], now) :: r.quota[c])
  }

  function Cleanup(t: Tables, now: int): Tables {
    t.(models := map m | m in t.models :: Cleaned(t.models[m], now))
  }
}
