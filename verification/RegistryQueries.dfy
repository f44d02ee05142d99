/** What the registry's readers compute from its tables. */
module RegistryQueries {
  import opened Collections
  import opened Text
  import opened MapSums
  import opened RegistryState
  import opened RegistryInvariant
  import opened RegistryReconcile
  import opened RegistryListing

  lemma VisitOne<T>(s: set<T>, todo: set<T>, x: T)
    requires x in todo
    ensures |s - (todo - {x})| == |s - todo| + if x in s then 1 else 0
  {
    if x in s {
      assert s - (todo - {x}) == (s - todo) + {x};
    } else {
      assert s - (todo - {x}) == s - todo;
    }
  }

  /** Unexpired quota marks, and the earliest recovery among them and e0. */
  method CountQuota(r: Registration, now: int, e0: Option<int>) returns (live: nat, e: Option<int>)
    ensures live == |LiveQuota(r, now)|
    ensures EarliestOf(r, now, r.quota.Keys, e0, e)
  {
    live, e := 0, e0;
    var todo := r.quota.Keys;
    QuotaEnds(r, now, e0);
    while todo != {}
      invariant todo <= r.quota.Keys
      invariant QuotaCounted(r, now, todo, live, e0, e)
    {
      var c :| c in todo;
      QuotaOneMore(r, now, todo, live, e0, e, c);
      var recoveryAt := r.quota[c] + QUOTA_WINDOW;
      if now < recoveryAt {
        live := live + 1;
        if e == None || recoveryAt < e.value {
          e := Some(recoveryAt);
        }
      }
      todo := todo - {c};
    }
  }

  /** The marks outside todo are counted. */
  ghost predicate QuotaCounted(r: Registration, now: int, todo: set<string>, live: int, e0: Option<int>,
          e: Option<int>) {
    live == |LiveQuota(r, now) - todo| && EarliestOf(r, now, r.quota.Keys - todo, e0, e)
  }

  lemma QuotaEnds(r: Registration, now: int, e0: Option<int>)
    ensures QuotaCounted(r, now, r.quota.Keys, 0, e0, e0)
    ensures forall live, e :: QuotaCounted(r, now, {}, live, e0, e) ==>
      live == |LiveQuota(r, now)| && EarliestOf(r, now, r.quota.Keys, e0, e)
  {
    assert LiveQuota(r, now) - r.quota.Keys == {};
    assert LiveQuota(r, now) - {} == LiveQuota(r, now) && r.quota.Keys - {} == r.quota.Keys;
  }

  lemma QuotaOneMore(r: Registration, now: int, todo: set<string>, live: int, e0: Option<int>, e: Option<int>,
          c: string)
    requires c in todo && todo <= r.quota.Keys && QuotaCounted(r, now, todo, live, e0, e)
    ensures var at := r.quota[c] + QUOTA_WINDOW;
      QuotaCounted(r, now, todo - {c}, live + if now < at then 1 else 0, e0,
                   if now < at && (e == None || at < e.value) then Some(at) else e)
  {
    var at := r.quota[c] + QUOTA_WINDOW;
    VisitOne(LiveQuota(r, now), todo, c);
    assert c in LiveQuota(r, now) <==> now < at;
    EarliestOneMore(r, now, r.quota.Keys - todo, e0, e, c,
      if now < at && (e == None || at < e.value) then Some(at) else e);
    assert r.quota.Keys - (todo - {c}) == r.quota.Keys - todo + {c};
  }

  /** e is the least of e0 and the recovery times of the live marks among cs. */
  ghost predicate EarliestOf(r: Registration, now: int, cs: set<string>, e0: Option<int>, e: Option<int>) {
    && (e0.Some? ==> e.Some? && e.value <= e0.value)
    && (forall c :: c in cs && c in LiveQuota(r, now) ==> e.Some? && e.value <= r.quota[c] + QUOTA_WINDOW)
    && (e == e0 || exists c :: c in cs && c in LiveQuota(r, now) && e == Some(r.quota[c] + QUOTA_WINDOW))
  }

  lemma EarliestOneMore(r: Registration, now: int, cs: set<string>, e0: Option<int>, e: Option<int>, c: string,
          e': Option<int>)
    requires EarliestOf(r, now, cs, e0, e) && c in r.quota
    requires var at := r.quota[c] + QUOTA_WINDOW;
      e' == if now < at && (e == None || at < e.value) then Some(at) else e
    ensures EarliestOf(r, now, cs + {c}, e0, e')
  {
    if e' != e {
      assert c in LiveQuota(r, now);
    } else if e != e0 {
      var d :| d in cs && d in LiveQuota(r, now) && e == Some(r.quota[d] + QUOTA_WINDOW);
      assert d in cs + {c};
    }
  }

  /** Suspensions for quota and for any other reason. */
  method CountSuspended(r: Registration) returns (cooling: nat, other: nat)
    ensures cooling == |CoolingDown(r)| && other == |OtherwiseSuspended(r)|
  {
    cooling, other := 0, 0;
    var todo := r.suspended.Keys;
    assert CoolingDown(r) - todo == {} && OtherwiseSuspended(r) - todo == {};
    while todo != {}
      invariant todo <= r.suspended.Keys
      invariant cooling == |CoolingDown(r) - todo| && other == |OtherwiseSuspended(r) - todo|
    {
      var c :| c in todo;
      SuspendedOneMore(r, todo, c);
      if IsQuotaReason(r.suspended[c]) {
        cooling := cooling + 1;
      } else {
        other := other + 1;
      }
      todo := todo - {c};
    }
    assert CoolingDown(r) - {} == CoolingDown(r) && OtherwiseSuspended(r) - {} == OtherwiseSuspended(r);
  }

  lemma SuspendedOneMore(r: Registration, todo: set<string>, c: string)
    requires c in todo && c in r.suspended
    ensures |CoolingDown(r) - (todo - {c})| == |CoolingDown(r) - todo| + if IsQuotaReason(r.suspended[c]) then 1 else 0
    ensures |OtherwiseSuspended(r) - (todo - {c})| ==
      |OtherwiseSuspended(r) - todo| + if IsQuotaReason(r.suspended[c]) then 0 else 1
  {
    VisitOne(CoolingDown(r), todo, c);
    VisitOne(OtherwiseSuspended(r), todo, c);
    assert c in CoolingDown(r) <==> IsQuotaReason(r.suspended[c]);
    assert c in OtherwiseSuspended(r) <==> !IsQuotaReason(r.suspended[c]);
  }

  /** Whether a registration is shown, and the earliest recovery among its live marks and e0. */
  method CheckVisible(r: Registration, now: int, e0: Option<int>) returns (visible: bool, e: Option<int>)
    ensures visible == Visible(r, now)
    ensures EarliestOf(r, now, r.quota.Keys, e0, e)
  {
    var live, cooling, other;
    live, e := CountQuota(r, now, e0);
    cooling, other := CountSuspended(r);
    var effective := r.count - live - other;
    if effective < 0 {
      effective := 0;
    }
    visible := effective > 0 || (r.count > 0 && (live > 0 || cooling > 0) && other == 0);
  }

  /** A fresh listing, and the moment it stops being right. */
  method BuildAvailableModels(models: Models, handler: string, now: int)
    returns (list: seq<Listing>, expiresAt: Option<int>)
    requires forall m :: m in models ==> models[m].info.id == m
    ensures IsListing(list, models, handler, now) && IsEarliest(models, now, expiresAt)
  {
    list, expiresAt := [], None;
    var todo := models.Keys;
    assert models - todo == map[];
    while todo != {}
      invariant todo <= models.Keys
      invariant multiset(list) == multiset(Listed(models - todo, handler, now))
      invariant IsEarliest(models - todo, now, expiresAt)
    {
      var m :| m in todo;
      var registration := models[m];
      ghost var done := models - todo;
      var visible, e := CheckVisible(registration, now, expiresAt);
      EarliestMore(done, now, expiresAt, m, registration, e);
      ListedMore(done, handler, now, m, registration);
      expiresAt := e;
      if visible {
        list := list + [Listing(handler, registration.info)];
      }
      assert models - (todo - {m}) == done[m := registration];
      todo := todo - {m};
    }
    assert models - {} == models;
  }

  lemma ListedMore(models: Models, handler: string, now: int, m: string, r: Registration)
    requires m !in models && r.info.id == m
    requires forall n :: n in models ==> models[n].info.id == n
    ensures multiset(Listed(models[m := r], handler, now)) ==
            multiset(Listed(models, handler, now)) + if Visible(r, now) then multiset{Listing(handler, r.info)}
              else multiset{}
  {
    var before, after := Listed(models, handler, now), Listed(models[m := r], handler, now);
    var extra := Listing(handler, r.info);
    assert extra !in before;
    ListedUnion(models, handler, now, m, r);
    if Visible(r, now) {
      assert multiset(before + {extra}) == multiset(before) + multiset{extra};
    }
  }

  lemma ListedUnion(models: Models, handler: string, now: int, m: string, r: Registration)
    requires m !in models
    ensures Listed(models[m := r], handler, now) ==
      Listed(models, handler, now) + if Visible(r, now) then {Listing(handler, r.info)} else {}
  {
    var models' := models[m := r];
    forall n | n in models && Visible(models[n], now)
      ensures Listing(handler, models[n].info) in Listed(models', handler, now)
    {
      assert n in models' && models'[n] == models[n];
    }
    assert m in models' && models'[m] == r;
  }

  lemma EarliestMore(models: Models, now: int, e0: Option<int>, m: string, r: Registration, e: Option<int>)
    requires m !in models && IsEarliest(models, now, e0) && EarliestOf(r, now, r.quota.Keys, e0, e)
    ensures IsEarliest(models[m := r], now, e)
  {
    var models' := models[m := r];
    forall n, c ensures LiveMark(models', now, n, c) <==>
      LiveMark(models, now, n, c) || (n == m && c in r.quota && Live(r.quota[c], now)) {
    }
    if e.Some? {
      if e == e0 {
        var n, c :| LiveMark(models, now, n, c) && e.value == models[n].quota[c] + QUOTA_WINDOW;
        assert LiveMark(models', now, n, c);
      } else {
        var c :| c in r.quota && Live(r.quota[c], now) && e == Some(r.quota[c] + QUOTA_WINDOW);
        assert LiveMark(models', now, m, c);
      }
    }
  }

  /** Clients able to serve right now: neither over quota nor suspended. */
  function Available(r: Registration, now: int): int {
    var n := r.count - |LiveQuota(r, now)| - |r.suspended|;
    if n < 0 then 0 else n
  }

  function CountOf(models: Models, m: string, now: int): int {
    if m in models then Available(models[m], now) else 0
  }

  lemma SuspensionsSplit(r: Registration)
    ensures |r.suspended| == |CoolingDown(r)| + |OtherwiseSuspended(r)|
  {
    assert r.suspended.Keys == CoolingDown(r) + OtherwiseSuspended(r);
    assert CoolingDown(r) !! OtherwiseSuspended(r);
    assert |r.suspended.Keys| == |r.suspended|;
  }

  /** A model with a client able to serve is always listed. */
  lemma AvailableIsVisible(r: Registration, now: int)
    requires Available(r, now) > 0
    ensures Visible(r, now)
  {
    SuspensionsSplit(r);
  }

  /** The creation time in a rendering, if it has one; for "claude" it has another name. */
  function CreatedIn(l: Listing): Option<int> {
    if l.handler == "openai" then if l.info.created > 0 then Some(l.info.created) else None
    else if l.handler == "claude" || l.handler == "gemini" then None
    else if l.info.created != 0 then Some(l.info.created)
    else None
  }

  /** A rendering shows a creation time unless it is zero, for "openai" also unless it is negative; those for
      "claude" and "gemini" show none. */
  lemma CreatedExactly(handler: string, info: ModelInfo)
    ensures CreatedIn(Listing(handler, info)) ==
      if handler in {"claude", "gemini"} || info.created == 0 || (handler == "openai" && info.created < 0) then None
      else Some(info.created)
  {
  }

  predicate AllDated(list: seq<Listing>) {
    forall i :: 0 <= i < |list| ==> CreatedIn(list[i]).Some?
  }

  predicate NewestFirst(list: seq<Listing>)
    requires AllDated(list)
  {
    forall i, j :: 0 <= i < j < |list| ==> CreatedIn(list[i]).value >= CreatedIn(list[j]).value
  }

  /** Sorting under way: what is sorted is newest first and no older than the rest. */
  predicate Sorting(sorted: seq<Listing>, rest: seq<Listing>) {
    && AllDated(sorted) && AllDated(rest) && NewestFirst(sorted)
    && forall i, j :: 0 <= i < |sorted| && 0 <= j < |rest| ==> CreatedIn(sorted[i]).value >= CreatedIn(rest[j]).value
  }

  predicate IsNewest(list: seq<Listing>, i: nat)
    requires AllDated(list) && i < |list|
  {
    forall j :: 0 <= j < |list| ==> CreatedIn(list[j]).value <= CreatedIn(list[i]).value
  }

  lemma {:induction false} SomeNewest(list: seq<Listing>)
    requires list != [] && AllDated(list)
    ensures exists i: nat :: i < |list| && IsNewest(list, i)
    decreases |list|
  {
    hide CreatedIn;
    var last := |list| - 1;
    if last == 0 {
      assert IsNewest(list, 0);
    } else {
      var init := list[..last];
      SomeNewest(init);
      var i: nat :| i < |init| && IsNewest(init, i);
      assert forall j :: 0 <= j < last ==> list[j] == init[j];
      var k := if CreatedIn(list[i]).value < CreatedIn(list[last]).value then last else i;
      assert IsNewest(list, k);
    }
  }

  lemma SortingOneMore(sorted: seq<Listing>, rest: seq<Listing>, i: nat)
    requires Sorting(sorted, rest) && i < |rest| && IsNewest(rest, i)
    ensures Sorting(sorted + [rest[i]], rest[..i] + rest[i + 1..])
  {
    hide CreatedIn;
    var rest' := rest[..i] + rest[i + 1..];
    assert forall j :: 0 <= j < |rest'| ==> rest'[j] == if j < i then rest[j] else rest[j + 1];
  }

  lemma Moved(sorted: seq<Listing>, rest: seq<Listing>, i: nat)
    requires i < |rest|
    ensures multiset(sorted + [rest[i]]) + multiset(rest[..i] + rest[i + 1..]) == multiset(sorted) + multiset(rest)
  {
    assert rest == rest[..i] + [rest[i]] + rest[i + 1..];
  }

  /** The list sorted newest first; in any order if some creation time is missing, because the source's
      comparison is then no order. */
  method SortNewestFirst(list: seq<Listing>) returns (sorted: seq<Listing>)
    ensures multiset(sorted) == multiset(list)
    ensures AllDated(list) ==> AllDated(sorted) && NewestFirst(sorted)
  {
    sorted := [];
    var rest := list;
    while rest != []
      invariant multiset(sorted) + multiset(rest) == multiset(list)
      invariant AllDated(list) ==> Sorting(sorted, rest)
      decreases |rest|
    {
      var i := PickNext(rest);
      Moved(sorted, rest, i);
      if AllDated(list) { SortingOneMore(sorted, rest, i); }
      sorted := sorted + [rest[i]];
      rest := rest[..i] + rest[i + 1..];
    }
  }

  method PickNext(rest: seq<Listing>) returns (i: nat)
    requires rest != []
    ensures i < |rest| && (AllDated(rest) ==> IsNewest(rest, i))
  {
    if AllDated(rest) {
      SomeNewest(rest);
      i :| i < |rest| && IsNewest(rest, i);
    } else {
      i :| i < |rest|;
    }
  }

  /** Every model shown has a creation time in its rendering. */
  ghost predicate ShownDated(models: Models, handler: string, now: int) {
    forall m :: m in models && Visible(models[m], now) ==> CreatedIn(Listing(handler, models[m].info)).Some?
  }

  lemma ShownDatedList(models: Models, list: seq<Listing>, handler: string, now: int)
    requires IsListing(list, models, handler, now) && ShownDated(models, handler, now)
    ensures AllDated(list)
  {
    forall i | 0 <= i < |list| ensures CreatedIn(list[i]).Some? {
      assert list[i] in multiset(Listed(models, handler, now));
    }
  }

  lemma ListedModel(models: Models, list: seq<Listing>, sorted: seq<Listing>, handler: string, now: int, i: nat)
    requires forall m :: m in models ==> models[m].info.id == m
    requires IsListing(list, models, handler, now) && multiset(sorted) == multiset(list) && i < |sorted|
    ensures sorted[i].info.id in models && sorted[i] == Listing(handler, models[sorted[i].info.id].info)
  {
    assert sorted[i] in multiset(Listed(models, handler, now));
  }

  /** In a list sorted newest first, no available model is newer than the first available one. */
  lemma FirstIsNewest(models: Models, list: seq<Listing>, sorted: seq<Listing>, handler: string, now: int, i: nat,
          m: string)
    requires forall n :: n in models ==> models[n].info.id == n
    requires IsListing(list, models, handler, now) && multiset(sorted) == multiset(list) && i < |sorted|
    requires AllDated(sorted) && NewestFirst(sorted)
    requires forall j :: 0 <= j < i ==> CountOf(models, sorted[j].info.id, now) == 0
    requires m in models && Available(models[m], now) > 0
    ensures CreatedIn(Listing(handler, models[m].info)).Some?
    ensures CreatedIn(Listing(handler, models[m].info)).value <= CreatedIn(sorted[i]).value
  {
    AvailableIsListed(models, list, sorted, handler, now, m);
    var j :| 0 <= j < |sorted| && sorted[j] == Listing(handler, models[m].info);
    assert i <= j;
  }

  lemma AvailableIsListed(models: Models, list: seq<Listing>, sorted: seq<Listing>, handler: string, now: int,
          m: string)
    requires IsListing(list, models, handler, now) && multiset(sorted) == multiset(list)
    requires m in models && Available(models[m], now) > 0
    ensures exists j :: 0 <= j < |sorted| && sorted[j] == Listing(handler, models[m].info)
  {
    AvailableIsVisible(models[m], now);
    var l := Listing(handler, models[m].info);
    assert l in Listed(models, handler, now);
    assert l in multiset(sorted);
  }

  // ----- listings of one provider -----

  function CountTrimmed(ids: seq<string>, m: string): nat {
    if ids == [] then 0
    else CountTrimmed(ids[..|ids| - 1], m) + if TrimSpace(ids[|ids| - 1]) == m then 1 else 0
  }

  /** How often each of the given clients, if of provider p, lists an ID that trims to m. */
  function TrimmedWeights(t: Tables, m: string, p: string): map<string, int> {
    map c | c in t.clientModels :: if ProviderOf(t, c) == p then CountTrimmed(t.clientModels[c], m) else 0
  }

  /** The recount from the client lists that the per-provider listing uses. */
  ghost function Recount(t: Tables, m: string, p: string): int {
    Sum(TrimmedWeights(t, m, p))
  }

  predicate AllTrimmed(ids: seq<string>) {
    forall i :: 0 <= i < |ids| ==> TrimSpace(ids[i]) == ids[i]
  }

  /** No client of provider p lists an ID with surrounding blanks. */
  predicate ProviderTrimmed(t: Tables, p: string) {
    forall c :: c in t.clientModels && ProviderOf(t, c) == p ==> AllTrimmed(t.clientModels[c])
  }

  lemma {:induction false} TrimmedCount(ids: seq<string>, m: string)
    requires AllTrimmed(ids)
    ensures CountTrimmed(ids, m) == multiset(ids)[m]
  {
    if ids == [] {
    } else {
      var init := ids[..|ids| - 1];
      TrimmedCount(init, m);
      assert ids == init + [ids[|ids| - 1]];
    }
  }

  lemma {:induction false} UntrimmedCount(ids: seq<string>, m: string)
    requires TrimSpace(m) != m
    ensures CountTrimmed(ids, m) == 0
  {
    if ids == [] {
    } else {
      UntrimmedCount(ids[..|ids| - 1], m);
      TrimSpaceIdempotent(ids[|ids| - 1]);
    }
  }

  /** The stored provider count; none stands for 0. */
  function StoredCount(t: Tables, m: string, p: string): int {
    if m in t.models && p in t.models[m].providers then t.models[m].providers[p] else 0
  }

  /** The recount agrees with the stored provider counts for every model exactly when no client of
      that provider lists an ID with surrounding blanks. */
  lemma RecountAgrees(t: Tables, p: string)
    requires Inv(t) && p != ""
    ensures (forall m :: Recount(t, m, p) == StoredCount(t, m, p)) <==> ProviderTrimmed(t, p)
  {
    forall m ensures StoredCount(t, m, p) == ProviderTotal(t, m, p) {
      assert Counted(t, m);
      TotalsNonNegative(t, m, p);
      if m in t.models { assert ProviderCounted(t, m, p); }
    }
    if ProviderTrimmed(t, p) {
      forall m ensures Recount(t, m, p) == ProviderTotal(t, m, p) {
        RecountTrimmed(t, m, p);
      }
    } else {
      var c :| c in t.clientModels && ProviderOf(t, c) == p && !AllTrimmed(t.clientModels[c]);
      var ids := t.clientModels[c];
      var i :| 0 <= i < |ids| && TrimSpace(ids[i]) != ids[i];
      RecountUntrimmed(t, ids[i], p);
      TotalsNonNegative(t, ids[i], p);
      assert ids[i] in multiset(ids);
    }
  }

  lemma RecountTrimmed(t: Tables, m: string, p: string)
    requires ProviderTrimmed(t, p)
    ensures Recount(t, m, p) == ProviderTotal(t, m, p)
  {
    forall c | c in t.clientModels && ProviderOf(t, c) == p
      ensures CountTrimmed(t.clientModels[c], m) == multiset(t.clientModels[c])[m]
    {
      TrimmedCount(t.clientModels[c], m);
    }
    assert TrimmedWeights(t, m, p) == ProviderWeights(t, m, p);
  }

  lemma RecountUntrimmed(t: Tables, m: string, p: string)
    requires TrimSpace(m) != m
    ensures Recount(t, m, p) == 0
  {
    forall c | c in t.clientModels ensures CountTrimmed(t.clientModels[c], m) == 0 {
      UntrimmedCount(t.clientModels[c], m);
    }
    SumZero(TrimmedWeights(t, m, p));
  }

  datatype ProviderModel = ProviderModel(count: int, info: Option<ModelInfo>)

  function CountIn(entries: map<string, ProviderModel>, m: string): int {
    if m in entries then entries[m].count else 0
  }

  ghost predicate EntriesOk(entries: map<string, ProviderModel>) {
    forall m :: m in entries ==>
      m != "" && entries[m].count > 0 && (entries[m].info.Some? ==> entries[m].info.value.id == m)
  }

  /** The metadata of an ID that a client lists: the client's own, or the model's. */
  function DescriptionBy(t: Tables, client: string, id: string): Option<ModelInfo>
    requires client in t.clientInfos
  {
    if id in t.clientInfos[client] then Some(t.clientInfos[client][id])
    else if id in t.models then Some(t.models[id].info)
    else None
  }

  /** Some client of p that lists the model, blanks aside, describes it so. */
  ghost predicate FromClient(t: Tables, p: string, m: string, info: ModelInfo) {
    exists c :: c in t.clientModels && c in t.clientInfos && ProviderOf(t, c) == p &&
      CountTrimmed(t.clientModels[c], m) > 0 && DescriptionBy(t, c, m) == Some(info)
  }

  /** Exactly the registered models are described, each by one of p's clients. */
  ghost predicate AllDescribed(t: Tables, p: string, entries: map<string, ProviderModel>) {
    forall m :: m in entries ==>
      if m in t.models then entries[m].info.Some? && FromClient(t, p, m, entries[m].info.value)
      else entries[m].info == None
  }

  /** One more listing of model id, described by info if nothing described it before. */
  function AddEntry(entries: map<string, ProviderModel>, id: string,
          info: Option<ModelInfo>): map<string, ProviderModel> {
    var entry := if id in entries then entries[id] else ProviderModel(0, None);
    entries[id := ProviderModel(entry.count + 1, if entry.info == None then info else entry.info)]
  }

  lemma AddEntryOk(entries: map<string, ProviderModel>, id: string, info: Option<ModelInfo>)
    requires EntriesOk(entries) && id != "" && (info.Some? ==> info.value.id == id)
    ensures EntriesOk(AddEntry(entries, id, info))
    ensures forall m :: CountIn(AddEntry(entries, id, info), m) == CountIn(entries, m) + if m == id then 1 else 0
  {
  }

  lemma DescriptionOk(t: Tables, client: string, id: string)
    requires Inv(t) && client in t.clientModels
    ensures client in t.clientInfos
    ensures DescriptionBy(t, client, id).Some? <==> id in t.models
    ensures id in t.models ==> DescriptionBy(t, client, id).value.id == id
  {
    assert ClientOk(t.clientModels[client], t.clientInfos[client]);
    assert Counted(t, id);
    if id in t.clientInfos[client] {
      assert id in Elements(t.clientModels[client]);
      assert BagOf(t, client)[id] > 0;
      TotalsNonNegative(t, id, "");
      ListedTotal(t, client, id);
    }
  }

  lemma ListedTotal(t: Tables, client: string, id: string)
    requires client in t.clientModels && id in t.clientModels[client]
    ensures Total(t, id) > 0
  {
    var w := Weights(t.clientModels, id);
    SumNonNegative(w);
    assert w[client] > 0;
  }

  lemma {:induction false} ListedCount(ids: seq<string>, i: nat)
    requires i < |ids|
    ensures CountTrimmed(ids, TrimSpace(ids[i])) > 0
    decreases |ids|
  {
    if i == |ids| - 1 {
    } else {
      ListedCount(ids[..|ids| - 1], i);
    }
  }

  lemma AddEntryDescribed(t: Tables, p: string, entries: map<string, ProviderModel>, client: string, id: string)
    requires Inv(t) && client in t.clientModels && ProviderOf(t, client) == p && AllDescribed(t, p, entries)
    requires CountTrimmed(t.clientModels[client], id) > 0
    ensures client in t.clientInfos
    ensures AllDescribed(t, p, AddEntry(entries, id, DescriptionBy(t, client, id)))
  {
    hide Inv, CountTrimmed;
    DescriptionOk(t, client, id);
    if id in t.models {
      assert FromClient(t, p, id, DescriptionBy(t, client, id).value);
    }
  }

  method DescribeModel(t: Tables, client: string, id: string) returns (info: Option<ModelInfo>)
    requires client in t.clientInfos
    ensures info == DescriptionBy(t, client, id)
  {
    if id in t.clientInfos[client] {
      return Some(t.clientInfos[client][id]);
    }
    if id in t.models {
      return Some(t.models[id].info);
    }
    return None;
  }

  /** One client's models added to the recount. */
  method RecountClient(t: Tables, p: string, client: string, entries0: map<string, ProviderModel>)
    returns (entries: map<string, ProviderModel>)
    requires Inv(t) && client in t.clientModels && ProviderOf(t, client) == p
    requires EntriesOk(entries0) && AllDescribed(t, p, entries0)
    ensures EntriesOk(entries) && AllDescribed(t, p, entries)
    ensures forall m :: m != "" ==>
      CountIn(entries, m) == CountIn(entries0, m) + CountTrimmed(t.clientModels[client], m)
  {
    hide Inv, AllDescribed, EntriesOk, AddEntry;
    entries := entries0;
    var ids := t.clientModels[client];
    for i := 0 to |ids|
      invariant EntriesOk(entries) && AllDescribed(t, p, entries)
      invariant forall m :: m != "" ==> CountIn(entries, m) == CountIn(entries0, m) + CountTrimmed(ids[..i], m)
    {
      assert ids[..i + 1][..i] == ids[..i];
      var id := TrimSpace(ids[i]);
      if id != "" {
        ListedCount(ids, i);
        DescriptionOk(t, client, id);
        AddEntryDescribed(t, p, entries, client, id);
        var info := DescribeModel(t, client, id);
        AddEntryOk(entries, id, info);
        entries := AddEntry(entries, id, info);
      }
    }
    assert ids[..|ids|] == ids;
  }

  function WeightsSeen(t: Tables, m: string, p: string, seen: set<string>): map<string, int> {
    map c | c in t.clientModels :: if c in seen && ProviderOf(t, c) == p then CountTrimmed(t.clientModels[c], m) else 0
  }

  lemma SeenOneMore(t: Tables, m: string, p: string, seen: set<string>, c: string)
    requires c in t.clientModels && c !in seen
    ensures Sum(WeightsSeen(t, m, p, seen + {c})) ==
            Sum(WeightsSeen(t, m, p, seen)) + if ProviderOf(t, c) == p then CountTrimmed(t.clientModels[c], m) else 0
  {
    var k := if ProviderOf(t, c) == p then CountTrimmed(t.clientModels[c], m) else 0;
    SumUpdate(WeightsSeen(t, m, p, seen), c, k);
    assert WeightsSeen(t, m, p, seen + {c}) == WeightsSeen(t, m, p, seen)[c := k];
  }

  lemma SeenNone(t: Tables, m: string, p: string)
    ensures Sum(WeightsSeen(t, m, p, {})) == 0
  {
    SumZero(WeightsSeen(t, m, p, {}));
  }

  lemma SeenAll(t: Tables, m: string, p: string)
    requires p != ""
    ensures WeightsSeen(t, m, p, t.clientProviders.Keys) == TrimmedWeights(t, m, p)
  {
  }

  /** The models of provider p's clients, counted from the client lists. */
  method RecountProvider(t: Tables, p: string) returns (entries: map<string, ProviderModel>)
    requires Inv(t) && p != ""
    ensures EntriesOk(entries) && AllDescribed(t, p, entries)
    ensures forall m :: m != "" ==> CountIn(entries, m) == Recount(t, m, p)
  {
    assert t.clientProviders.Keys <= t.clientModels.Keys;
    hide Inv, EntriesOk, CountTrimmed;
    entries := map[];
    var todo := t.clientProviders.Keys;
    forall m ensures Sum(WeightsSeen(t, m, p, t.clientProviders.Keys - todo)) == 0 {
      SeenNone(t, m, p);
      assert t.clientProviders.Keys - todo == {};
    }
    while todo != {}
      invariant todo <= t.clientProviders.Keys
      invariant EntriesOk(entries) && AllDescribed(t, p, entries)
      invariant forall m :: m != "" ==> CountIn(entries, m) == Sum(WeightsSeen(t, m, p, t.clientProviders.Keys - todo))
    {
      var client :| client in todo;
      ghost var seen := t.clientProviders.Keys - todo;
      forall m ensures Sum(WeightsSeen(t, m, p, seen + {client})) ==
        Sum(WeightsSeen(t, m, p, seen)) +
          if ProviderOf(t, client) == p then CountTrimmed(t.clientModels[client], m) else 0
      {
        SeenOneMore(t, m, p, seen, client);
      }
      if t.clientProviders[client] == p {
        entries := RecountClient(t, p, client, entries);
      }
      assert t.clientProviders.Keys - (todo - {client}) == seen + {client};
      todo := todo - {client};
    }
    forall m ensures Sum(WeightsSeen(t, m, p, t.clientProviders.Keys - {})) == Recount(t, m, p) {
      assert t.clientProviders.Keys - {} == t.clientProviders.Keys;
      SeenAll(t, m, p);
    }
  }

  /** A registration seen from provider p: only the marks of p's clients. */
  function Narrow(t: Tables, r: Registration, p: string): Registration {
    r.(quota := map c | c in r.quota && c != "" && ProviderOf(t, c) == p :: r.quota[c],
       suspended := map c | c in r.suspended && c != "" && ProviderOf(t, c) == p :: r.suspended[c])
  }

  method NarrowMarks(t: Tables, r: Registration, p: string) returns (n: Registration)
    requires p != ""
    ensures n == Narrow(t, r, p)
  {
    var quota := MarksOfProvider(t, r.quota, p);
    var suspended := MarksOfProvider(t, r.suspended, p);
    n := r.(quota := quota, suspended := suspended);
  }

  method MarksOfProvider<V>(t: Tables, marks: map<string, V>, p: string) returns (kept: map<string, V>)
    requires p != ""
    ensures kept == map c | c in marks && c != "" && ProviderOf(t, c) == p :: marks[c]
  {
    kept := map[];
    var todo := marks.Keys;
    while todo != {}
      invariant todo <= marks.Keys
      invariant kept == map c | c in marks && c !in todo && c != "" && ProviderOf(t, c) == p :: marks[c]
    {
      var c :| c in todo;
      todo := todo - {c};
      if c != "" && c in t.clientProviders && t.clientProviders[c] == p {
        kept := kept[c := marks[c]];
      }
    }
  }

  /** A registered model with so many listings is shown, given the marks of p's clients. */
  predicate ShownBy(t: Tables, p: string, now: int, m: string, count: int) {
    m in t.models &&
    var n := Narrow(t, t.models[m], p);
    Offered(count, |LiveQuota(n, now)|, |CoolingDown(n)|, |OtherwiseSuspended(n)|)
  }

  /** p offers m by the stored provider count. */
  predicate OfferedBy(t: Tables, p: string, now: int, m: string) {
    m in t.models && p in t.models[m].providers && ShownBy(t, p, now, m, t.models[m].providers[p])
  }

  /** p offers m by the recount. */
  ghost predicate RecountOffers(t: Tables, p: string, now: int, m: string) {
    m != "" && Recount(t, m, p) > 0 && ShownBy(t, p, now, m, Recount(t, m, p))
  }

  function Ids(list: seq<ModelInfo>): seq<string> {
    seq(|list|, i requires 0 <= i < |list| => list[i].id)
  }

  /** The metadata under which one recounted model is shown, if it is. */
  method PickOffered(t: Tables, p: string, now: int, m: string, entry: ProviderModel) returns (info: Option<ModelInfo>)
    requires p != "" && entry.count > 0
    ensures (entry.info.Some? <==> m in t.models) ==>
      info == if ShownBy(t, p, now, m, entry.count) then entry.info else None
  {
    info := None;
    var shown := entry.count > 0;
    if m in t.models {
      var n := NarrowMarks(t, t.models[m], p);
      MarksIgnoreCount(n, entry.count, now);
      var visible, _ := CheckVisible(n.(count := entry.count), now, None);
      shown := visible;
    }
    if shown {
      info := if entry.info.Some? then entry.info else if m in t.models then Some(t.models[m].info) else None;
    }
  }

  /** What has been picked from the entries visited. */
  ghost predicate Picked(t: Tables, p: string, now: int, entries: map<string, ProviderModel>, todo: set<string>,
          result: seq<ModelInfo>) {
    && Distinct(Ids(result))
    && (forall m :: m in Ids(result) <==> m in entries && m !in todo && ShownBy(t, p, now, m, entries[m].count))
    && (forall i :: 0 <= i < |result| ==> FromClient(t, p, result[i].id, result[i]))
  }

  lemma PickedOneMore(t: Tables, p: string, now: int, entries: map<string, ProviderModel>, todo: set<string>,
          result: seq<ModelInfo>, m: string)
    requires Picked(t, p, now, entries, todo, result) && m in todo && todo <= entries.Keys
    requires EntriesOk(entries) && AllDescribed(t, p, entries)
    ensures ShownBy(t, p, now, m, entries[m].count) ==>
      entries[m].info.Some? && Picked(t, p, now, entries, todo - {m}, result + [entries[m].info.value])
    ensures !ShownBy(t, p, now, m, entries[m].count) ==> Picked(t, p, now, entries, todo - {m}, result)
  {
    hide FromClient, LiveQuota, CoolingDown, OtherwiseSuspended, Narrow;
    if ShownBy(t, p, now, m, entries[m].count) {
      assert Ids(result + [entries[m].info.value]) == Ids(result) + [m];
    }
  }

  lemma PickedAll(t: Tables, p: string, now: int, entries: map<string, ProviderModel>, result: seq<ModelInfo>)
    requires Picked(t, p, now, entries, {}, result) && EntriesOk(entries)
    requires forall m :: m != "" ==> CountIn(entries, m) == Recount(t, m, p)
    ensures forall m :: m in Ids(result) <==> RecountOffers(t, p, now, m)
  {
    hide FromClient, LiveQuota, CoolingDown, OtherwiseSuspended, Narrow, Recount;
    forall m ensures m in Ids(result) <==> RecountOffers(t, p, now, m) {
      assert m != "" ==> CountIn(entries, m) == Recount(t, m, p);
    }
  }

  /** The models a provider offers: each model that the recount from the client lists makes available,
      once, as one of the provider's clients describes it. Without blank-padded IDs these are the models
      that the stored provider counts make available. */
  method GetAvailableModelsByProvider(t: Tables, p: string, now: int) returns (result: seq<ModelInfo>)
    requires Inv(t)
    ensures p == "" ==> result == []
    ensures Distinct(Ids(result))
    ensures p != "" ==> forall m :: m in Ids(result) <==> RecountOffers(t, p, now, m)
    ensures forall i :: 0 <= i < |result| ==> FromClient(t, p, result[i].id, result[i])
    ensures p != "" && ProviderTrimmed(t, p) ==> forall m :: m in Ids(result) <==> OfferedBy(t, p, now, m)
  {
    hide Inv, Picked, ShownBy, EntriesOk, AllDescribed, CountIn, Recount, OfferedBy, RecountOffers, FromClient;
    result := [];
    if p == "" {
      return;
    }
    var entries := RecountProvider(t, p);
    var todo := entries.Keys;
    PickedNone(t, p, now, entries);
    while todo != {}
      invariant todo <= entries.Keys
      invariant Picked(t, p, now, entries, todo, result)
    {
      var m :| m in todo;
      PickedOneMore(t, p, now, entries, todo, result, m);
      EntryOk(t, p, entries, m);
      var info := PickOffered(t, p, now, m, entries[m]);
      if info.Some? {
        result := result + [info.value];
      }
      todo := todo - {m};
    }
    PickedAll(t, p, now, entries, result);
    PickedParts(t, p, now, entries, result);
    if ProviderTrimmed(t, p) {
      RecountOffersTrimmed(t, p, now, entries);
    }
  }

  lemma PickedNone(t: Tables, p: string, now: int, entries: map<string, ProviderModel>)
    ensures Picked(t, p, now, entries, entries.Keys, [])
  {
  }

  lemma PickedParts(t: Tables, p: string, now: int, entries: map<string, ProviderModel>, result: seq<ModelInfo>)
    requires Picked(t, p, now, entries, {}, result)
    ensures Distinct(Ids(result))
    ensures forall i :: 0 <= i < |result| ==> FromClient(t, p, result[i].id, result[i])
  {
  }

  lemma EntryOk(t: Tables, p: string, entries: map<string, ProviderModel>, m: string)
    requires EntriesOk(entries) && AllDescribed(t, p, entries) && m in entries
    ensures entries[m].count > 0 && (entries[m].info.Some? <==> m in t.models)
  {
  }

  lemma RecountOffersTrimmed(t: Tables, p: string, now: int, entries: map<string, ProviderModel>)
    requires Inv(t) && p != "" && ProviderTrimmed(t, p) && EntriesOk(entries)
    requires forall m :: m != "" ==> CountIn(entries, m) == Recount(t, m, p)
    ensures forall m :: RecountOffers(t, p, now, m) <==> OfferedBy(t, p, now, m)
  {
    RecountedEntries(t, p, entries);
    NoBlankModel(t, p);
    hide Recount, ShownBy, Inv, ProviderTrimmed;
    forall m ensures RecountOffers(t, p, now, m) <==> OfferedBy(t, p, now, m) {
      assert m != "" ==> CountIn(entries, m) == Recount(t, m, p);
    }
  }

  /** Without blank-padded IDs the recount finds exactly p's models with their stored counts. */
  lemma RecountedEntries(t: Tables, p: string, entries: map<string, ProviderModel>)
    requires Inv(t) && p != "" && ProviderTrimmed(t, p) && EntriesOk(entries)
    requires forall m :: m != "" ==> CountIn(entries, m) == Recount(t, m, p)
    ensures forall m :: m in entries ==>
      m in t.models && p in t.models[m].providers && t.models[m].providers[p] == entries[m].count
    ensures forall m :: m in t.models && p in t.models[m].providers ==> m in entries
  {
    RecountAgrees(t, p);
    forall m | m in entries
      ensures m in t.models && p in t.models[m].providers && t.models[m].providers[p] == entries[m].count
    {
      assert CountIn(entries, m) == Recount(t, m, p);
    }
    forall m | m in t.models && p in t.models[m].providers ensures m in entries {
      assert Counted(t, m) && ProviderCounted(t, m, p);
      NoBlankModel(t, p);
      assert Recount(t, m, p) == t.models[m].providers[p];
    }
  }

  lemma NoBlankModel(t: Tables, p: string)
    requires Inv(t)
    ensures "" !in t.models
  {
    forall c | c in t.clientModels ensures Weights(t.clientModels, "")[c] == 0 {
      assert ClientOk(t.clientModels[c], t.clientInfos[c]);
    }
    SumZero(Weights(t.clientModels, ""));
    assert Counted(t, "");
  }

  lemma MarksIgnoreCount(r: Registration, count: int, now: int)
    ensures LiveQuota(r.(count := count), now) == LiveQuota(r, now)
    ensures CoolingDown(r.(count := count)) == CoolingDown(r)
    ensures OtherwiseSuspended(r.(count := count)) == OtherwiseSuspended(r)
  {
  }

  /** A model that is shown is described by a client of the provider that lists it: as the client has it under
      that ID, or, if it lists the ID only with blanks around it, as it was described last. */
  ghost predicate DescribedBy(t: Tables, p: string, c: string, info: ModelInfo) {
    && c in t.clientModels && c in t.clientInfos && ProviderOf(t, c) == p
    && if info.id in t.clientModels[c] then info.id in t.clientInfos[c] && t.clientInfos[c][info.id] == info
       else
         && (exists i :: 0 <= i < |t.clientModels[c]| && TrimSpace(t.clientModels[c][i]) == info.id)
         && info.id in t.models && t.models[info.id].info == info
  }

  ghost predicate Described(t: Tables, p: string, info: ModelInfo) {
    exists c :: DescribedBy(t, p, c, info)
  }

  lemma ShownAsDescribed(t: Tables, p: string, m: string, info: ModelInfo)
    requires Inv(t) && FromClient(t, p, m, info) && info.id == m
    ensures Described(t, p, info)
  {
    var c :| c in t.clientModels && c in t.clientInfos && ProviderOf(t, c) == p &&
      CountTrimmed(t.clientModels[c], m) > 0 && DescriptionBy(t, c, m) == Some(info);
    assert ClientOk(t.clientModels[c], t.clientInfos[c]);
    assert m in t.clientInfos[c] <==> m in Elements(t.clientModels[c]);
    SomeTrimsTo(t.clientModels[c], m);
    assert DescribedBy(t, p, c, info);
  }

  lemma {:induction false} SomeTrimsTo(ids: seq<string>, m: string)
    ensures CountTrimmed(ids, m) > 0 <==> exists i :: 0 <= i < |ids| && TrimSpace(ids[i]) == m
  {
    if ids == [] {
    } else {
      var init, last := ids[..|ids| - 1], ids[|ids| - 1];
      SomeTrimsTo(init, m);
      assert ids == init + [last];
      assert TrimSpace(last) == m ==> TrimSpace(ids[|ids| - 1]) == m;
    }
  }

  /** A client that lists an ID with a leading blank: stored and counted once, recounted as none. */
  lemma BlankIDUncounted()
    ensures var t := Register(EMPTY, "c", "p", [Some(ModelInfo(" m", 0, ""))]);
      && Inv(t) && " m" in t.models && t.models[" m"].providers == map["p" := 1]
      && Recount(t, " m", "p") == 0
  {
    var info := ModelInfo(" m", 0, "");
    var t := Register(EMPTY, "c", "p", [Some(info)]);
    EmptyInv();
    RegisterKeepsInv(EMPTY, "c", "p", [Some(info)]);
    OneRegistered(info);
    TrimLeadingBlank('m');
    RecountUntrimmed(t, " m", "p");
  }

  lemma OneRegistered(info: ModelInfo)
    requires info.id != ""
    ensures var t := Register(EMPTY, "c", "p", [Some(info)]);
      info.id in t.models && t.models[info.id].providers == map["p" := 1]
  {
    var list := [Some(info)];
    assert list[..|list| - 1] == [];
    assert RawIds(list) == [info.id];
    assert FirstInfos(list) == map[info.id := info];
    assert multiset([info.id])[info.id] == 1;
  }
}
