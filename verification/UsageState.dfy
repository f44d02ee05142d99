/** The usage statistics and what their redundant counters mean. */
module UsageState {
  import opened MapSums

  datatype Tokens = Tokens(input: int, output: int, reasoning: int, cached: int, total: int)

  /** A moment in nanoseconds since the zero time, seen from a zone with an offset in seconds. */
  datatype Time = Time(instant: int, offset: int)

  datatype Detail = Detail(
    timestamp: Time,
    latencyMs: int,
    source: string,
    authIndex: string,
    tokens: Tokens,
    failed: bool)

  datatype ModelStats = ModelStats(requests: int, tokens: int, details: seq<Detail>)
  datatype ApiStats = ApiStats(requests: int, tokens: int, models: map<string, ModelStats>)

  datatype Counters = Counters(requests: int, successes: int, failures: int, tokens: int)

  /** All the statistics; days are counted from the zero time, hours from midnight. */
  datatype Stats = Stats(
    total: Counters,
    apis: map<string, ApiStats>,
    requestsByDay: map<int, int>,
    requestsByHour: map<int, int>,
    tokensByDay: map<int, int>,
    tokensByHour: map<int, int>)

  const EMPTY := Stats(Counters(0, 0, 0, 0), map[], map[], map[], map[], map[])

  /** The moment as the wall clock of its zone shows it. */
  function Local(t: Time): int {
    t.instant + 1_000_000_000 * t.offset
  }

  /** The day, counted from the zero time. */
  function DayKey(t: Time): int {
    Local(t) / 86_400_000_000_000
  }

  /** The hour of the day. */
  function HourKey(t: Time): int {
    Local(t) / 3_600_000_000_000 % 24
  }

  predicate IsZeroTime(t: Time) {
    t.instant == 0
  }

  function NormaliseTokens(t: Tokens): Tokens {
    if t.total != 0 then t
    else if t.input + t.output + t.reasoning != 0 then t.(total := t.input + t.output + t.reasoning)
    else t.(total := t.input + t.output + t.reasoning + t.cached)
  }

  function Bump(m: map<int, int>, k: int, v: int): map<int, int> {
    m[k := v + if k in m then m[k] else 0]
  }

  function Increment(c: Counters, failed: bool, tokens: int): Counters {
    Counters(c.requests + 1, c.successes + if failed then 0 else 1, c.failures + if failed then 1 else 0,
             c.tokens + tokens)
  }

  const NO_MODEL := ModelStats(0, 0, [])
  const NO_API := ApiStats(0, 0, map[])

  function ModelOf(a: ApiStats, m: string): ModelStats {
    if m in a.models then a.models[m] else NO_MODEL
  }

  function ApiOf(apis: map<string, ApiStats>, a: string): ApiStats {
    if a in apis then apis[a] else NO_API
  }

  function AddToModel(m: ModelStats, d: Detail): ModelStats {
    ModelStats(m.requests + 1, m.tokens + d.tokens.total, m.details + [d])
  }

  function AddToApi(a: ApiStats, m: string, d: Detail): ApiStats {
    ApiStats(a.requests + 1, a.tokens + d.tokens.total, a.models[m := AddToModel(ModelOf(a, m), d)])
  }

  /** One more detail; `counted` is the token amount added to the overall and time totals. */
  function Add(s: Stats, api: string, model: string, d: Detail, counted: int): Stats {
    var day, hour := DayKey(d.timestamp), HourKey(d.timestamp);
    Stats(Increment(s.total, d.failed, counted),
          s.apis[api := AddToApi(ApiOf(s.apis, api), model, d)],
          Bump(s.requestsByDay, day, 1), Bump(s.requestsByHour, hour, 1),
          Bump(s.tokensByDay, day, counted), Bump(s.tokensByHour, hour, counted))
  }

  // ----- what the counters mean -----

  function FailedIn(ds: seq<Detail>): nat {
    if ds == [] then 0 else FailedIn(ds[..|ds| - 1]) + if ds[|ds| - 1].failed then 1 else 0
  }

  function TokensIn(ds: seq<Detail>): int {
    if ds == [] then 0 else TokensIn(ds[..|ds| - 1]) + ds[|ds| - 1].tokens.total
  }

  /** The part of the token totals below zero, as a non-negative amount. */
  function DeficitIn(ds: seq<Detail>): nat {
    if ds == [] then 0
    else DeficitIn(ds[..|ds| - 1]) + if ds[|ds| - 1].tokens.total < 0 then -ds[|ds| - 1].tokens.total else 0
  }

  function RequestsOfModel(m: ModelStats): int { m.requests }
  function TokensOfModel(m: ModelStats): int { m.tokens }
  function FailuresOfModel(m: ModelStats): int { FailedIn(m.details) }
  function RequestsOfApi(a: ApiStats): int { a.requests }
  function TokensOfApi(a: ApiStats): int { a.tokens }
  ghost function FailuresOfApi(a: ApiStats): int { SumOf(a.models, FailuresOfModel) }

  ghost predicate ModelOk(m: ModelStats) {
    m.requests == |m.details| && m.tokens == TokensIn(m.details)
  }

  ghost predicate ApiOk(a: ApiStats) {
    && (forall m :: m in a.models ==> ModelOk(a.models[m]))
    && a.requests == SumOf(a.models, RequestsOfModel)
    && a.tokens == SumOf(a.models, TokensOfModel)
  }

  /** Conservation: every request is counted once as a success or failure, once under its API, once
      under its model as a stored detail, once in its day and once in its hour; every counted token
      once in its day and once in its hour. `deficit` is by how much the overall token count exceeds
      the tokens counted under the APIs. */
  ghost predicate Conserved(s: Stats, deficit: int) {
    ApisConserved(s.total, s.apis, deficit) && TimesConserved(s)
  }

  ghost predicate ApisConserved(total: Counters, apis: map<string, ApiStats>, deficit: int) {
    && (forall a :: a in apis ==> ApiOk(apis[a]))
    && total.requests == total.successes + total.failures
    && total.requests == SumOf(apis, RequestsOfApi)
    && total.failures == SumOf(apis, FailuresOfApi)
    && total.tokens == SumOf(apis, TokensOfApi) + deficit
  }

  ghost predicate TimesConserved(s: Stats) {
    && s.total.requests == Sum(s.requestsByDay)
    && s.total.requests == Sum(s.requestsByHour)
    && s.total.tokens == Sum(s.tokensByDay)
    && s.total.tokens == Sum(s.tokensByHour)
  }

  lemma EmptyConserved()
    ensures Conserved(EMPTY, 0)
  {
    EmptyApisConserved();
    assert TimesConserved(EMPTY);
  }

  lemma EmptyApisConserved()
    ensures ApisConserved(EMPTY.total, map[], 0)
  {
    SumOfNone<string, ApiStats>(RequestsOfApi);
    SumOfNone<string, ApiStats>(TokensOfApi);
    SumOfNone<string, ApiStats>(FailuresOfApi);
  }

  lemma BumpSum(m: map<int, int>, k: int, v: int)
    ensures Sum(Bump(m, k, v)) == Sum(m) + v
  {
    SumUpdate(m, k, v + if k in m then m[k] else 0);
  }

  lemma Snoc(ds: seq<Detail>, d: Detail)
    ensures FailedIn(ds + [d]) == FailedIn(ds) + if d.failed then 1 else 0
    ensures TokensIn(ds + [d]) == TokensIn(ds) + d.tokens.total
    ensures DeficitIn(ds + [d]) == DeficitIn(ds) + if d.tokens.total < 0 then -d.tokens.total else 0
  {
    assert (ds + [d])[..|ds|] == ds;
  }

  lemma AddToModelOk(m: ModelStats, d: Detail)
    requires ModelOk(m)
    ensures ModelOk(AddToModel(m, d))
    ensures FailuresOfModel(AddToModel(m, d)) == FailuresOfModel(m) + if d.failed then 1 else 0
  {
    Snoc(m.details, d);
  }

  lemma AddToApiOk(a: ApiStats, m: string, d: Detail)
    requires ApiOk(a)
    ensures ApiOk(AddToApi(a, m, d))
    ensures FailuresOfApi(AddToApi(a, m, d)) == FailuresOfApi(a) + if d.failed then 1 else 0
  {
    var before := ModelOf(a, m);
    AddToModelOk(before, d);
    ModelSums(a, m, AddToModel(before, d));
    ReplaceModelOk(a, m, AddToModel(before, d), d.tokens.total);
  }

  lemma ReplaceModelOk(a: ApiStats, m: string, after: ModelStats, tokens: int)
    requires ApiOk(a) && ModelOk(after)
    requires SumOf(a.models[m := after], RequestsOfModel) == SumOf(a.models, RequestsOfModel) + 1
    requires SumOf(a.models[m := after], TokensOfModel) == SumOf(a.models, TokensOfModel) + tokens
    ensures ApiOk(ApiStats(a.requests + 1, a.tokens + tokens, a.models[m := after]))
  {
  }

  lemma ModelSums(a: ApiStats, m: string, after: ModelStats)
    ensures var models := a.models[m := after];
      && SumOf(models, RequestsOfModel) == SumOf(a.models, RequestsOfModel) + after.requests - ModelOf(a, m).requests
      && SumOf(models, TokensOfModel) == SumOf(a.models, TokensOfModel) + after.tokens - ModelOf(a, m).tokens
      && SumOf(models, FailuresOfModel) ==
        SumOf(a.models, FailuresOfModel) + FailuresOfModel(after) - FailuresOfModel(ModelOf(a, m))
  {
    SumOfUpdate(a.models, m, after, RequestsOfModel);
    SumOfUpdate(a.models, m, after, TokensOfModel);
    SumOfUpdate(a.models, m, after, FailuresOfModel);
  }

  lemma ApiSums(apis: map<string, ApiStats>, api: string, after: ApiStats)
    ensures var apis' := apis[api := after];
      && SumOf(apis', RequestsOfApi) == SumOf(apis, RequestsOfApi) + after.requests - ApiOf(apis, api).requests
      && SumOf(apis', TokensOfApi) == SumOf(apis, TokensOfApi) + after.tokens - ApiOf(apis, api).tokens
      && SumOf(apis', FailuresOfApi) ==
        SumOf(apis, FailuresOfApi) + FailuresOfApi(after) - FailuresOfApi(ApiOf(apis, api))
  {
    NoApiOk();
    SumOfUpdate(apis, api, after, RequestsOfApi);
    SumOfUpdate(apis, api, after, TokensOfApi);
    SumOfUpdate(apis, api, after, FailuresOfApi);
  }

  lemma NoApiOk()
    ensures ApiOk(NO_API) && FailuresOfApi(NO_API) == 0
  {
    SumOfNone<string, ModelStats>(RequestsOfModel);
    SumOfNone<string, ModelStats>(TokensOfModel);
    SumOfNone<string, ModelStats>(FailuresOfModel);
  }

  lemma ReplaceConserves(total: Counters, apis: map<string, ApiStats>, api: string, a': ApiStats, failed: bool,
          tokens: int, counted: int, deficit: int)
    requires ApisConserved(total, apis, deficit) && ApiOk(a')
    requires a'.requests == ApiOf(apis, api).requests + 1
    requires a'.tokens == ApiOf(apis, api).tokens + tokens
    requires FailuresOfApi(a') == FailuresOfApi(ApiOf(apis, api)) + if failed then 1 else 0
    ensures ApisConserved(Increment(total, failed, counted), apis[api := a'], deficit + counted - tokens)
  {
    hide ApiOk, FailuresOfApi;
    ApiSums(apis, api, a');
  }

  lemma AddConservesApis(s: Stats, api: string, model: string, d: Detail, counted: int, deficit: int)
    requires ApisConserved(s.total, s.apis, deficit)
    ensures var s' := Add(s, api, model, d, counted);
      ApisConserved(s'.total, s'.apis, deficit + counted - d.tokens.total)
  {
    var a := ApiOf(s.apis, api);
    assert ApiOk(a) by { NoApiOk(); }
    AddToApiOk(a, model, d);
    ReplaceConserves(s.total, s.apis, api, AddToApi(a, model, d), d.failed, d.tokens.total, counted, deficit);
  }

  lemma AddConservesTimes(s: Stats, api: string, model: string, d: Detail, counted: int)
    requires TimesConserved(s)
    ensures TimesConserved(Add(s, api, model, d, counted))
  {
    BumpSum(s.requestsByDay, DayKey(d.timestamp), 1);
    BumpSum(s.requestsByHour, HourKey(d.timestamp), 1);
    BumpSum(s.tokensByDay, DayKey(d.timestamp), counted);
    BumpSum(s.tokensByHour, HourKey(d.timestamp), counted);
  }

  /** One more detail keeps everything conserved; the deficit grows by what was counted beyond the
      detail's own token total. */
  lemma AddConserves(s: Stats, api: string, model: string, d: Detail, counted: int, deficit: int)
    requires Conserved(s, deficit)
    ensures Conserved(Add(s, api, model, d, counted), deficit + counted - d.tokens.total)
  {
    AddConservesApis(s, api, model, d, counted, deficit);
    AddConservesTimes(s, api, model, d, counted);
  }
}
