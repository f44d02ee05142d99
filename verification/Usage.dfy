/** In-memory request statistics: recording, merging an exported snapshot, exporting. */
module Usage {
  import opened Text
  import opened UsageState
  import opened UsageMerge
  import opened UsageRecords

  /** A usage record as the runtime emits it; latency in nanoseconds. */
  datatype Record = Record(requestedAt: Time, apiKey: string, model: string, source: string, authIndex: string,
                           latency: int, tokens: Tokens, failed: bool)

  function NormaliseLatency(latency: int): int {
    if latency <= 0 then 0 else latency / 1_000_000
  }

  /** The detail stored for a record; `succeeded` is what the request context says of the response. */
  function DetailOf(r: Record, succeeded: bool, now: Time): Detail {
    Detail(if IsZeroTime(r.requestedAt) then now else r.requestedAt, NormaliseLatency(r.latency), r.source, r.authIndex,
           NormaliseTokens(r.tokens), r.failed || !succeeded)
  }

  function KeyAt(a: string, m: string, ds: seq<Detail>, clock: Clock, i: nat): Key
    requires i < |ds|
  {
    DedupKey(TrimSpace(a), ModelName(m), Imported(ds[i], clock(a, m, i)))
  }

  lemma KeysOneMore(a: string, m: string, ds: seq<Detail>, clock: Clock, i: nat)
    requires i < |ds|
    ensures KeysIn(a, m, ds[..i + 1], clock) == KeysIn(a, m, ds[..i], clock) + {KeyAt(a, m, ds, clock, i)}
  {
    var more, less := ds[..i + 1], ds[..i];
    assert more[i] == ds[i] && forall j :: 0 <= j < i ==> more[j] == less[j];
    forall k ensures k in KeysIn(a, m, more, clock) <==>
      k in KeysIn(a, m, less, clock) || k == KeyAt(a, m, ds, clock, i) {
    }
  }

  lemma ApiKeysOneMore(a: string, models: map<string, seq<Detail>>, clock: Clock, todo: set<string>, m: string)
    requires m in todo && todo <= models.Keys
    ensures ApiKeys(a, models - (todo - {m}), clock) ==
      ApiKeys(a, models - todo, clock) + KeysIn(a, m, models[m], clock)
  {
    forall k ensures k in ApiKeys(a, models - (todo - {m}), clock) <==>
                     k in ApiKeys(a, models - todo, clock) || k in KeysIn(a, m, models[m], clock) {
      ApiKeyOneMore(a, models, clock, todo, m, k);
    }
  }

  lemma ApiKeyOneMore(a: string, models: map<string, seq<Detail>>, clock: Clock, todo: set<string>, m: string, k: Key)
    requires m in todo && todo <= models.Keys
    ensures k in ApiKeys(a, models - (todo - {m}), clock) <==>
            k in ApiKeys(a, models - todo, clock) || k in KeysIn(a, m, models[m], clock)
  {
    var b, c := models - (todo - {m}), models - todo;
    if k in ApiKeys(a, b, clock) {
      var x :| x in b && k in KeysIn(a, x, b[x], clock);
      if x != m { assert x in c && c[x] == b[x]; }
    }
    if k in ApiKeys(a, c, clock) {
      var x :| x in c && k in KeysIn(a, x, c[x], clock);
      assert x in b && b[x] == c[x];
    }
    if k in KeysIn(a, m, models[m], clock) { assert m in b && b[m] == models[m]; }
  }

  lemma ApiPositionsOneMore(models: map<string, seq<Detail>>, todo: set<string>, m: string)
    requires m in todo && todo <= models.Keys
    ensures |ApiPositions(models - (todo - {m}))| == |ApiPositions(models - todo)| + |models[m]|
  {
    var more := set i | 0 <= i < |models[m]| :: (m, i);
    Numbered(m, |models[m]|);
    assert ApiPositions(models - (todo - {m})) == ApiPositions(models - todo) + more;
  }

  lemma {:induction false} Numbered(m: string, n: nat)
    ensures |set i | 0 <= i < n :: (m, i)| == n
  {
    if n > 0 {
      Numbered(m, n - 1);
      assert (set i | 0 <= i < n :: (m, i)) == (set i | 0 <= i < n - 1 :: (m, i)) + {(m, n - 1)};
    } else {
      assert (set i | 0 <= i < n :: (m, i)) == {};
    }
  }

  function ApiBrings(snap: Snapshot, clock: Clock, a: string): set<Key>
    requires a in snap
  {
    if TrimSpace(a) == "" then {} else ApiKeys(a, snap[a], clock)
  }

  function ApiCount(snap: Snapshot, a: string): nat
    requires a in snap
  {
    if TrimSpace(a) == "" then 0 else |ApiPositions(snap[a])|
  }

  lemma SnapshotOneMore(snap: Snapshot, clock: Clock, todo: set<string>, a: string)
    requires a in todo && todo <= snap.Keys
    ensures SnapshotKeys(snap - (todo - {a}), clock) == SnapshotKeys(snap - todo, clock) + ApiBrings(snap, clock, a)
  {
    forall k ensures k in SnapshotKeys(snap - (todo - {a}), clock) <==>
                     k in SnapshotKeys(snap - todo, clock) || k in ApiBrings(snap, clock, a) {
      SnapshotKeyOneMore(snap, clock, todo, a, k);
    }
  }

  lemma SnapshotKeyOneMore(snap: Snapshot, clock: Clock, todo: set<string>, a: string, k: Key)
    requires a in todo && todo <= snap.Keys
    ensures k in SnapshotKeys(snap - (todo - {a}), clock) <==>
            k in SnapshotKeys(snap - todo, clock) || k in ApiBrings(snap, clock, a)
  {
    var b, c := snap - (todo - {a}), snap - todo;
    if k in SnapshotKeys(b, clock) {
      var x :| x in b && TrimSpace(x) != "" && k in ApiKeys(x, b[x], clock);
      if x != a { assert x in c && c[x] == b[x]; }
    }
    if k in SnapshotKeys(c, clock) {
      var x :| x in c && TrimSpace(x) != "" && k in ApiKeys(x, c[x], clock);
      assert x in b && b[x] == c[x];
    }
    if k in ApiBrings(snap, clock, a) { assert a in b && b[a] == snap[a]; }
  }

  lemma PositionsOneMore(snap: Snapshot, todo: set<string>, a: string)
    requires a in todo && todo <= snap.Keys
    ensures |Positions(snap - (todo - {a}))| ==
      |Positions(snap - todo)| + if TrimSpace(a) == "" then 0 else |ApiPositions(snap[a])|
  {
    var ps := if TrimSpace(a) == "" then {} else ApiPositions(snap[a]);
    Tagged(a, ps);
    var b, c := snap - (todo - {a}), snap - todo;
    var more := Tag(a, ps);
    assert Positions(c) !! more;
    forall q ensures q in Positions(b) <==> q in Positions(c) || q in more {
      if q.0 != a { assert q.0 in b <==> q.0 in c; }
    }
    assert Positions(b) == Positions(c) + more;
  }

  function Tag<T>(a: string, s: set<T>): set<(string, T)> {
    set x | x in s :: (a, x)
  }

  lemma {:induction false} Tagged<T>(a: string, s: set<T>)
    ensures |Tag(a, s)| == |s|
  {
    if s != {} {
      var x :| x in s;
      Tagged(a, s - {x});
      assert Tag(a, s) == Tag(a, s - {x}) + {(a, x)};
    } else {
      assert Tag(a, s) == {};
    }
  }

  /** Visiting one API has brought in `keys` and met `count` details. */
  ghost predicate ApiProgress(a: string, models: map<string, seq<Detail>>, clock: Clock, todo: set<string>,
          keys: set<Key>, count: int) {
    keys == ApiKeys(a, models - todo, clock) && count == |ApiPositions(models - todo)|
  }

  lemma ApiProgressMore(a: string, models: map<string, seq<Detail>>, clock: Clock, todo: set<string>, m: string,
          keys: set<Key>, count: int)
    requires m in todo && todo <= models.Keys && ApiProgress(a, models, clock, todo, keys, count)
    ensures ApiProgress(a, models, clock, todo - {m}, keys + KeysIn(a, m, models[m], clock), count + |models[m]|)
  {
    ApiKeysOneMore(a, models, clock, todo, m);
    ApiPositionsOneMore(models, todo, m);
  }

  lemma ApiProgressEnds(a: string, models: map<string, seq<Detail>>, clock: Clock)
    ensures ApiProgress(a, models, clock, models.Keys, {}, 0)
    ensures forall keys, count :: ApiProgress(a, models, clock, {}, keys, count) ==>
      keys == ApiKeys(a, models, clock) && count == |ApiPositions(models)|
  {
    assert models - models.Keys == map[] && models - {} == models;
  }

  /** The same for a whole snapshot. */
  ghost predicate Progress(snap: Snapshot, clock: Clock, todo: set<string>, keys: set<Key>, count: int) {
    keys == SnapshotKeys(snap - todo, clock) && count == |Positions(snap - todo)|
  }

  lemma ProgressMore(snap: Snapshot, clock: Clock, todo: set<string>, a: string, keys: set<Key>, count: int)
    requires a in todo && todo <= snap.Keys && Progress(snap, clock, todo, keys, count)
    ensures Progress(snap, clock, todo - {a}, keys + ApiBrings(snap, clock, a), count + ApiCount(snap, a))
  {
    SnapshotOneMore(snap, clock, todo, a);
    PositionsOneMore(snap, todo, a);
  }

  lemma ProgressEnds(snap: Snapshot, clock: Clock)
    ensures Progress(snap, clock, snap.Keys, {}, 0)
    ensures forall keys, count :: Progress(snap, clock, {}, keys, count) ==>
      keys == SnapshotKeys(snap, clock) && count == |Positions(snap)|
  {
    assert snap - snap.Keys == map[] && snap - {} == snap;
  }

  /** What a merge started from: a state, the keys it had, and the snapshot with the times to be read. */
  datatype Merge = Merge(s0: Stats, k0: set<Key>, snap: Snapshot, clock: Clock)

  /** A merge under way: the state is the replay of fresh steps, and the keys seen are k0 and theirs. */
  ghost predicate Underway(m: Merge, s: Stats, seen: set<Key>, added: int, steps: seq<Step>) {
    && s == Replay(m.s0, steps) && FreshSteps(m.k0, steps) && AllBring(m.snap, m.clock, steps)
    && seen == m.k0 + StepKeys(steps) && added == Imports(steps)
  }

  lemma UnderwayMore(m: Merge, s: Stats, seen: set<Key>, added: int, steps: seq<Step>, step: Step)
    requires Underway(m, s, seen, added, steps) && KeyOf(step) !! seen && Brings(m.snap, m.clock, step)
    requires step.Import? ==> NormaliseTokens(step.detail.tokens) == step.detail.tokens
    ensures Underway(m, Apply(s, step), seen + KeyOf(step), added + if step.Touch? then 0 else 1, steps + [step])
  {
    StepsMore(m.s0, m.k0, steps, step);
    assert (steps + [step])[..|steps|] == steps;
  }

  lemma UnderwayEnds(m: Merge, s: Stats, seen: set<Key>, added: int, skipped: int, steps: seq<Step>)
    requires Underway(m, s, seen, added, steps) && m.k0 == StoredKeys(m.s0)
    requires seen == m.k0 + SnapshotKeys(m.snap, m.clock) && added + skipped == |Positions(m.snap)|
    ensures MergedBy(m.s0, steps, m.snap, m.clock, s, added, skipped)
  {
  }

  lemma UnderwayStarts(m: Merge)
    ensures Underway(m, m.s0, m.k0, 0, [])
  {
    assert m.k0 + {} == m.k0;
  }

  /** The keys of the first i details of one model. */
  ghost predicate ModelProgress(a: string, m: string, ds: seq<Detail>, clock: Clock, i: nat, keys: set<Key>)
    requires i <= |ds|
  {
    keys == KeysIn(a, m, ds[..i], clock)
  }

  lemma ModelProgressMore(a: string, m: string, ds: seq<Detail>, clock: Clock, i: nat, keys: set<Key>)
    requires i < |ds| && ModelProgress(a, m, ds, clock, i, keys)
    ensures ModelProgress(a, m, ds, clock, i + 1, keys + {KeyAt(a, m, ds, clock, i)})
  {
    KeysOneMore(a, m, ds, clock, i);
  }

  lemma ModelProgressEnds(a: string, m: string, ds: seq<Detail>, clock: Clock)
    ensures ModelProgress(a, m, ds, clock, 0, {})
    ensures forall keys :: ModelProgress(a, m, ds, clock, |ds|, keys) ==> keys == KeysIn(a, m, ds, clock)
  {
    assert ds[..|ds|] == ds;
  }

  lemma TouchMore(m: Merge, s: Stats, seen: set<Key>, added: int, steps: seq<Step>, a: string)
    requires Underway(m, s, seen, added, steps) && a in m.snap && TrimSpace(a) != ""
    ensures Underway(m, EnsureApi(s, TrimSpace(a)), seen, added, steps + [Touch(TrimSpace(a))])
  {
    assert seen + {} == seen;
    UnderwayMore(m, s, seen, added, steps, Touch(TrimSpace(a)));
  }

  lemma ImportMore(m: Merge, s: Stats, seen: set<Key>, added: int, steps: seq<Step>, a: string, model: string, i: nat)
    requires Underway(m, s, seen, added, steps)
    requires a in m.snap && TrimSpace(a) != "" && model in m.snap[a] && i < |m.snap[a][model]|
    requires KeyAt(a, model, m.snap[a][model], m.clock, i) !in seen
    ensures var step := ImportOf(m.snap, m.clock, a, model, i);
      Underway(m, Apply(s, step), seen + {KeyAt(a, model, m.snap[a][model], m.clock, i)}, added + 1, steps + [step])
  {
    NormaliseTwice(m.snap[a][model][i].tokens);
    UnderwayMore(m, s, seen, added, steps, ImportOf(m.snap, m.clock, a, model, i));
  }

  function ImportOf(snap: Snapshot, clock: Clock, a: string, model: string, i: nat): Step
    requires a in snap && model in snap[a] && i < |snap[a][model]|
  {
    Import(TrimSpace(a), ModelName(model), Imported(snap[a][model][i], clock(a, model, i)))
  }

  class RequestStatistics {
    var totalRequests: int
    var successCount: int
    var failureCount: int
    var totalTokens: int
    var apis: map<string, ApiStats>
    var requestsByDay: map<int, int>
    var requestsByHour: map<int, int>
    var tokensByDay: map<int, int>
    var tokensByHour: map<int, int>
    ghost function View(): Stats
      reads this
    {
      Stats(Counters(totalRequests, successCount, failureCount, totalTokens), apis,
            requestsByDay, requestsByHour, tokensByDay, tokensByHour)
    }

    constructor ()
      ensures View() == EMPTY
    {
      totalRequests, successCount, failureCount, totalTokens := 0, 0, 0, 0;
      apis, requestsByDay, requestsByHour, tokensByDay, tokensByHour := map[], map[], map[], map[], map[];
    }

    /** Count one detail, adding `counted` to the overall and time-bucket token totals. */
    method Count(api: string, model: string, detail: Detail, counted: int)
      modifies this
      ensures View() == Add(old(View()), api, model, detail, counted)
    {
      CountTotals(detail.failed, counted);
      var stats := if api in apis then apis[api] else NO_API;
      stats := UpdateApiStats(stats, model, detail);
      apis := apis[api := stats];
      CountTimes(detail.timestamp, counted);
    }

    method CountTotals(failed: bool, counted: int)
      modifies this`totalRequests, this`successCount, this`failureCount, this`totalTokens
      ensures View().total == Increment(old(View().total), failed, counted)
    {
      totalRequests := totalRequests + 1;
      if failed {
        failureCount := failureCount + 1;
      } else {
        successCount := successCount + 1;
      }
      totalTokens := totalTokens + counted;
    }

    method CountTimes(t: Time, counted: int)
      modifies this`requestsByDay, this`requestsByHour, this`tokensByDay, this`tokensByHour
      ensures requestsByDay == Bump(old(requestsByDay), DayKey(t), 1)
      ensures requestsByHour == Bump(old(requestsByHour), HourKey(t), 1)
      ensures tokensByDay == Bump(old(tokensByDay), DayKey(t), counted)
      ensures tokensByHour == Bump(old(tokensByHour), HourKey(t), counted)
    {
      var dayKey, hourKey := DayKey(t), HourKey(t);
      requestsByDay := Bump(requestsByDay, dayKey, 1);
      requestsByHour := Bump(requestsByHour, hourKey, 1);
      tokensByDay := Bump(tokensByDay, dayKey, counted);
      tokensByHour := Bump(tokensByHour, hourKey, counted);
    }

    static method UpdateApiStats(stats: ApiStats, model: string, detail: Detail) returns (updated: ApiStats)
      ensures updated == AddToApi(stats, model, detail)
    {
      updated := stats.(requests := stats.requests + 1, tokens := stats.tokens + detail.tokens.total);
      var m := if model in stats.models then stats.models[model] else NO_MODEL;
      m := m.(requests := m.requests + 1, tokens := m.tokens + detail.tokens.total);
      m := m.(details := m.details + [detail]);
      updated := updated.(models := updated.models[model := m]);
    }

    /** Store one record under its API key, or `fallback` if it has none. */
    method Record(r: Record, enabled: bool, fallback: string, succeeded: bool, now: Time)
      modifies this
      ensures View() == if !enabled then old(View()) else
        Add(old(View()), if r.apiKey == "" then fallback else r.apiKey, if r.model == "" then "unknown" else r.model,
            DetailOf(r, succeeded, now), NormaliseTokens(r.tokens).total)
      ensures enabled ==>
        var t := Tokens(r.tokens.input, r.tokens.output, r.tokens.reasoning, r.tokens.cached, CountedTotal(r.tokens));
        var d := Detail(if r.requestedAt.instant == 0 then now else r.requestedAt,
          if r.latency < 1_000_000 then 0 else r.latency / 1_000_000, r.source, r.authIndex, t, r.failed || !succeeded);
        StoredOnce(old(View()), View(), if r.apiKey == "" then fallback else r.apiKey,
          if r.model == "" then "unknown" else r.model, d, CountedTotal(r.tokens))
    {
      if !enabled {
        return;
      }
      var timestamp := if IsZeroTime(r.requestedAt) then now else r.requestedAt;
      var tokens := NormaliseTokens(r.tokens);
      var key := if r.apiKey == "" then fallback else r.apiKey;
      var failed := r.failed;
      if !failed {
        failed := !succeeded;
      }
      var model := if r.model == "" then "unknown" else r.model;
      var detail := Detail(timestamp, NormaliseLatency(r.latency), r.source, r.authIndex, tokens, failed);
      AddStoresOnce(View(), key, model, detail, tokens.total);
      hide StoredOnce, Add;
      Count(key, model, detail, tokens.total);
    }

    /** One detail of the snapshot; `steps` records what has been done since the merge began. */
    method MergeDetail(snap: Snapshot, clock: Clock, a: string, model: string, i: nat, seen0: set<Key>, added0: int,
            skipped0: int, ghost merge: Merge, ghost steps0: seq<Step>)
      returns (seen: set<Key>, added: int, skipped: int, ghost steps: seq<Step>)
      requires merge.snap == snap && merge.clock == clock && Underway(merge, View(), seen0, added0, steps0)
      requires a in snap && TrimSpace(a) != "" && model in snap[a] && i < |snap[a][model]|
      modifies this
      ensures Underway(merge, View(), seen, added, steps)
      ensures seen == seen0 + {KeyAt(a, model, snap[a][model], clock, i)}
      ensures added + skipped == added0 + skipped0 + 1
    {
      var apiName, modelName, detail := TrimSpace(a), ModelName(model), snap[a][model][i];
      detail := detail.(tokens := NormaliseTokens(detail.tokens));
      if detail.latencyMs < 0 {
        detail := detail.(latencyMs := 0);
      }
      if IsZeroTime(detail.timestamp) {
        detail := detail.(timestamp := clock(a, model, i));
      }
      NormaliseTwice(snap[a][model][i].tokens);
      var key := DedupKey(apiName, modelName, detail);
      seen, added, skipped, steps := seen0 + {key}, added0, skipped0, steps0;
      if key in seen0 {
        assert seen == seen0;
        skipped := skipped + 1;
      } else {
        ImportMore(merge, View(), seen0, added0, steps, a, model, i);
        RecordImported(apiName, modelName, detail);
        added, steps := added + 1, steps + [Import(apiName, modelName, detail)];
      }
    }

    method MergeModel(snap: Snapshot, clock: Clock, a: string, model: string, seen0: set<Key>, added0: int,
            skipped0: int, ghost merge: Merge, ghost steps0: seq<Step>)
      returns (seen: set<Key>, added: int, skipped: int, ghost steps: seq<Step>)
      requires merge.snap == snap && merge.clock == clock && Underway(merge, View(), seen0, added0, steps0)
      requires a in snap && TrimSpace(a) != "" && model in snap[a]
      modifies this
      ensures Underway(merge, View(), seen, added, steps)
      ensures seen == seen0 + KeysIn(a, model, snap[a][model], clock)
      ensures added + skipped == added0 + skipped0 + |snap[a][model]|
    {
      hide Underway;
      seen, added, skipped, steps := seen0, added0, skipped0, steps0;
      ghost var keys: set<Key> := {};
      var details := snap[a][model];
      ModelProgressEnds(a, model, details, clock);
      for i := 0 to |details|
        invariant Underway(merge, View(), seen, added, steps)
        invariant ModelProgress(a, model, details, clock, i, keys)
        invariant seen == seen0 + keys
        invariant added + skipped == added0 + skipped0 + i
      {
        ModelProgressMore(a, model, details, clock, i, keys);
        ghost var key := KeyAt(a, model, details, clock, i);
        seen, added, skipped, steps := MergeDetail(snap, clock, a, model, i, seen, added, skipped, merge, steps);
        keys := keys + {key};
      }
      assert ModelProgress(a, model, details, clock, |details|, keys);
    }

    method RecordImported(api: string, model: string, detail: Detail)
      modifies this
      ensures View() == Apply(old(View()), Import(api, model, detail))
      ensures StoredOnce(old(View()), View(), api, model, detail,
        if detail.tokens.total < 0 then 0 else detail.tokens.total)
    {
      AddStoresOnce(View(), api, model, detail, if detail.tokens.total < 0 then 0 else detail.tokens.total);
      hide StoredOnce, Add;
      var totalTokens := detail.tokens.total;
      if totalTokens < 0 {
        totalTokens := 0;
      }
      Count(api, model, detail, totalTokens);
    }

    method TouchApi(api: string)
      modifies this`apis
      ensures View() == EnsureApi(old(View()), api)
    {
      if api !in apis {
        apis := apis[api := NO_API];
      }
    }

    method MergeApi(snap: Snapshot, clock: Clock, a: string, seen0: set<Key>, added0: int, skipped0: int,
            ghost merge: Merge, ghost steps0: seq<Step>)
      returns (seen: set<Key>, added: int, skipped: int, ghost steps: seq<Step>)
      requires merge.snap == snap && merge.clock == clock && Underway(merge, View(), seen0, added0, steps0)
      requires a in snap && TrimSpace(a) != ""
      modifies this
      ensures Underway(merge, View(), seen, added, steps)
      ensures seen == seen0 + ApiKeys(a, snap[a], clock)
      ensures added + skipped == added0 + skipped0 + |ApiPositions(snap[a])|
    {
      hide Underway;
      seen, added, skipped := seen0, added0, skipped0;
      TouchMore(merge, View(), seen, added, steps0, a);
      TouchApi(TrimSpace(a));
      steps := steps0 + [Touch(TrimSpace(a))];
      var todo := snap[a].Keys;
      ghost var keys: set<Key>, count := {}, 0;
      ApiProgressEnds(a, snap[a], clock);
      while todo != {}
        invariant todo <= snap[a].Keys
        invariant Underway(merge, View(), seen, added, steps)
        invariant ApiProgress(a, snap[a], clock, todo, keys, count)
        invariant seen == seen0 + keys && added + skipped == added0 + skipped0 + count
      {
        var m :| m in todo;
        ApiProgressMore(a, snap[a], clock, todo, m, keys, count);
        seen, added, skipped, steps := MergeModel(snap, clock, a, m, seen, added, skipped, merge, steps);
        keys, count := keys + KeysIn(a, m, snap[a][m], clock), count + |snap[a][m]|;
        todo := todo - {m};
      }
    }

    /** One API of the snapshot; those with blank names are passed over. */
    method MergeNamed(snap: Snapshot, clock: Clock, a: string, seen0: set<Key>, added0: int, skipped0: int,
            ghost merge: Merge, ghost steps0: seq<Step>)
      returns (seen: set<Key>, added: int, skipped: int, ghost steps: seq<Step>)
      requires merge.snap == snap && merge.clock == clock && Underway(merge, View(), seen0, added0, steps0)
      requires a in snap
      modifies this
      ensures Underway(merge, View(), seen, added, steps)
      ensures seen == seen0 + ApiBrings(snap, clock, a)
      ensures added + skipped == added0 + skipped0 + ApiCount(snap, a)
    {
      if TrimSpace(a) == "" {
        seen, added, skipped, steps := seen0, added0, skipped0, steps0;
      } else {
        seen, added, skipped, steps := MergeApi(snap, clock, a, seen0, added0, skipped0, merge, steps0);
      }
    }

    method MergeAll(snap: Snapshot, clock: Clock, seen0: set<Key>, ghost merge: Merge)
      returns (seen: set<Key>, added: int, skipped: int, ghost steps: seq<Step>)
      requires merge == Merge(View(), seen0, snap, clock)
      modifies this
      ensures Underway(merge, View(), seen, added, steps)
      ensures seen == seen0 + SnapshotKeys(snap, clock)
      ensures added + skipped == |Positions(snap)|
    {
      hide Underway;
      seen, added, skipped, steps := seen0, 0, 0, [];
      var todo := snap.Keys;
      ghost var keys: set<Key>, count := {}, 0;
      ProgressEnds(snap, clock);
      UnderwayStarts(merge);
      while todo != {}
        invariant todo <= snap.Keys
        invariant Underway(merge, View(), seen, added, steps)
        invariant Progress(snap, clock, todo, keys, count)
        invariant seen == seen0 + keys && added + skipped == count
      {
        var a :| a in todo;
        ProgressMore(snap, clock, todo, a, keys, count);
        keys, count := keys + ApiBrings(snap, clock, a), count + ApiCount(snap, a);
        seen, added, skipped, steps := MergeNamed(snap, clock, a, seen, added, skipped, merge, steps);
        todo := todo - {a};
      }
    }

    /** Merge an exported snapshot: details of the snapshot stored one for each key met first, which is a
        union on deduplication keys and keeps every sum conserved. */
    method MergeSnapshot(snap: Snapshot, clock: Clock) returns (added: int, skipped: int)
      modifies this
      ensures exists steps :: MergedBy(old(View()), steps, snap, clock, View(), added, skipped)
      ensures Merged(old(View()), snap, clock, View(), added, skipped)
      ensures MergeConserves(old(View()), View())
    {
      var seen: set<Key> := CollectSeen();
      ghost var merge, steps := Merge(View(), seen, snap, clock), [];
      seen, added, skipped, steps := MergeAll(snap, clock, seen, merge);
      UnderwayEnds(merge, View(), seen, added, skipped, steps);
      ReplayIsMerge(merge.s0, steps, snap, clock, View(), added, skipped);
    }

    /** The keys of all stored details. */
    method CollectSeen() returns (seen: set<Key>)
      ensures seen == StoredKeys(View())
    {
      seen := {};
      var todo := apis.Keys;
      while todo != {}
        invariant todo <= apis.Keys
        invariant seen == StoredKeys(View().(apis := apis - todo))
      {
        var a :| a in todo;
        var keys := CollectApi(a, apis[a]);
        assert apis - (todo - {a}) == (apis - todo)[a := apis[a]];
        KeysWithApi(View().(apis := apis - todo), a, apis[a]);
        seen := seen + keys;
        todo := todo - {a};
      }
      assert apis - {} == apis;
    }
  }

  function KeysOfApi(api: string, a: ApiStats): set<Key> {
    set m, d | m in a.models && d in a.models[m].details :: DedupKey(api, m, d)
  }

  lemma KeysWithApi(s: Stats, api: string, a: ApiStats)
    requires api !in s.apis
    ensures StoredKeys(s.(apis := s.apis[api := a])) == StoredKeys(s) + KeysOfApi(api, a)
  {
  }

  method CollectApi(api: string, a: ApiStats) returns (keys: set<Key>)
    ensures keys == KeysOfApi(api, a)
  {
    keys := {};
    var todo := a.models.Keys;
    while todo != {}
      invariant todo <= a.models.Keys
      invariant keys == KeysOfApi(api, a.(models := a.models - todo))
    {
      var m :| m in todo;
      var ds := a.models[m].details;
      ghost var before := keys;
      for i := 0 to |ds|
        invariant keys == before + set d | d in ds[..i] :: DedupKey(api, m, d)
      {
        assert ds[..i + 1] == ds[..i] + [ds[i]];
        keys := keys + {DedupKey(api, m, ds[i])};
      }
      assert ds[..|ds|] == ds;
      assert a.models - (todo - {m}) == (a.models - todo)[m := a.models[m]];
      KeysWithModel(api, a.(models := a.models - todo), m, a.models[m]);
      todo := todo - {m};
    }
    assert a.models - {} == a.models;
  }

  lemma KeysWithModel(api: string, a: ApiStats, m: string, stats: ModelStats)
    requires m !in a.models
    ensures KeysOfApi(api, a.(models := a.models[m := stats])) ==
            KeysOfApi(api, a) + set d | d in stats.details :: DedupKey(api, m, d)
  {
  }
}
