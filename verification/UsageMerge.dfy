/** Merging an exported snapshot: a union on deduplication keys. */
module UsageMerge {
  import opened Text
  import opened MapSums
  import opened UsageState

  /** What identifies a stored detail. Latency and time zone are not part of it. */
  datatype Key = Key(
    api: string,
    model: string,
    instant: int,
    source: string,
    authIndex: string,
    failed: bool,
    tokens: Tokens)

  function DedupKey(api: string, model: string, d: Detail): Key {
    Key(api, model, d.timestamp.instant, d.source, d.authIndex, d.failed, NormaliseTokens(d.tokens))
  }

  lemma NormaliseTwice(t: Tokens)
    ensures NormaliseTokens(NormaliseTokens(t)) == NormaliseTokens(t)
  {
  }

  function StoredKeys(s: Stats): set<Key> {
    set a, m, d | a in s.apis && m in s.apis[a].models && d in s.apis[a].models[m].details :: DedupKey(a, m, d)
  }

  predicate Stores(s: Stats, k: Key) {
    exists d :: d in ModelOf(ApiOf(s.apis, k.api), k.model).details && DedupKey(k.api, k.model, d) == k
  }

  lemma StoredKey(s: Stats, k: Key)
    ensures k in StoredKeys(s) <==> Stores(s, k)
  {
  }

  // ----- snapshots -----

  /** The details of a snapshot by API and model; its own totals are ignored when merging. */
  type Snapshot = map<string, map<string, seq<Detail>>>

  /** The time that is read for a detail without one, by its API, model and place; each such detail has
      its own reading. */
  type Clock = (string, string, int) -> Time

  function AllAt(t: Time): Clock {
    (_, _, _) => t
  }

  function ModelName(m: string): string {
    if TrimSpace(m) == "" then "unknown" else TrimSpace(m)
  }

  /** A detail as it is stored on import. */
  function Imported(d: Detail, now: Time): Detail {
    d.(tokens := NormaliseTokens(d.tokens),
       latencyMs := if d.latencyMs < 0 then 0 else d.latencyMs,
       timestamp := if IsZeroTime(d.timestamp) then now else d.timestamp)
  }

  function KeysIn(a: string, m: string, ds: seq<Detail>, clock: Clock): set<Key> {
    set i | 0 <= i < |ds| :: DedupKey(TrimSpace(a), ModelName(m), Imported(ds[i], clock(a, m, i)))
  }

  function ApiKeys(a: string, models: map<string, seq<Detail>>, clock: Clock): set<Key> {
    set m, k | m in models && k in KeysIn(a, m, models[m], clock) :: k
  }

  /** The keys a snapshot brings; APIs with blank names are dropped. */
  function SnapshotKeys(snap: Snapshot, clock: Clock): set<Key> {
    set a, k | a in snap && TrimSpace(a) != "" && k in ApiKeys(a, snap[a], clock) :: k
  }

  /** The positions of the details of one API. */
  function ApiPositions(models: map<string, seq<Detail>>): set<(string, int)> {
    set m, i | m in models && 0 <= i < |models[m]| :: (m, i)
  }

  /** The positions of all details under APIs with names that are not blank. */
  function Positions(snap: Snapshot): set<(string, (string, int))> {
    set a, p | a in snap && TrimSpace(a) != "" && p in ApiPositions(snap[a]) :: (a, p)
  }

  // ----- totals as functions of the keys -----

  function Positive(n: int): int { if n < 0 then 0 else n }

  function TokensOfKey(k: Key): int { Positive(k.tokens.total) }
  function FailureOfKey(k: Key): int { if k.failed then 1 else 0 }
  function DeficitOfKey(k: Key): int { Positive(-k.tokens.total) }

  /** The totals beyond what the distinct keys account for: what repeated records have added. */
  ghost function Surplus(total: Counters, keys: set<Key>): Counters {
    Counters(total.requests - |keys|,
             total.successes - (|keys| - SumOver(keys, FailureOfKey)),
             total.failures - SumOver(keys, FailureOfKey),
             total.tokens - SumOver(keys, TokensOfKey))
  }

  ghost predicate Extends(s: Stats, s': Stats) {
    forall a, m :: ModelOf(ApiOf(s.apis, a), m).details <= ModelOf(ApiOf(s'.apis, a), m).details
  }

  /** The deficit grows by the negative token totals of the new keys. */
  ghost predicate Balanced(s0: Stats, k0: set<Key>, s: Stats, k: set<Key>, deficit: int) {
    Conserved(s0, deficit) ==> Conserved(s, deficit + SumOver(k, DeficitOfKey) - SumOver(k0, DeficitOfKey))
  }

  /** How a state under way relates to the one the merge started from; k0 and k are their keys. */
  ghost predicate Merging(s0: Stats, k0: set<Key>, s: Stats, k: set<Key>, added: int, deficit: int) {
    && k0 <= k
    && added == |k| - |k0|
    && Surplus(s.total, k) == Surplus(s0.total, k0)
    && Extends(s0, s)
    && Balanced(s0, k0, s, k, deficit)
  }

  lemma AddStores(s: Stats, api: string, model: string, d: Detail, counted: int)
    ensures StoredKeys(Add(s, api, model, d, counted)) == StoredKeys(s) + {DedupKey(api, model, d)}
  {
    var s', key := Add(s, api, model, d, counted), DedupKey(api, model, d);
    forall k ensures k in StoredKeys(s') <==> k in StoredKeys(s) || k == key {
      StoredKey(s, k);
      StoredKey(s', k);
      AddDetails(s, api, model, d, counted, k.api, k.model);
    }
  }

  lemma AddExtends(s: Stats, api: string, model: string, d: Detail, counted: int)
    ensures Extends(s, Add(s, api, model, d, counted))
  {
    var s' := Add(s, api, model, d, counted);
    forall a, m ensures ModelOf(ApiOf(s.apis, a), m).details <= ModelOf(ApiOf(s'.apis, a), m).details {
      AddDetails(s, api, model, d, counted, a, m);
    }
  }

  lemma AddDetails(s: Stats, api: string, model: string, d: Detail, counted: int, a: string, m: string)
    ensures ModelOf(ApiOf(Add(s, api, model, d, counted).apis, a), m).details ==
            ModelOf(ApiOf(s.apis, a), m).details + if a == api && m == model then [d] else []
  {
  }

  lemma AddKeepsSurplus(total: Counters, keys: set<Key>, k: Key)
    requires k !in keys
    ensures Surplus(Increment(total, k.failed, Positive(k.tokens.total)), keys + {k}) == Surplus(total, keys)
  {
    SumOverMore(keys, k, TokensOfKey);
    SumOverMore(keys, k, FailureOfKey);
  }

  lemma AddKeepsBalance(s0: Stats, k0: set<Key>, s: Stats, keys: set<Key>, deficit: int, s': Stats, k: Key)
    requires Balanced(s0, k0, s, keys, deficit) && k !in keys
    requires forall n :: Conserved(s, n) ==> Conserved(s', n + Positive(-k.tokens.total))
    ensures Balanced(s0, k0, s', keys + {k}, deficit)
  {
    SumOverMore(keys, k, DeficitOfKey);
  }

  lemma MergeAdded(s0: Stats, k0: set<Key>, s: Stats, keys: set<Key>, added: int, deficit: int, api: string,
          model: string, d: Detail)
    requires Merging(s0, k0, s, keys, added, deficit)
    requires NormaliseTokens(d.tokens) == d.tokens && DedupKey(api, model, d) !in keys
    ensures Merging(s0, k0, Add(s, api, model, d, Positive(d.tokens.total)), keys + {DedupKey(api, model, d)},
              added + 1, deficit)
  {
    var k, s' := DedupKey(api, model, d), Add(s, api, model, d, Positive(d.tokens.total));
    AddKeepsSurplus(s.total, keys, k);
    forall n | Conserved(s, n) ensures Conserved(s', n + Positive(-k.tokens.total)) {
      AddConserves(s, api, model, d, Positive(d.tokens.total), n);
    }
    AddKeepsBalance(s0, k0, s, keys, deficit, s', k);
    AddExtends(s, api, model, d, Positive(d.tokens.total));
    ExtendsTransitive(s0, s, s');
  }

  lemma ExtendsTransitive(a: Stats, b: Stats, c: Stats)
    requires Extends(a, b) && Extends(b, c)
    ensures Extends(a, c)
  {
    forall x, m ensures ModelOf(ApiOf(a.apis, x), m).details <= ModelOf(ApiOf(c.apis, x), m).details {
      var q := ModelOf(ApiOf(b.apis, x), m).details;
      assert ModelOf(ApiOf(a.apis, x), m).details <= q && q <= ModelOf(ApiOf(c.apis, x), m).details;
    }
  }

  /** An API entry without models changes nothing. */
  function EnsureApi(s: Stats, api: string): Stats {
    if api in s.apis then s else s.(apis := s.apis[api := NO_API])
  }

  lemma EnsureKeepsKeys(s: Stats, api: string)
    ensures StoredKeys(EnsureApi(s, api)) == StoredKeys(s)
  {
    var s' := EnsureApi(s, api);
    assert forall a :: ApiOf(s'.apis, a) == ApiOf(s.apis, a);
    forall k ensures k in StoredKeys(s') <==> k in StoredKeys(s) {
      StoredKey(s, k);
      StoredKey(s', k);
    }
  }

  lemma EnsureConserves(s: Stats, api: string, deficit: int)
    requires Conserved(s, deficit)
    ensures Conserved(EnsureApi(s, api), deficit)
  {
    if api !in s.apis {
      EnsureConservesApis(s.total, s.apis, api, deficit);
    }
  }

  lemma EnsureConservesApis(total: Counters, apis: map<string, ApiStats>, api: string, deficit: int)
    requires ApisConserved(total, apis, deficit) && api !in apis
    ensures ApisConserved(total, apis[api := NO_API], deficit)
  {
    NoApiOk();
    ApiSums(apis, api, NO_API);
  }

  lemma EnsureExtends(s0: Stats, s: Stats, api: string)
    requires Extends(s0, s)
    ensures Extends(s0, EnsureApi(s, api))
  {
    forall a, m ensures ModelOf(ApiOf(s0.apis, a), m).details <= ModelOf(ApiOf(EnsureApi(s, api).apis, a), m).details {
      assert ApiOf(EnsureApi(s, api).apis, a) == ApiOf(s.apis, a);
    }
  }

  lemma EnsureKeepsBalance(s0: Stats, k0: set<Key>, s: Stats, keys: set<Key>, deficit: int, s': Stats)
    requires Balanced(s0, k0, s, keys, deficit)
    requires forall n :: Conserved(s, n) ==> Conserved(s', n)
    ensures Balanced(s0, k0, s', keys, deficit)
  {
  }

  lemma MergeEnsured(s0: Stats, k0: set<Key>, s: Stats, keys: set<Key>, added: int, deficit: int, api: string)
    requires Merging(s0, k0, s, keys, added, deficit)
    ensures Merging(s0, k0, EnsureApi(s, api), keys, added, deficit)
  {
    EnsureExtends(s0, s, api);
    forall n | Conserved(s, n) ensures Conserved(EnsureApi(s, api), n) {
      EnsureConserves(s, api, n);
    }
    EnsureKeepsBalance(s0, k0, s, keys, deficit, EnsureApi(s, api));
  }

  // ----- the steps of a merge -----

  /** Make sure an API has an entry, or store one imported detail. */
  datatype Step = Touch(api: string) | Import(api: string, model: string, detail: Detail)

  function Apply(s: Stats, step: Step): Stats {
    match step
    case Touch(api) => EnsureApi(s, api)
    case Import(api, model, d) => Add(s, api, model, d, Positive(d.tokens.total))
  }

  function Replay(s: Stats, steps: seq<Step>): Stats {
    if steps == [] then s else Apply(Replay(s, steps[..|steps| - 1]), steps[|steps| - 1])
  }

  function KeyOf(step: Step): set<Key> {
    if step.Touch? then {} else {DedupKey(step.api, step.model, step.detail)}
  }

  function StepKeys(steps: seq<Step>): set<Key> {
    if steps == [] then {} else StepKeys(steps[..|steps| - 1]) + KeyOf(steps[|steps| - 1])
  }

  function Imports(steps: seq<Step>): nat {
    if steps == [] then 0 else Imports(steps[..|steps| - 1]) + if steps[|steps| - 1].Touch? then 0 else 1
  }

  /** Every imported detail is normalised and has a key neither in k nor imported before. */
  predicate FreshSteps(k: set<Key>, steps: seq<Step>) {
    steps == [] ||
    (var init, last := steps[..|steps| - 1], steps[|steps| - 1];
     && FreshSteps(k, init)
     && KeyOf(last) !! k + StepKeys(init)
     && (last.Import? ==> NormaliseTokens(last.detail.tokens) == last.detail.tokens))
  }

  /** The step touches a named API of the snapshot or stores one of its details. */
  predicate Brings(snap: Snapshot, clock: Clock, step: Step) {
    match step
    case Touch(api) => exists a :: a in snap && TrimSpace(a) == api != ""
    case Import(api, model, d) =>
      exists a, m, i ::
        && a in snap && m in snap[a] && 0 <= i < |snap[a][m]|
        && api == TrimSpace(a) != "" && model == ModelName(m) && d == Imported(snap[a][m][i], clock(a, m, i))
  }

  predicate AllBring(snap: Snapshot, clock: Clock, steps: seq<Step>) {
    steps == [] || (AllBring(snap, clock, steps[..|steps| - 1]) && Brings(snap, clock, steps[|steps| - 1]))
  }

  lemma StepsMore(s: Stats, k: set<Key>, steps: seq<Step>, step: Step)
    ensures Replay(s, steps + [step]) == Apply(Replay(s, steps), step)
    ensures StepKeys(steps + [step]) == StepKeys(steps) + KeyOf(step)
    ensures Imports(steps + [step]) == Imports(steps) + if step.Touch? then 0 else 1
    ensures FreshSteps(k, steps + [step]) <==>
      FreshSteps(k, steps) && KeyOf(step) !! k + StepKeys(steps) &&
      (step.Import? ==> NormaliseTokens(step.detail.tokens) == step.detail.tokens)
  {
    assert (steps + [step])[..|steps|] == steps;
  }

  lemma {:induction false} ReplayStores(s: Stats, steps: seq<Step>)
    ensures StoredKeys(Replay(s, steps)) == StoredKeys(s) + StepKeys(steps)
  {
    if steps == [] {
    } else {
      var init, last := steps[..|steps| - 1], steps[|steps| - 1];
      ReplayStores(s, init);
      match last
      case Touch(api) => EnsureKeepsKeys(Replay(s, init), api);
      case Import(api, model, d) => AddStores(Replay(s, init), api, model, d, Positive(d.tokens.total));
    }
  }

  lemma MergeStep(s0: Stats, k0: set<Key>, s: Stats, keys: set<Key>, added: int, deficit: int, step: Step)
    requires Merging(s0, k0, s, keys, added, deficit) && KeyOf(step) !! keys
    requires step.Import? ==> NormaliseTokens(step.detail.tokens) == step.detail.tokens
    ensures Merging(s0, k0, Apply(s, step), keys + KeyOf(step), added + if step.Touch? then 0 else 1, deficit)
  {
    match step
    case Touch(api) =>
      assert keys + {} == keys;
      MergeEnsured(s0, k0, s, keys, added, deficit, api);
    case Import(api, model, d) => MergeAdded(s0, k0, s, keys, added, deficit, api, model, d);
  }

  lemma MergingStarts(s: Stats, k: set<Key>, deficit: int)
    ensures Merging(s, k, Replay(s, []), k + StepKeys([]), Imports([]), deficit)
  {
    assert k + {} == k;
  }

  lemma {:induction false} ReplayMerges(s: Stats, k: set<Key>, steps: seq<Step>, deficit: int)
    requires FreshSteps(k, steps)
    ensures Merging(s, k, Replay(s, steps), k + StepKeys(steps), Imports(steps), deficit)
    decreases |steps|
  {
    hide Merging, Replay, StepKeys, Imports, FreshSteps;
    if steps == [] {
      MergingStarts(s, k, deficit);
    } else {
      var init, last := steps[..|steps| - 1], steps[|steps| - 1];
      assert steps == init + [last];
      StepsMore(s, k, init, last);
      ReplayMerges(s, k, init, deficit);
      MergeStep(s, k, Replay(s, init), k + StepKeys(init), Imports(init), deficit, last);
      assert k + StepKeys(steps) == k + StepKeys(init) + KeyOf(last);
    }
  }

  // ----- what a merge promises -----

  /** From totals t and keys k, bringing in the keys `brought` leads to totals t' and keys k'. */
  ghost predicate KeysMerged(t: Counters, k: set<Key>, brought: set<Key>, t': Counters, k': set<Key>, added: int) {
    && k' == k + brought
    && added == |brought - k|
    && Surplus(t', k') == Surplus(t, k)
  }

  /** What merging a snapshot into s results in, in whatever order its maps are visited: the union of
      the keys, each new one counted once; nothing stored before is lost or moved. */
  ghost predicate Merged(s: Stats, snap: Snapshot, clock: Clock, s': Stats, added: int, skipped: int) {
    && KeysMerged(s.total, StoredKeys(s), SnapshotKeys(snap, clock), s'.total, StoredKeys(s'), added)
    && added + skipped == |Positions(snap)|
    && Extends(s, s')
  }

  /** How the merge does it: step by step, storing a detail of the snapshot for each key it meets first. */
  ghost predicate MergedBy(s: Stats, steps: seq<Step>, snap: Snapshot, clock: Clock, s': Stats, added: int,
          skipped: int) {
    && s' == Replay(s, steps)
    && FreshSteps(StoredKeys(s), steps) && AllBring(snap, clock, steps)
    && StoredKeys(s) + StepKeys(steps) == StoredKeys(s) + SnapshotKeys(snap, clock)
    && added == Imports(steps) && added + skipped == |Positions(snap)|
  }

  lemma NothingBrought(t: Counters, k: set<Key>, brought: set<Key>, t': Counters, k': set<Key>, added: int)
    requires KeysMerged(t, k, brought, t', k', added) && brought <= k
    ensures added == 0 && k' == k && t' == t
  {
    assert k + brought == k;
    assert brought - k == {};
  }

  /** Bringing in two sets of keys one after the other. */
  lemma BroughtTwice(t: Counters, k: set<Key>, a: set<Key>, b: set<Key>, t1: Counters, k1: set<Key>, n1: int,
          t2: Counters, k2: set<Key>, n2: int)
    requires KeysMerged(t, k, a, t1, k1, n1) && KeysMerged(t1, k1, b, t2, k2, n2)
    ensures KeysMerged(t, k, a + b, t2, k2, n1 + n2)
  {
    Sizes(k, a, b);
    Sizes(k, a + b, {});
    assert k + (a + b) == k + a + b && k + (a + b) + {} == k + (a + b);
    assert {} - (k + (a + b)) == {};
  }

  lemma BroughtOnce(t: Counters, k: set<Key>, brought: set<Key>, t1: Counters, k1: set<Key>, n1: int, t2: Counters,
          k2: set<Key>, n2: int)
    requires KeysMerged(t, k, brought, t1, k1, n1) && KeysMerged(t, k, brought, t2, k2, n2)
    ensures k1 == k2 && t1 == t2 && n1 == n2
  {
  }

  /** Such steps make a union, and keep everything conserved; the deficit grows by the negative token
      totals of the new keys. */
  lemma ReplayIsMerge(s: Stats, steps: seq<Step>, snap: Snapshot, clock: Clock, s': Stats, added: int, skipped: int)
    requires MergedBy(s, steps, snap, clock, s', added, skipped)
    ensures Merged(s, snap, clock, s', added, skipped)
    ensures MergeConserves(s, s')
  {
    ReplayStores(s, steps);
    ReplayIsKeysMerge(s, StoredKeys(s), steps, SnapshotKeys(snap, clock));
    forall n ensures Balanced(s, StoredKeys(s), s', StoredKeys(s'), n) {
      ReplayMerges(s, StoredKeys(s), steps, n);
    }
  }

  lemma ReplayIsKeysMerge(s: Stats, k: set<Key>, steps: seq<Step>, brought: set<Key>)
    requires FreshSteps(k, steps) && k + StepKeys(steps) == k + brought
    ensures KeysMerged(s.total, k, brought, Replay(s, steps).total, k + brought, Imports(steps))
    ensures Extends(s, Replay(s, steps))
  {
    ReplayMerges(s, k, steps, 0);
    NewKeys(k, brought);
  }

  /** Whatever the deficit, everything stays conserved. */
  ghost predicate MergeConserves(s: Stats, s': Stats) {
    forall n :: Balanced(s, StoredKeys(s), s', StoredKeys(s'), n)
  }

  lemma NewKeys(k: set<Key>, brought: set<Key>)
    ensures |brought - k| == |k + brought| - |k|
  {
    assert k + brought == k + (brought - k);
  }

  /** Every detail under a name that is not blank has a time of its own. */
  predicate Dated(snap: Snapshot) {
    forall a, m, i :: a in snap && m in snap[a] && 0 <= i < |snap[a][m]| && TrimSpace(a) != "" ==>
      !IsZeroTime(snap[a][m][i].timestamp)
  }

  lemma DatedKeys(snap: Snapshot, c0: Clock, c1: Clock)
    requires Dated(snap)
    ensures SnapshotKeys(snap, c0) == SnapshotKeys(snap, c1)
  {
    forall a | a in snap && TrimSpace(a) != "" ensures ApiKeys(a, snap[a], c0) == ApiKeys(a, snap[a], c1) {
      forall m | m in snap[a] ensures KeysIn(a, m, snap[a][m], c0) == KeysIn(a, m, snap[a][m], c1) {
        forall i | 0 <= i < |snap[a][m]|
          ensures Imported(snap[a][m][i], c0(a, m, i)) == Imported(snap[a][m][i], c1(a, m, i))
        {
        }
      }
    }
  }

  lemma {:induction false} LaterThan(keys: set<Key>) returns (n: int)
    ensures forall k :: k in keys ==> k.instant < n
    decreases |keys|
  {
    if keys == {} {
      n := 0;
    } else {
      var k :| k in keys;
      n := LaterThan(keys - {k});
      if n <= k.instant { n := k.instant + 1; }
    }
  }

  /** A snapshot brings the same keys whenever it is merged exactly when it is dated. */
  lemma DatedExactly(snap: Snapshot)
    ensures (forall t0, t1 :: SnapshotKeys(snap, AllAt(t0)) == SnapshotKeys(snap, AllAt(t1))) <==> Dated(snap)
  {
    if Dated(snap) {
      forall t0, t1 ensures SnapshotKeys(snap, AllAt(t0)) == SnapshotKeys(snap, AllAt(t1)) {
        DatedKeys(snap, AllAt(t0), AllAt(t1));
      }
    } else {
      var a, m, i :| a in snap && m in snap[a] && 0 <= i < |snap[a][m]| && TrimSpace(a) != "" &&
        IsZeroTime(snap[a][m][i].timestamp);
      var t0 := Time(0, 0);
      var n := LaterThan(SnapshotKeys(snap, AllAt(t0)));
      var t1 := Time(n, 0);
      var k := DedupKey(TrimSpace(a), ModelName(m), Imported(snap[a][m][i], AllAt(t1)(a, m, i)));
      assert k in KeysIn(a, m, snap[a][m], AllAt(t1));
      assert k in ApiKeys(a, snap[a], AllAt(t1));
      assert k in SnapshotKeys(snap, AllAt(t1)) && k.instant == n;
    }
  }

  /** Merging the same dated snapshot again, at any later time, adds nothing and leaves the totals. */
  lemma MergeTwice(s: Stats, snap: Snapshot, c0: Clock, s1: Stats, added1: int, skipped1: int, c1: Clock, s2: Stats,
          added2: int, skipped2: int)
    requires Dated(snap)
    requires Merged(s, snap, c0, s1, added1, skipped1) && Merged(s1, snap, c1, s2, added2, skipped2)
    ensures added2 == 0 && StoredKeys(s2) == StoredKeys(s1) && s2.total == s1.total
  {
    DatedKeys(snap, c0, c1);
    NothingBrought(s1.total, StoredKeys(s1), SnapshotKeys(snap, c1), s2.total, StoredKeys(s2), added2);
  }

  /** Two dated snapshots merged in either order, each merge at its own time, give the same keys and
      totals and add the same number of details. */
  lemma MergeCommutes(s: Stats, a: Snapshot, b: Snapshot,
                      c1: Clock, sa: Stats, n1: int, k1: int, c2: Clock, sab: Stats, n2: int, k2: int,
                      c3: Clock, sb: Stats, n3: int, k3: int, c4: Clock, sba: Stats, n4: int, k4: int)
    requires Dated(a) && Dated(b)
    requires Merged(s, a, c1, sa, n1, k1) && Merged(sa, b, c2, sab, n2, k2)
    requires Merged(s, b, c3, sb, n3, k3) && Merged(sb, a, c4, sba, n4, k4)
    ensures StoredKeys(sab) == StoredKeys(sba) && sab.total == sba.total && n1 + n2 == n3 + n4
  {
    DatedKeys(a, c1, c4);
    DatedKeys(b, c2, c3);
    KeysCommute(s.total, StoredKeys(s), SnapshotKeys(a, c1), SnapshotKeys(b, c2),
                sa.total, StoredKeys(sa), n1, sab.total, StoredKeys(sab), n2,
                sb.total, StoredKeys(sb), n3, sba.total, StoredKeys(sba), n4);
  }

  /** So do any two snapshots if each has the same clock readings in both orders. */
  lemma MergeCommutesUndated(s: Stats, a: Snapshot, b: Snapshot, ca: Clock, cb: Clock,
                             sa: Stats, n1: int, k1: int, sab: Stats, n2: int, k2: int,
                             sb: Stats, n3: int, k3: int, sba: Stats, n4: int, k4: int)
    requires Merged(s, a, ca, sa, n1, k1) && Merged(sa, b, cb, sab, n2, k2)
    requires Merged(s, b, cb, sb, n3, k3) && Merged(sb, a, ca, sba, n4, k4)
    ensures StoredKeys(sab) == StoredKeys(sba) && sab.total == sba.total && n1 + n2 == n3 + n4
  {
    KeysCommute(s.total, StoredKeys(s), SnapshotKeys(a, ca), SnapshotKeys(b, cb),
                sa.total, StoredKeys(sa), n1, sab.total, StoredKeys(sab), n2,
                sb.total, StoredKeys(sb), n3, sba.total, StoredKeys(sba), n4);
  }

  lemma KeysCommute(t: Counters, k: set<Key>, a: set<Key>, b: set<Key>,
                    ta: Counters, ka: set<Key>, n1: int, tab: Counters, kab: set<Key>, n2: int,
                    tb: Counters, kb: set<Key>, n3: int, tba: Counters, kba: set<Key>, n4: int)
    requires KeysMerged(t, k, a, ta, ka, n1) && KeysMerged(ta, ka, b, tab, kab, n2)
    requires KeysMerged(t, k, b, tb, kb, n3) && KeysMerged(tb, kb, a, tba, kba, n4)
    ensures kab == kba && tab == tba && n1 + n2 == n3 + n4
  {
    BroughtTwice(t, k, a, b, ta, ka, n1, tab, kab, n2);
    BroughtTwice(t, k, b, a, tb, kb, n3, tba, kba, n4);
    assert a + b == b + a;
    BroughtOnce(t, k, a + b, tab, kab, n1 + n2, tba, kba, n3 + n4);
  }

  lemma Sizes<T>(s: set<T>, a: set<T>, b: set<T>)
    ensures |s| + |a - s| + |b - (s + a)| == |s + a + b|
  {
    assert s + a + b == s + (a - s) + (b - (s + a));
    assert s !! (a - s) && (s + (a - s)) !! (b - (s + a));
  }

  /** The totals grow by exactly the new keys: their number, failures and non-negative token amounts. */
  lemma MergeTotals(t: Counters, k: set<Key>, brought: set<Key>, t': Counters, k': set<Key>, added: int)
    requires KeysMerged(t, k, brought, t', k', added)
    ensures t'.requests == t.requests + added
    ensures t'.successes == t.successes + added - SumOver(brought - k, FailureOfKey)
    ensures t'.failures == t.failures + SumOver(brought - k, FailureOfKey)
    ensures t'.tokens == t.tokens + SumOver(brought - k, TokensOfKey)
  {
    assert k + brought == k + (brought - k);
    SumOverUnion(k, brought - k, FailureOfKey);
    SumOverUnion(k, brought - k, TokensOfKey);
  }

  // ----- a store's own export -----

  function Export(s: Stats): Snapshot {
    map a | a in s.apis :: map m | m in s.apis[a].models :: s.apis[a].models[m].details
  }

  /** Names without surrounding blanks, API and model names not blank, dated details. */
  predicate Tidy(s: Stats) {
    forall a, m :: a in s.apis && m in s.apis[a].models ==> TidyModel(a, m, s.apis[a].models[m].details)
  }

  predicate TidyModel(a: string, m: string, ds: seq<Detail>) {
    && TrimSpace(a) == a != ""
    && TrimSpace(m) == m != ""
    && forall i :: 0 <= i < |ds| ==> !IsZeroTime(ds[i].timestamp)
  }

  lemma TidyKey(a: string, m: string, d: Detail, now: Time)
    requires TrimSpace(a) == a != "" && TrimSpace(m) == m != "" && !IsZeroTime(d.timestamp)
    ensures DedupKey(TrimSpace(a), ModelName(m), Imported(d, now)) == DedupKey(a, m, d)
  {
    NormaliseTwice(d.tokens);
  }

  lemma ExportedKey(s: Stats, k: Key, clock: Clock)
    requires Tidy(s) && k in StoredKeys(s)
    ensures k in SnapshotKeys(Export(s), clock)
  {
    var a, m, d :| a in s.apis && m in s.apis[a].models && d in s.apis[a].models[m].details && k == DedupKey(a, m, d);
    assert TidyModel(a, m, s.apis[a].models[m].details);
    var i :| 0 <= i < |s.apis[a].models[m].details| && s.apis[a].models[m].details[i] == d;
    TidyKey(a, m, d, clock(a, m, i));
    assert m in Export(s)[a] && Export(s)[a][m][i] == d;
    assert k in KeysIn(a, m, Export(s)[a][m], clock);
    assert k in ApiKeys(a, Export(s)[a], clock);
  }

  lemma ImportedKey(s: Stats, k: Key, clock: Clock)
    requires Tidy(s) && k in SnapshotKeys(Export(s), clock)
    ensures k in StoredKeys(s)
  {
    var a :| a in Export(s) && TrimSpace(a) != "" && k in ApiKeys(a, Export(s)[a], clock);
    var m :| m in Export(s)[a] && k in KeysIn(a, m, Export(s)[a][m], clock);
    var ds := Export(s)[a][m];
    var i :| 0 <= i < |ds| && k == DedupKey(TrimSpace(a), ModelName(m), Imported(ds[i], clock(a, m, i)));
    assert TidyModel(a, m, s.apis[a].models[m].details);
    TidyKey(a, m, ds[i], clock(a, m, i));
  }

  /** A tidy store's export holds exactly its keys. */
  lemma ExportKeys(s: Stats, clock: Clock)
    requires Tidy(s)
    ensures SnapshotKeys(Export(s), clock) == StoredKeys(s)
  {
    forall k ensures k in SnapshotKeys(Export(s), clock) <==> k in StoredKeys(s) {
      if k in StoredKeys(s) { ExportedKey(s, k, clock); }
      if k in SnapshotKeys(Export(s), clock) { ImportedKey(s, k, clock); }
    }
  }

  /** So importing it back adds nothing. */
  lemma ExportBack(s: Stats, clock: Clock, back: Stats, added: int, skipped: int)
    requires Tidy(s) && Merged(s, Export(s), clock, back, added, skipped)
    ensures added == 0 && back.total == s.total && StoredKeys(back) == StoredKeys(s)
  {
    ExportKeys(s, clock);
    NothingBrought(s.total, StoredKeys(s), SnapshotKeys(Export(s), clock), back.total, StoredKeys(back), added);
  }

  /** And importing it into an empty store restores the keys, each counted once in every total. */
  lemma ExportRestores(s: Stats, clock: Clock, restored: Stats, added: int, skipped: int)
    requires Tidy(s) && Merged(EMPTY, Export(s), clock, restored, added, skipped)
    ensures StoredKeys(restored) == StoredKeys(s) && restored.total == TotalsOf(StoredKeys(s))
  {
    ExportKeys(s, clock);
    assert StoredKeys(EMPTY) == {};
    Restored(SnapshotKeys(Export(s), clock), restored.total, StoredKeys(restored), added);
  }

  /** The totals of distinct details. */
  ghost function TotalsOf(keys: set<Key>): Counters {
    Counters(|keys|, |keys| - SumOver(keys, FailureOfKey), SumOver(keys, FailureOfKey), SumOver(keys, TokensOfKey))
  }

  lemma Restored(brought: set<Key>, t: Counters, k: set<Key>, added: int)
    requires KeysMerged(EMPTY.total, {}, brought, t, k, added)
    ensures k == brought && t == TotalsOf(brought)
  {
    assert brought - {} == brought && {} + brought == brought;
    MergeTotals(EMPTY.total, {}, brought, t, k, added);
  }
}
