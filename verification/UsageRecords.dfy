/** What a stored request is, field by field: when two details count as one, what a record and a merge
    store, and in which day and hour they are counted. */
module UsageRecords {
  import opened Text
  import opened MapSums
  import opened UsageState
  import opened UsageMerge

  // ----- tokens -----

  /** The tokens of a request: the total given, else those read, written and thought, else the cached ones too. */
  function CountedTotal(t: Tokens): int {
    var used := t.input + t.output + t.reasoning;
    if t.total != 0 then t.total else if used != 0 then used else used + t.cached
  }

  lemma NormaliseExactly(t: Tokens)
    ensures NormaliseTokens(t) == Tokens(t.input, t.output, t.reasoning, t.cached, CountedTotal(t))
    ensures CountedTotal(NormaliseTokens(t)) == CountedTotal(t)
  {
  }

  // ----- when two details are one -----

  /** The details tell of the same request of the same model under the same API. */
  predicate SameRequest(a: string, m: string, d: Detail, b: string, n: string, e: Detail) {
    && a == b && m == n
    && d.timestamp.instant == e.timestamp.instant && d.source == e.source && d.authIndex == e.authIndex
    && d.failed == e.failed
    && d.tokens.input == e.tokens.input && d.tokens.output == e.tokens.output
    && d.tokens.reasoning == e.tokens.reasoning && d.tokens.cached == e.tokens.cached
    && CountedTotal(d.tokens) == CountedTotal(e.tokens)
  }

  /** Keys agree exactly then. */
  lemma DedupExactly(a: string, m: string, d: Detail, b: string, n: string, e: Detail)
    ensures DedupKey(a, m, d) == DedupKey(b, n, e) <==> SameRequest(a, m, d, b, n, e)
  {
    NormaliseExactly(d.tokens);
    NormaliseExactly(e.tokens);
  }

  // ----- what a merge stores -----

  function NameOf(m: string): string {
    if TrimSpace(m) == "" then "unknown" else TrimSpace(m)
  }

  /** The detail as it is stored on import. */
  function Cleaned(d: Detail, now: Time): Detail {
    Detail(if d.timestamp.instant == 0 then now else d.timestamp, if d.latencyMs < 0 then 0 else d.latencyMs,
           d.source, d.authIndex,
           Tokens(d.tokens.input, d.tokens.output, d.tokens.reasoning, d.tokens.cached, CountedTotal(d.tokens)),
           d.failed)
  }

  lemma ImportedExactly(d: Detail, now: Time)
    ensures Imported(d, now) == Cleaned(d, now)
  {
  }

  /** Some stored detail tells of this request. */
  ghost predicate Knows(s: Stats, a: string, m: string, d: Detail) {
    exists e :: e in ModelOf(ApiOf(s.apis, a), m).details && SameRequest(a, m, e, a, m, d)
  }

  lemma KnowsExactly(s: Stats, a: string, m: string, d: Detail)
    ensures Knows(s, a, m, d) <==> DedupKey(a, m, d) in StoredKeys(s)
  {
    var k := DedupKey(a, m, d);
    StoredKey(s, k);
    assert k.api == a && k.model == m;
    forall e ensures DedupKey(a, m, e) == k <==> SameRequest(a, m, e, a, m, d) {
      DedupExactly(a, m, e, a, m, d);
    }
  }

  /** A detail of the snapshot under an API name that is not blank. */
  predicate Tells(snap: Snapshot, a: string, m: string, i: int) {
    a in snap && TrimSpace(a) != "" && m in snap[a] && 0 <= i < |snap[a][m]|
  }

  function ToldKey(snap: Snapshot, clock: Clock, a: string, m: string, i: int): Key
    requires Tells(snap, a, m, i)
  {
    DedupKey(TrimSpace(a), NameOf(m), Cleaned(snap[a][m][i], clock(a, m, i)))
  }

  predicate TellsOf(snap: Snapshot, clock: Clock, a: string, m: string, i: int, b: string, n: string, d: Detail) {
    && Tells(snap, a, m, i)
    && SameRequest(TrimSpace(a), NameOf(m), Cleaned(snap[a][m][i], clock(a, m, i)), b, n, d)
  }

  lemma BroughtExactly(snap: Snapshot, clock: Clock, k: Key)
    ensures k in SnapshotKeys(snap, clock) <==>
      exists a, m, i :: Tells(snap, a, m, i) && k == ToldKey(snap, clock, a, m, i)
  {
    if k in SnapshotKeys(snap, clock) {
      var a :| a in snap && TrimSpace(a) != "" && k in ApiKeys(a, snap[a], clock);
      var m :| m in snap[a] && k in KeysIn(a, m, snap[a][m], clock);
      var i :| 0 <= i < |snap[a][m]| &&
        k == DedupKey(TrimSpace(a), ModelName(m), Imported(snap[a][m][i], clock(a, m, i)));
      assert Tells(snap, a, m, i);
      ImportedExactly(snap[a][m][i], clock(a, m, i));
    }
    if a, m, i :| Tells(snap, a, m, i) && k == ToldKey(snap, clock, a, m, i) {
      ImportedExactly(snap[a][m][i], clock(a, m, i));
      assert k in KeysIn(a, m, snap[a][m], clock);
      assert k in ApiKeys(a, snap[a], clock);
    }
  }

  /** After a merge every request that the snapshot tells of is known. */
  lemma MergeKnows(s: Stats, snap: Snapshot, clock: Clock, s': Stats, added: int, skipped: int, a: string, m: string,
          i: nat)
    requires Merged(s, snap, clock, s', added, skipped) && Tells(snap, a, m, i)
    ensures Knows(s', TrimSpace(a), NameOf(m), Cleaned(snap[a][m][i], clock(a, m, i)))
  {
    var d := Cleaned(snap[a][m][i], clock(a, m, i));
    BroughtExactly(snap, clock, DedupKey(TrimSpace(a), NameOf(m), d));
    KnowsExactly(s', TrimSpace(a), NameOf(m), d);
  }

  /** And no others but those known before. */
  lemma MergeKnowsOnly(s: Stats, snap: Snapshot, clock: Clock, s': Stats, added: int, skipped: int, b: string,
          n: string, d: Detail)
    requires Merged(s, snap, clock, s', added, skipped) && Knows(s', b, n, d)
    ensures Knows(s, b, n, d) || exists a, m, i :: TellsOf(snap, clock, a, m, i, b, n, d)
  {
    var k := DedupKey(b, n, d);
    KnowsExactly(s, b, n, d);
    KnowsExactly(s', b, n, d);
    BroughtExactly(snap, clock, k);
    if k !in StoredKeys(s) {
      var a, m, i :| Tells(snap, a, m, i) && k == ToldKey(snap, clock, a, m, i);
      DedupExactly(TrimSpace(a), NameOf(m), Cleaned(snap[a][m][i], clock(a, m, i)), b, n, d);
      assert TellsOf(snap, clock, a, m, i, b, n, d);
    }
  }

  lemma TwoBrought(a: string, m: string, d: Detail, e: Detail, clock: Clock)
    requires TrimSpace(a) == a != "" && TrimSpace(m) == m != ""
    requires d.timestamp.instant != 0 && e.timestamp.instant != 0
    ensures SnapshotKeys(map[a := map[m := [d, e]]], clock) == {DedupKey(a, m, d), DedupKey(a, m, e)}
  {
    var models: map<string, seq<Detail>> := map[m := [d, e]];
    var snap: Snapshot := map[a := models];
    var k, l := DedupKey(a, m, d), DedupKey(a, m, e);
    SameCleaned(a, m, d, clock(a, m, 0));
    SameCleaned(a, m, e, clock(a, m, 1));
    assert snap[a] == models && models[m] == [d, e];
    assert Tells(snap, a, m, 0) && ToldKey(snap, clock, a, m, 0) == k;
    assert Tells(snap, a, m, 1) && ToldKey(snap, clock, a, m, 1) == l;
    hide ToldKey;
    forall x ensures x in SnapshotKeys(snap, clock) <==> x == k || x == l {
      BroughtExactly(snap, clock, x);
    }
  }

  /** Two details merged into empty statistics are both known, and both counted exactly if they do not tell of
      the same request. */
  lemma TwoMerged(a: string, m: string, d: Detail, e: Detail, clock: Clock, s': Stats, added: int, skipped: int)
    requires TrimSpace(a) == a != "" && TrimSpace(m) == m != ""
    requires d.timestamp.instant != 0 && e.timestamp.instant != 0
    requires Merged(EMPTY, map[a := map[m := [d, e]]], clock, s', added, skipped)
    ensures added == s'.total.requests == if SameRequest(a, m, d, a, m, e) then 1 else 2
    ensures Knows(s', a, m, d) && Knows(s', a, m, e)
  {
    TwoBrought(a, m, d, e, clock);
    DedupExactly(a, m, d, a, m, e);
    KnowsExactly(s', a, m, d);
    KnowsExactly(s', a, m, e);
    assert StoredKeys(EMPTY) == {};
    TwoKeys(DedupKey(a, m, d), DedupKey(a, m, e), s'.total, StoredKeys(s'), added);
  }

  lemma TwoKeys(k: Key, l: Key, t: Counters, keys: set<Key>, added: int)
    requires KeysMerged(EMPTY.total, {}, {k, l}, t, keys, added)
    ensures added == t.requests == if k == l then 1 else 2
    ensures k in keys && l in keys
  {
    MergeTotals(EMPTY.total, {}, {k, l}, t, keys, added);
    assert {k, l} - {} == {k, l};
    assert k == l ==> {k, l} == {k};
  }

  lemma SameCleaned(a: string, m: string, d: Detail, now: Time)
    requires d.timestamp.instant != 0
    ensures DedupKey(a, m, Cleaned(d, now)) == DedupKey(a, m, d)
  {
    DedupExactly(a, m, Cleaned(d, now), a, m, d);
  }

  // ----- days and hours -----

  /** The wall clock of the time's zone shows this day, counted from the zero time, and this hour; `rest` is
      what has passed of the hour, in nanoseconds. */
  predicate Shows(t: Time, day: int, hour: int, rest: int) {
    && 0 <= hour < 24 && 0 <= rest < 60 * 60 * 1_000_000_000
    && t.instant + t.offset * 1_000_000_000 == ((day * 24 + hour) * 60 * 60) * 1_000_000_000 + rest
  }

  lemma ShownExactly(t: Time, day: int, hour: int, rest: int)
    requires Shows(t, day, hour, rest)
    ensures DayKey(t) == day && HourKey(t) == hour
  {
    var hours := day * 24 + hour;
    assert Local(t) / 3_600_000_000_000 == hours;
    assert Local(t) / 86_400_000_000_000 == hours / 24;
  }

  // ----- what a record stores -----

  /** A bucket has grown by n, the others are as before. */
  predicate Grown(before: map<int, int>, after: map<int, int>, k: int, n: int) {
    && k in after && after[k] == n + (if k in before then before[k] else 0)
    && after - {k} == before - {k}
  }

  /** One more request is counted once in the totals, in its day and in its hour, and stored as it is, last
      under its API and model; other APIs and models are as before. */
  ghost predicate StoredOnce(s: Stats, s': Stats, a: string, m: string, d: Detail, counted: int) {
    && s'.total.requests == s.total.requests + 1
    && s'.total.successes == s.total.successes + (if d.failed then 0 else 1)
    && s'.total.failures == s.total.failures + (if d.failed then 1 else 0)
    && s'.total.tokens == s.total.tokens + counted
    && ModelOf(ApiOf(s'.apis, a), m).details == ModelOf(ApiOf(s.apis, a), m).details + [d]
    && s'.apis - {a} == s.apis - {a}
    && ApiOf(s'.apis, a).models - {m} == ApiOf(s.apis, a).models - {m}
    && forall day, hour, rest :: Shows(d.timestamp, day, hour, rest) ==> InBuckets(s, s', day, hour, counted)
  }

  predicate InBuckets(s: Stats, s': Stats, day: int, hour: int, counted: int) {
    && Grown(s.requestsByDay, s'.requestsByDay, day, 1) && Grown(s.requestsByHour, s'.requestsByHour, hour, 1)
    && Grown(s.tokensByDay, s'.tokensByDay, day, counted) && Grown(s.tokensByHour, s'.tokensByHour, hour, counted)
  }

  lemma AddStoresOnce(s: Stats, a: string, m: string, d: Detail, counted: int)
    ensures StoredOnce(s, Add(s, a, m, d, counted), a, m, d, counted)
  {
    var s' := Add(s, a, m, d, counted);
    forall day, hour, rest | Shows(d.timestamp, day, hour, rest) ensures InBuckets(s, s', day, hour, counted) {
      ShownExactly(d.timestamp, day, hour, rest);
      BumpGrows(s.requestsByDay, day, 1);
      BumpGrows(s.requestsByHour, hour, 1);
      BumpGrows(s.tokensByDay, day, counted);
      BumpGrows(s.tokensByHour, hour, counted);
    }
  }

  lemma BumpGrows(m: map<int, int>, k: int, n: int)
    ensures Grown(m, Bump(m, k, n), k, n)
  {
  }
}
