/** Conservation over any mix of recorded requests and merged snapshots. */
module UsageRuns {
  import opened Text
  import opened MapSums
  import opened UsageState
  import opened UsageMerge

  datatype Op =
    | RecordOp(api: string, model: string, detail: Detail)
    | MergeOp(snap: Snapshot, clock: Clock, added: int, skipped: int)

  /** A call does what the methods do: store one detail, or merge a snapshot step by step. */
  ghost predicate Next(s: Stats, op: Op, s': Stats) {
    match op
    case RecordOp(api, model, d) => s' == Add(s, api, model, d, d.tokens.total)
    case MergeOp(snap, clock, added, skipped) => exists steps :: MergedBy(s, steps, snap, clock, s', added, skipped)
  }

  lemma NextMerges(s: Stats, op: Op, s': Stats)
    requires op.MergeOp? && Next(s, op, s')
    ensures Merged(s, op.snap, op.clock, s', op.added, op.skipped) && MergeConserves(s, s')
  {
    var steps :| MergedBy(s, steps, op.snap, op.clock, s', op.added, op.skipped);
    ReplayIsMerge(s, steps, op.snap, op.clock, s', op.added, op.skipped);
  }

  /** What one step adds to the deficit: the negative token totals of newly imported keys. */
  ghost function StepDeficit(s: Stats, op: Op, s': Stats): int {
    if op.MergeOp? then SumOver(StoredKeys(s'), DeficitOfKey) - SumOver(StoredKeys(s), DeficitOfKey) else 0
  }

  /** The call is a merge whose snapshot brings a new key with a negative token total. */
  ghost predicate ImportsNegative(s: Stats, op: Op) {
    op.MergeOp? && exists k :: k in SnapshotKeys(op.snap, op.clock) - StoredKeys(s) && k.tokens.total < 0
  }

  lemma NegativeKeys(k0: set<Key>, k: set<Key>)
    requires k0 <= k
    ensures SumOver(k, DeficitOfKey) - SumOver(k0, DeficitOfKey) >= 0
    ensures SumOver(k, DeficitOfKey) - SumOver(k0, DeficitOfKey) == 0 <==>
      forall x :: x in k - k0 ==> x.tokens.total >= 0
  {
    SumOverUnion(k0, k - k0, DeficitOfKey);
    assert k0 + (k - k0) == k;
    var w := Weighted(k - k0, DeficitOfKey);
    SumNonNegative(w);
    SumZero(w);
    assert forall x :: x in k - k0 ==> w[x] == DeficitOfKey(x);
  }

  lemma StepConserves(s: Stats, op: Op, s': Stats, deficit: int)
    requires Next(s, op, s') && Conserved(s, deficit)
    ensures Conserved(s', deficit + StepDeficit(s, op, s'))
  {
    match op
    case RecordOp(api, model, d) => AddConserves(s, api, model, d, d.tokens.total, deficit);
    case MergeOp(_, _, _, _) =>
      NextMerges(s, op, s');
      assert Balanced(s, StoredKeys(s), s', StoredKeys(s'), deficit);
  }

  lemma NewKeysOf(s: Stats, op: Op, s': Stats)
    requires op.MergeOp? && Next(s, op, s')
    ensures StoredKeys(s) <= StoredKeys(s')
    ensures StoredKeys(s') - StoredKeys(s) == SnapshotKeys(op.snap, op.clock) - StoredKeys(s)
  {
    hide MergedBy, StoredKeys, SnapshotKeys, Extends;
    NextMerges(s, op, s');
  }

  lemma StepDeficitSign(s: Stats, op: Op, s': Stats)
    requires Next(s, op, s')
    ensures StepDeficit(s, op, s') >= 0
    ensures StepDeficit(s, op, s') == 0 <==> !ImportsNegative(s, op)
  {
    hide Next, StoredKeys, SnapshotKeys;
    if op.MergeOp? {
      NewKeysOf(s, op, s');
      NegativeKeys(StoredKeys(s), StoredKeys(s'));
    }
  }

  /** A state of a run, with the deficit accumulated so far and whether a negative key was imported. */
  datatype Moment = Moment(stats: Stats, deficit: int, negative: bool)

  ghost predicate Follows(a: Moment, op: Op, b: Moment) {
    && Next(a.stats, op, b.stats)
    && b.deficit == a.deficit + StepDeficit(a.stats, op, b.stats)
    && b.negative == (a.negative || ImportsNegative(a.stats, op))
  }

  /** A run: the moments after each call, from empty statistics. */
  datatype Trace = Start | Then(before: Trace, op: Op, moment: Moment)

  function Last(t: Trace): Moment {
    if t.Start? then Moment(EMPTY, 0, false) else t.moment
  }

  ghost predicate IsRun(t: Trace) {
    t.Then? ==> IsRun(t.before) && Follows(Last(t.before), t.op, t.moment)
  }

  ghost predicate Sound(m: Moment) {
    Conserved(m.stats, m.deficit) && m.deficit >= 0 && (m.deficit == 0 <==> !m.negative)
  }

  lemma FollowsSound(a: Moment, op: Op, b: Moment)
    requires Sound(a) && Follows(a, op, b)
    ensures Sound(b)
  {
    hide Next, Conserved, StepDeficit, ImportsNegative;
    StepConserves(a.stats, op, b.stats, a.deficit);
    StepDeficitSign(a.stats, op, b.stats);
  }

  lemma StartSound()
    ensures Sound(Last(Start))
  {
    hide Conserved;
    EmptyConserved();
  }

  lemma ThenSound(t: Trace)
    requires t.Then? && Follows(Last(t.before), t.op, t.moment) && Sound(Last(t.before))
    ensures Sound(Last(t))
  {
    hide Follows, Sound;
    FollowsSound(Last(t.before), t.op, t.moment);
  }

  /** After every run all sums are conserved; the overall token count equals the sum over the APIs
      exactly when no merge of the run imported a key with a negative token total, and is larger
      otherwise. */
  lemma {:induction false} RunConserved(t: Trace)
    requires IsRun(t)
    ensures Sound(Last(t))
  {
    match t
    case Start => StartSound();
    case Then(before, _, _) =>
      RunConserved(before);
      ThenSound(t);
  }

  /** One detail of one model of one API. */
  function Single(d: Detail): Snapshot {
    map["a" := map["m" := [d]]]
  }

  lemma PlainNames()
    ensures TrimSpace("a") == "a" && ModelName("m") == "m"
  {
    TrimOne('a');
    TrimOne('m');
  }

  lemma SingleKeys(d: Detail, clock: Clock)
    requires Imported(d, clock("a", "m", 0)) == d
    ensures SnapshotKeys(Single(d), clock) == {DedupKey("a", "m", d)}
  {
    PlainNames();
    var models: map<string, seq<Detail>> := map["m" := [d]];
    var k := DedupKey("a", "m", d);
    forall x ensures x in KeysIn("a", "m", [d], clock) <==> x == k {
      assert DedupKey(TrimSpace("a"), ModelName("m"), Imported([d][0], clock("a", "m", 0))) == k;
    }
    forall x ensures x in ApiKeys("a", models, clock) <==> x == k {
      assert "m" in models && models["m"] == [d];
      assert x in ApiKeys("a", models, clock) <==> x in KeysIn("a", "m", models["m"], clock);
    }
    forall x ensures x in SnapshotKeys(Single(d), clock) <==> x == k {
      assert "a" in Single(d) && Single(d)["a"] == models;
      assert x in SnapshotKeys(Single(d), clock) <==> x in ApiKeys("a", Single(d)["a"], clock);
    }
  }

  lemma SinglePosition(d: Detail)
    ensures |Positions(Single(d))| == 1
  {
    PlainNames();
    var models: map<string, seq<Detail>> := map["m" := [d]];
    forall p ensures p in ApiPositions(models) <==> p == ("m", 0) {
      assert "m" in models && |models["m"]| == 1;
    }
    forall p ensures p in Positions(Single(d)) <==> p == ("a", ("m", 0)) {
      assert "a" in Single(d) && Single(d)["a"] == models;
    }
    assert Positions(Single(d)) == {("a", ("m", 0))};
  }

  /** Merging one detail with a time of its own into empty statistics. */
  lemma SingleMerge(d: Detail, clock: Clock)
    requires Imported(d, clock("a", "m", 0)) == d
    ensures Next(EMPTY, MergeOp(Single(d), clock, 1, 0),
      Add(EnsureApi(EMPTY, "a"), "a", "m", d, Positive(d.tokens.total)))
  {
    var touch, bring := Touch("a"), Import("a", "m", d);
    var s' := Add(EnsureApi(EMPTY, "a"), "a", "m", d, Positive(d.tokens.total));
    PlainNames();
    StepsMore(EMPTY, {}, [], touch);
    StepsMore(EMPTY, {}, [touch], bring);
    assert [] + [touch] == [touch] && [touch] + [bring] == [touch, bring];
    SingleBrought(d, clock);
    assert StoredKeys(EMPTY) == {};
    SingleKeys(d, clock);
    SinglePosition(d);
    assert MergedBy(EMPTY, [touch, bring], Single(d), clock, s', 1, 0);
  }

  lemma SingleBrought(d: Detail, clock: Clock)
    requires Imported(d, clock("a", "m", 0)) == d
    ensures AllBring(Single(d), clock, [Touch("a"), Import("a", "m", d)])
  {
    var touch, bring := Touch("a"), Import("a", "m", d);
    PlainNames();
    assert [touch, bring][..1] == [touch] && [touch][..0] == [];
    assert "a" in Single(d) && "m" in Single(d)["a"] && Single(d)["a"]["m"] == [d];
    assert Brings(Single(d), clock, touch);
    assert Imported(Single(d)["a"]["m"][0], clock("a", "m", 0)) == d;
    assert Brings(Single(d), clock, bring);
  }

  /** The excepted case exists: merging a dated detail with the total -5 into empty statistics counts no
      token overall but -5 under its API. */
  lemma NegativeImportHappens()
    ensures var d := Detail(Time(1, 0), 0, "", "", Tokens(0, 0, 0, 0, -5), false);
      var op := MergeOp(Single(d), AllAt(Time(1, 0)), 1, 0);
      var s' := Add(EnsureApi(EMPTY, "a"), "a", "m", d, 0);
      && Next(EMPTY, op, s') && ImportsNegative(EMPTY, op)
      && s'.total.tokens == 0 && SumOf(s'.apis, TokensOfApi) == -5
  {
    var d := Detail(Time(1, 0), 0, "", "", Tokens(0, 0, 0, 0, -5), false);
    var clock := AllAt(Time(1, 0));
    SingleMerge(d, clock);
    SingleKeys(d, clock);
    assert StoredKeys(EMPTY) == {};
    assert DedupKey("a", "m", d) in SnapshotKeys(Single(d), clock) - {};
    EmptyConserved();
    EnsureConserves(EMPTY, "a", 0);
    AddConserves(EnsureApi(EMPTY, "a"), "a", "m", d, 0, 0);
  }
}
