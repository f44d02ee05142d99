/** What quota and suspension marks do: which call sets or lifts which mark, how long a quota mark counts,
    and which marks hide a model. Times and reasons are written out here. */
module RegistryMarks {
  import opened Collections
  import opened Text
  import opened MapSums
  import opened RegistryState
  import opened RegistryInvariant
  import opened RegistryReconcile
  import opened RegistryListing
  import opened RegistryQueries

  // ----- which call does what to which mark -----

  function QuotaMark(t: Tables, m: string, c: string): Option<int> {
    if m in t.models then Lookup(t.models[m].quota, c) else None
  }

  function Suspension(t: Tables, m: string, c: string): Option<string> {
    if m in t.models then Lookup(t.models[m].suspended, c) else None
  }

  /** The same tables but for marks. */
  predicate SameUnmarked(t: Tables, t': Tables) {
    && t'.(models := map[]) == t.(models := map[]) && t'.models.Keys == t.models.Keys
    && forall m :: m in t.models ==>
         t'.models[m].(quota := map[], suspended := map[]) == t.models[m].(quota := map[], suspended := map[])
  }

  /** Client c's quota mark on model m after a call at `now`, from the one before. */
  function QuotaAfter(op: Op, now: int, m: string, c: string, known: bool, before: Option<int>): Option<int> {
    match op
    case SetQuotaOp(d, n) => if c == d && m == n && known then Some(now) else before
    case ClearQuotaOp(d, n) => if c == d && m == n then None else before
    case CleanupOp => if before.Some? && before.value + 300_000_000_000 <= now then None else before
    case _ => before
  }

  /** And its suspension: the first one stays until it is lifted. */
  function SuspensionAfter(op: Op, m: string, c: string, known: bool, before: Option<string>): Option<string> {
    match op
    case SuspendOp(d, n, reason) =>
      if c == d != "" && m == n != "" && known && before == None then Some(reason) else before
    case ResumeOp(d, n) => if c == d != "" && m == n != "" then None else before
    case _ => before
  }

  /** The call changed the marks as said above, and nothing else. */
  ghost predicate Remarked(t: Tables, op: Op, now: int, t': Tables) {
    && SameUnmarked(t, t')
    && forall m, c :: RemarkedAt(t, op, now, t', m, c)
  }

  ghost predicate RemarkedAt(t: Tables, op: Op, now: int, t': Tables, m: string, c: string) {
    && QuotaMark(t', m, c) == QuotaAfter(op, now, m, c, m in t.models, QuotaMark(t, m, c))
    && Suspension(t', m, c) == SuspensionAfter(op, m, c, m in t.models, Suspension(t, m, c))
  }

  lemma OneChanged(t: Tables, n: string, r: Registration, t': Tables)
    requires n in t.models && t' == t.(models := t.models[n := r])
    requires r.(quota := map[], suspended := map[]) == t.models[n].(quota := map[], suspended := map[])
    ensures SameUnmarked(t, t')
    ensures forall m, c :: QuotaMark(t', m, c) == if m == n then Lookup(r.quota, c) else QuotaMark(t, m, c)
    ensures forall m, c :: Suspension(t', m, c) == if m == n then Lookup(r.suspended, c) else Suspension(t, m, c)
  {
  }

  lemma QuotaMarks(t: Tables, op: Op, now: int)
    requires op.SetQuotaOp? || op.ClearQuotaOp?
    ensures Remarked(t, op, now, Effect(t, op, now))
  {
    var t', d, n := Effect(t, op, now), op.client, op.model;
    if n in t.models {
      var quota := t.models[n].quota;
      OneChanged(t, n, t.models[n].(quota := if op.SetQuotaOp? then quota[d := now] else quota - {d}), t');
    }
    hide SameUnmarked, Effect;
    forall m, c ensures RemarkedAt(t, op, now, t', m, c) {
    }
  }

  lemma SuspendMarks(t: Tables, op: Op, now: int)
    requires op.SuspendOp?
    ensures Remarked(t, op, now, Effect(t, op, now))
  {
    var t', d, n := Effect(t, op, now), op.client, op.model;
    if d != "" && n != "" && n in t.models && d !in t.models[n].suspended {
      OneChanged(t, n, t.models[n].(suspended := t.models[n].suspended[d := op.reason]), t');
    } else {
      assert t' == t;
    }
    hide SameUnmarked, Effect;
    forall m, c ensures RemarkedAt(t, op, now, t', m, c) {
    }
  }

  lemma ResumeMarks(t: Tables, op: Op, now: int)
    requires op.ResumeOp?
    ensures Remarked(t, op, now, Effect(t, op, now))
  {
    var t', d, n := Effect(t, op, now), op.client, op.model;
    if d != "" && n != "" && n in t.models {
      OneChanged(t, n, t.models[n].(suspended := t.models[n].suspended - {d}), t');
    } else {
      assert t' == t;
    }
    hide SameUnmarked, Effect;
    forall m, c ensures RemarkedAt(t, op, now, t', m, c) {
    }
  }

  lemma CleanupMarks(t: Tables, now: int)
    ensures Remarked(t, CleanupOp, now, Effect(t, CleanupOp, now))
  {
    forall m, c ensures RemarkedAt(t, CleanupOp, now, Effect(t, CleanupOp, now), m, c) {
    }
  }

  /** The calls about marks change exactly the marks they name. */
  lemma MarksExactly(t: Tables, op: Op, now: int)
    requires !op.RegisterOp? && !op.UnregisterOp?
    ensures Remarked(t, op, now, Effect(t, op, now))
  {
    hide Remarked, Effect;
    match op
    case SetQuotaOp(_, _) => QuotaMarks(t, op, now);
    case ClearQuotaOp(_, _) => QuotaMarks(t, op, now);
    case SuspendOp(_, _, _) => SuspendMarks(t, op, now);
    case ResumeOp(_, _) => ResumeMarks(t, op, now);
    case CleanupOp => CleanupMarks(t, now);
    case ListOp(_, _) => ListMarks(t, op, now);
  }

  lemma ListMarks(t: Tables, op: Op, now: int)
    requires op.ListOp?
    ensures Remarked(t, op, now, Effect(t, op, now))
  {
  }

  /** A quota mark counts for exactly five minutes from the moment it is set. */
  lemma QuotaMarkLasts(t: Tables, c: string, m: string, now: int, later: int)
    requires m in t.models && now <= later
    ensures var t' := Effect(t, SetQuotaOp(c, m), now);
      && m in t'.models
      && (c in LiveQuota(t'.models[m], later) <==> later < now + 300_000_000_000)
      && LiveQuota(t'.models[m], later) - {c} == LiveQuota(t.models[m], later) - {c}
  {
  }

  // ----- which marks hide a model -----

  /** Clients whose quota mark is less than five minutes old. */
  function OverQuota(quota: map<string, int>, now: int): set<string> {
    set c | c in quota && now < quota[c] + 300_000_000_000
  }

  /** Clients suspended for a reason other than their quota. */
  function Ailing(suspended: map<string, string>): set<string> {
    set c | c in suspended && ToLower(suspended[c]) != "quota"
  }

  lemma Quota(reason: string)
    ensures IsQuotaReason(reason) <==> ToLower(reason) == "quota"
  {
    if |reason| == 5 {
      assert reason == [reason[0]] + ([reason[1]] + ([reason[2]] + ([reason[3]] + ([reason[4]] + []))));
      LowerPoints(reason);
    }
  }

  lemma TwiceCounted(a: set<string>, b: set<string>)
    ensures |a| + |b| == |a + b| + |a * b|
  {
    assert a + b == a + (b - a) && b == (b - a) + (a * b);
    assert |b| == |b - a| + |a * b|;
  }

  lemma MarkSets(r: Registration, now: int)
    ensures LiveQuota(r, now) == OverQuota(r.quota, now)
    ensures OtherwiseSuspended(r) == Ailing(r.suspended)
    ensures CoolingDown(r) == r.suspended.Keys - Ailing(r.suspended)
  {
    forall c | c in r.suspended ensures IsQuotaReason(r.suspended[c]) <==> ToLower(r.suspended[c]) == "quota" {
      Quota(r.suspended[c]);
    }
  }

  function Max(a: int, b: int): int { if a < b then b else a }

  /** The available count is what the marked clients leave over, less those that are marked twice. */
  lemma AvailableExactly(r: Registration, now: int)
    ensures var live, down := OverQuota(r.quota, now), r.suspended.Keys;
      Available(r, now) == Max(0, r.count - |live + down| - |live * down|)
  {
    MarkSets(r, now);
    TwiceCounted(OverQuota(r.quota, now), r.suspended.Keys);
    assert |r.suspended| == |r.suspended.Keys|;
  }

  lemma OfferedExactly(count: int, quota: map<string, int>, suspended: map<string, string>, now: int)
    ensures var live, ailing := OverQuota(quota, now), Ailing(suspended);
      Offered(count, |live|, |suspended.Keys - ailing|, |ailing|) <==>
        if ailing == {} then count > 0 else count > |live + ailing| + |live * ailing|
  {
    TwiceCounted(OverQuota(quota, now), Ailing(suspended));
  }

  /** A model is shown if no client is suspended but for its quota, or if some listing is left over after
      the marked clients, less those that are marked twice. */
  lemma VisibleExactly(r: Registration, now: int)
    ensures var live, ailing := OverQuota(r.quota, now), Ailing(r.suspended);
      Visible(r, now) <==>
        if ailing == {} then r.count > 0 else r.count > |live + ailing| + |live * ailing|
  {
    MarkSets(r, now);
    OfferedExactly(r.count, r.quota, r.suspended, now);
  }

  /** So is a model of one provider, with the marks of its clients alone. */
  lemma ShownByExactly(t: Tables, p: string, now: int, m: string, count: int)
    requires m in t.models
    ensures var quota := map c | c in t.models[m].quota && c != "" && ProviderOf(t, c) == p :: t.models[m].quota[c];
      var suspended :=
        map c | c in t.models[m].suspended && c != "" && ProviderOf(t, c) == p :: t.models[m].suspended[c];
      var live, ailing := OverQuota(quota, now), Ailing(suspended);
      ShownBy(t, p, now, m, count) <==>
        if ailing == {} then count > 0 else count > |live + ailing| + |live * ailing|
  {
    var n := Narrow(t, t.models[m], p);
    MarkSets(n, now);
    OfferedExactly(count, n.quota, n.suspended, now);
  }

  /** A listing for a handler shows each visible model once, as it is described, and nothing else. */
  lemma ListingExactly(list: seq<Listing>, models: Models, handler: string, now: int, l: Listing)
    requires IsListing(list, models, handler, now) && forall m :: m in models ==> models[m].info.id == m
    ensures multiset(list)[l] ==
      if l.handler == handler && l.info.id in models && models[l.info.id].info == l.info &&
         Visible(models[l.info.id], now)
      then 1 else 0
  {
    hide Visible;
    assert l in Listed(models, handler, now) <==> l in multiset(Listed(models, handler, now));
  }

  /** The promise: a model is shown if some listing is left over for unmarked clients, or if nothing but
      quotas stands in the way. */
  predicate Promised(r: Registration, now: int) {
    var ailing := Ailing(r.suspended);
    r.count > |OverQuota(r.quota, now) + ailing| || (r.count > 0 && ailing == {})
  }

  /** It is kept unless the clients marked twice are at least as many as the listings left over. */
  lemma PromiseKept(r: Registration, now: int)
    ensures var live, ailing := OverQuota(r.quota, now), Ailing(r.suspended);
      var left := r.count - |live + ailing|;
      (Visible(r, now) <==> Promised(r, now)) <==> !(ailing != {} && 0 < left <= |live * ailing|)
  {
    VisibleExactly(r, now);
  }

  // ----- listings left over are clients left over -----

  /** The clients that list m. */
  function Holders(t: Tables, m: string): set<string> {
    set c | c in t.clientModels && m in t.clientModels[c]
  }

  lemma {:induction false} SumOfOnes(w: map<string, int>, s: set<string>)
    requires forall c :: c in w ==> w[c] == if c in s then 1 else 0
    requires s <= w.Keys
    ensures Sum(w) == |s|
    decreases |s|
  {
    if s == {} {
      SumZero(w);
    } else {
      var c :| c in s;
      SumOfOnes(w[c := 0], s - {c});
      SumUpdate(w, c, 0);
    }
  }

  /** Where every client lists a model at most once, its count is the number of clients that list it. */
  lemma CountIsHolders(t: Tables, m: string)
    requires Inv(t) && m in t.models && forall c :: BagOf(t, c)[m] <= 1
    ensures t.models[m].count == |Holders(t, m)|
  {
    assert Counted(t, m);
    var w := Weights(t.clientModels, m);
    forall c | c in w ensures w[c] == if c in Holders(t, m) then 1 else 0 {
      assert m in t.clientModels[c] <==> multiset(t.clientModels[c])[m] > 0;
      assert w[c] == BagOf(t, c)[m];
    }
    SumOfOnes(w, Holders(t, m));
  }

  /** If besides only clients that list it are marked, something is left over exactly if one of them has
      none of the marks. */
  lemma LeftOver(t: Tables, m: string, marked: set<string>)
    requires Inv(t) && m in t.models && (forall c :: BagOf(t, c)[m] <= 1) && marked <= Holders(t, m)
    ensures t.models[m].count > |marked| <==> exists c :: c in Holders(t, m) && c !in marked
  {
    var holders := Holders(t, m);
    CountIsHolders(t, m);
    assert holders == marked + (holders - marked);
    assert |holders| == |marked| + |holders - marked|;
    if c :| c in holders && c !in marked {
      assert c in holders - marked;
    } else {
      assert holders - marked == {};
    }
  }

  // ----- the excepted case exists -----

  /** Of two clients one is over quota and also suspended, the other could serve, and the model is not shown. */
  lemma MarkedTwiceHides(t: Tables, c: string, m: string, now: int)
    requires c != "" && m != "" && m in t.models && t.models[m].count == 2
    requires t.models[m].quota == map[] && t.models[m].suspended == map[]
    ensures var t' := Effect(Effect(t, SetQuotaOp(c, m), now), SuspendOp(c, m, "down"), now);
      && m in t'.models && Promised(t'.models[m], now)
      && !Visible(t'.models[m], now) && Available(t'.models[m], now) == 0
  {
    var t' := Effect(Effect(t, SetQuotaOp(c, m), now), SuspendOp(c, m, "down"), now);
    var r := t'.models[m];
    assert r == t.models[m].(quota := map[c := now], suspended := map[c := "down"]);
    TwiceMarked(r, c, now);
  }

  lemma TwiceMarked(r: Registration, c: string, now: int)
    requires r.count == 2 && r.quota == map[c := now] && r.suspended == map[c := "down"]
    ensures Promised(r, now) && !Visible(r, now) && Available(r, now) == 0
  {
    VisibleExactly(r, now);
    AvailableExactly(r, now);
    hide Visible, Available, LiveQuota;
    assert |ToLower("down")| == 4;
    assert OverQuota(r.quota, now) == {c} && Ailing(r.suspended) == {c} && r.suspended.Keys == {c};
    assert {c} + {c} == {c} && {c} * {c} == {c};
  }
}
