/** Safety of the registry over whole runs. */
module RegistryRuns {
  import opened Collections
  import opened RegistryState
  import opened RegistryInvariant
  import opened RegistryReconcile
  import opened RegistryListing

  lemma EffectKeepsInv(t: Tables, op: Op, now: int)
    requires Inv(t)
    ensures Inv(Effect(t, op, now))
  {
    hide Inv, Register, Unregister;
    match op
    case RegisterOp(c, p, list) => RegisterKeepsInv(t, c, p, list);
    case UnregisterOp(c) => UnregisterKeepsInv(t, c);
    case _ =>
      MarksOnly(t, op, now);
      InvIgnoresMarks(t, Effect(t, op, now));
  }

  /** The other mutators change nothing but marks. */
  lemma MarksOnly(t: Tables, op: Op, now: int)
    requires !op.RegisterOp? && !op.UnregisterOp?
    ensures var t' := Effect(t, op, now);
      && t'.(models := map[]) == t.(models := map[]) && t'.models.Keys == t.models.Keys
      && forall m :: m in t.models ==> EraseMarks(t.models[m]) == EraseMarks(t'.models[m])
  {
  }

  /** A mutator that keeps the cache leaves the models as they are. */
  lemma UnclearedModels(t: Tables, op: Op, now: int)
    requires !Clears(t, op, now) && !op.ListOp?
    ensures Effect(t, op, now).models == t.models
  {
    match op
    case ResumeOp(c, m) =>
      if m in t.models && c != "" && m != "" {
        assert t.models[m].suspended - {c} == t.models[m].suspended;
      }
    case CleanupOp =>
      forall m | m in t.models ensures Cleaned(t.models[m], now) == t.models[m] {
        forall c | c in t.models[m].quota ensures Live(t.models[m].quota[c], now) {
          assert !DeadMark(t.models, now, m, c);
        }
        assert Cleaned(t.models[m], now).quota == t.models[m].quota;
      }
      assert Effect(t, op, now).models == t.models;
    case _ =>
  }

  /** Each step keeps the counters and the cache right, and a listing read, from the cache or not,
      shows what a fresh build would show at that moment. */
  lemma StepSafe(w: World, op: Op, w': World)
    requires ValidWorld(w) && Next(w, op, w')
    ensures ValidWorld(w')
    ensures op.ListOp? ==> IsListing(op.result, w.tables.models, op.handler, w'.clock)
  {
    EffectKeepsInv(w.tables, op, w'.clock);
    if op.ListOp? {
      if !(op.handler in w.cache && Fresh(w.cache[op.handler], w'.clock)) {
        StoreKeepsCacheOk(w.cache, w.tables.models, w.clock, op.handler, w'.clock, op.result,
          w'.cache[op.handler].expiresAt);
      }
    } else if !Clears(w.tables, op, w'.clock) {
      UnclearedModels(w.tables, op, w'.clock);
    }
  }

  ghost predicate Run(ws: seq<World>, ops: seq<Op>) {
    && |ws| == |ops| + 1
    && ws[0] == START
    && forall i {:trigger ops[i]} :: 0 <= i < |ops| ==> Next(ws[i], ops[i], ws[i + 1])
  }

  lemma {:induction false} RunValid(ws: seq<World>, ops: seq<Op>, n: nat)
    requires Run(ws, ops) && n <= |ops|
    ensures ValidWorld(ws[n])
    decreases n
  {
    if n == 0 {
      EmptyInv();
    } else {
      RunValid(ws, ops, n - 1);
      StepSafe(ws[n - 1], ops[n - 1], ws[n]);
    }
  }

  /** In every state of every run the counters are right, and no listing is ever stale. */
  lemma RunSafe(ws: seq<World>, ops: seq<Op>, n: nat)
    requires Run(ws, ops) && n < |ops|
    ensures Inv(ws[n].tables)
    ensures ops[n].ListOp? ==> IsListing(ops[n].result, ws[n].tables.models, ops[n].handler, ws[n + 1].clock)
  {
    RunValid(ws, ops, n);
    StepSafe(ws[n], ops[n], ws[n + 1]);
  }

  // ----- runs in which marks are only set for clients that hold the model -----

  /** The caller marks only a client that lists the model. */
  ghost predicate MarksHolder(t: Tables, op: Op) {
    match op
    case SetQuotaOp(c, m) => BagOf(t, c)[m] > 0
    case SuspendOp(c, m, _) => BagOf(t, c)[m] > 0
    case _ => true
  }

  lemma EffectKeepsMarksHeld(t: Tables, op: Op, now: int)
    requires Inv(t) && MarksHeld(t) && MarksHolder(t, op)
    ensures MarksHeld(Effect(t, op, now))
  {
    match op
    case RegisterOp(c, p, list) => RegisterKeepsMarksHeld(t, c, p, list);
    case UnregisterOp(c) => UnregisterKeepsMarksHeld(t, c);
    case SetQuotaOp(c, m) => NewMarkHeld(t, Effect(t, op, now), c, m);
    case SuspendOp(c, m, _) => NewMarkHeld(t, Effect(t, op, now), c, m);
    case _ => NoNewMarks(t, Effect(t, op, now));
  }

  lemma NewMarkHeld(t: Tables, t': Tables, c: string, m: string)
    requires MarksHeld(t) && BagOf(t, c)[m] > 0
    requires t'.clientModels == t.clientModels
    requires forall d, n :: Marked(t', d, n) ==> Marked(t, d, n) || (d == c && n == m)
    ensures MarksHeld(t')
  {
    forall d, n | Marked(t', d, n) ensures BagOf(t', d)[n] > 0 {
      assert BagOf(t', d) == BagOf(t, d);
    }
  }

  lemma NoNewMarks(t: Tables, t': Tables)
    requires MarksHeld(t)
    requires t'.clientModels == t.clientModels
    requires forall d, n :: Marked(t', d, n) ==> Marked(t, d, n)
    ensures MarksHeld(t')
  {
    forall d, n | Marked(t', d, n) ensures BagOf(t', d)[n] > 0 {
      assert BagOf(t', d) == BagOf(t, d);
    }
  }

  lemma UnregisterKeepsMarksHeld(t: Tables, c: string)
    requires MarksHeld(t)
    ensures MarksHeld(Unregister(t, c))
  {
    var t' := Unregister(t, c);
    forall d, m | Marked(t', d, m) ensures BagOf(t', d)[m] > 0 {
      RemovedEntry(t, c, m);
      assert Marked(t, d, m);
      assert d != c;
      assert BagOf(t', d) == BagOf(t, d);
    }
  }

  lemma RegisterKeepsMarksHeld(t: Tables, c: string, p: string, list: seq<Option<ModelInfo>>)
    requires Inv(t) && MarksHeld(t)
    ensures MarksHeld(Register(t, c, p, list))
  {
    HeldMarksAreSafe(t, c, p, list);
    UnregisterKeepsMarksHeld(t, c);
    var u, t', ids := Unregister(t, c), Rebuild(t, c, p, list), RawIds(list);
    if ids == [] {
      UnregisterKeepsMarksHeld(u, c);
    } else {
      forall d, m | Marked(t', d, m) ensures BagOf(t', d)[m] > 0 {
        assert Marked(u, d, m);
        assert d != c;
        assert BagOf(t', d) == BagOf(u, d);
      }
    }
  }

  /** In such a run, every re-registration is a rebuild. */
  lemma {:induction false} RunRebuilds(ws: seq<World>, ops: seq<Op>, n: nat)
    requires Run(ws, ops) && n <= |ops|
    requires forall i :: 0 <= i < n ==> MarksHolder(ws[i].tables, ops[i])
    ensures MarksHeld(ws[n].tables)
    ensures n < |ops| && ops[n].RegisterOp? ==>
      ws[n + 1].tables == Rebuild(ws[n].tables, ops[n].client, ops[n].provider, ops[n].list)
    decreases n
  {
    RunValid(ws, ops, n);
    if n == 0 {
      EmptyInv();
    } else {
      RunRebuilds(ws, ops, n - 1);
      RunValid(ws, ops, n - 1);
      EffectKeepsMarksHeld(ws[n - 1].tables, ops[n - 1], ws[n].clock);
    }
    if n < |ops| && ops[n].RegisterOp? {
      HeldMarksAreSafe(ws[n].tables, ops[n].client, ops[n].provider, ops[n].list);
    }
  }
}
