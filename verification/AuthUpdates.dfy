/** Auth updates, what their consumer does with them, and the coalescing queue between the two. */
module AuthUpdates {
  import opened Collections

  /** An auth entry: `body` is all that authEqual compares besides the ID, `stamp` what it ignores. */
  datatype Auth = Auth(id: string, body: string, stamp: int)

  datatype Action = Add | Modify | Delete
  datatype Update = Update(action: Action, id: string, auth: Option<Auth>)

  predicate AuthEqual(a: Auth, b: Auth) {
    a.id == b.id && a.body == b.body
  }

  type Auths = map<string, Auth>

  /** The same entries up to authEqual. */
  predicate Similar(a: Auths, b: Auths) {
    a.Keys == b.Keys && forall id :: id in a ==> AuthEqual(a[id], b[id])
  }

  // ----- the consumer -----

  /** The entry an update concerns; none for an update the consumer ignores. */
  function Target(u: Update): string {
    match u.action
    case Delete => if u.id != "" then u.id else if u.auth.Some? then u.auth.value.id else ""
    case _ => if u.auth.Some? then u.auth.value.id else ""
  }

  function Apply(m: Auths, u: Update): Auths {
    if Target(u) == "" then m
    else if u.action == Delete then m - {Target(u)}
    else m[Target(u) := u.auth.value]
  }

  function ApplyAll(m: Auths, us: seq<Update>): Auths {
    if us == [] then m else Apply(ApplyAll(m, us[..|us| - 1]), us[|us| - 1])
  }

  /** The entries after an update: a deletion needs an ID, its own or that of an auth with it; any other
      update needs an auth with an ID. */
  function Announcement(m: Auths, u: Update): Auths {
    match u
    case Update(Delete, id, auth) =>
      if id != "" then m - {id} else if auth.Some? && auth.value.id != "" then m - {auth.value.id} else m
    case Update(_, _, Some(a)) => if a.id != "" then m[a.id := a] else m
    case Update(_, _, None) => m
  }

  lemma ApplyExactly(m: Auths, u: Update)
    ensures Apply(m, u) == Announcement(m, u)
  {
    if u.action == Delete && u.id == "" && u.auth.Some? && u.auth.value.id == "" {
      assert Target(u) == "";
    }
  }

  /** The update names the entry it concerns, as all updates of the watcher do. */
  predicate Keyed(u: Update) {
    u.id != "" && Target(u) == u.id
  }

  predicate AllKeyed(us: seq<Update>) {
    forall i :: 0 <= i < |us| ==> Keyed(us[i])
  }

  lemma ApplyMore(m: Auths, us: seq<Update>, u: Update)
    ensures ApplyAll(m, us + [u]) == Apply(ApplyAll(m, us), u)
  {
    assert (us + [u])[..|us|] == us;
  }

  lemma {:induction false} ApplyConcat(m: Auths, a: seq<Update>, b: seq<Update>)
    ensures ApplyAll(m, a + b) == ApplyAll(ApplyAll(m, a), b)
    decreases |b|
  {
    if b == [] {
      assert a + b == a;
    } else {
      var init, last := b[..|b| - 1], b[|b| - 1];
      ApplyConcat(m, a, init);
      assert a + b == a + init + [last];
      ApplyMore(m, a + init, last);
    }
  }

  // ----- what a list of updates does to one entry -----

  /** Only the last update that concerns an entry matters. */
  function Outcome(us: seq<Update>, id: string): Option<Update> {
    if us == [] then None
    else if Target(us[|us| - 1]) == id then Some(us[|us| - 1])
    else Outcome(us[..|us| - 1], id)
  }

  /** What an update leaves of its entry. */
  function Left(u: Update): Option<Auth>
    requires Target(u) != ""
  {
    if u.action == Delete then None else u.auth
  }

  /** What a list leaves of an entry; None if it does not concern it. */
  function Fate(us: seq<Update>, id: string): Option<Option<Auth>>
    requires id != ""
  {
    var o := Outcome(us, id);
    if o.Some? && Target(o.value) == id then Some(Left(o.value)) else None
  }

  function Effect(fate: Option<Option<Auth>>, before: Option<Auth>): Option<Auth> {
    if fate == None then before else fate.value
  }

  lemma {:induction false} OutcomeTarget(us: seq<Update>, id: string)
    ensures Outcome(us, id).Some? ==> Target(Outcome(us, id).value) == id
    decreases |us|
  {
    if us == [] {
    } else {
      OutcomeTarget(us[..|us| - 1], id);
    }
  }

  lemma {:induction false} FateDecides(m: Auths, us: seq<Update>, id: string)
    requires id != ""
    ensures Lookup(ApplyAll(m, us), id) == Effect(Fate(us, id), Lookup(m, id))
    decreases |us|
  {
    if us == [] {
    } else {
      FateDecides(m, us[..|us| - 1], id);
    }
  }

  lemma {:induction false} BlankUntouched(m: Auths, us: seq<Update>)
    ensures Lookup(ApplyAll(m, us), "") == Lookup(m, "")
    decreases |us|
  {
    if us == [] {
    } else {
      BlankUntouched(m, us[..|us| - 1]);
    }
  }

  lemma {:induction false} OutcomeConcat(a: seq<Update>, b: seq<Update>, id: string)
    ensures Outcome(a + b, id) == if Outcome(b, id).Some? then Outcome(b, id) else Outcome(a, id)
    decreases |b|
  {
    if b == [] {
      assert a + b == a;
    } else {
      assert (a + b)[..|a + b| - 1] == a + b[..|b| - 1];
      OutcomeConcat(a, b[..|b| - 1], id);
    }
  }

  lemma FateConcat(a: seq<Update>, b: seq<Update>, id: string)
    requires id != ""
    ensures Fate(a + b, id) == if Fate(b, id).Some? then Fate(b, id) else Fate(a, id)
  {
    OutcomeConcat(a, b, id);
    OutcomeTarget(a, id);
    OutcomeTarget(b, id);
  }

  lemma FateOne(u: Update, id: string)
    requires id != ""
    ensures Fate([u], id) == if Target(u) == id then Some(Left(u)) else None
  {
    assert Outcome([], id) == None;
    assert [u][..|[u]| - 1] == [] && [u][|[u]| - 1] == u;
  }

  lemma {:induction false} NoOutcome(us: seq<Update>, id: string)
    requires forall i :: 0 <= i < |us| ==> Target(us[i]) != id
    ensures Outcome(us, id) == None
  {
    if us == [] {
    } else {
      NoOutcome(us[..|us| - 1], id);
    }
  }

  /** Two lists with the same effect on any entries. */
  ghost predicate SameEffect(a: seq<Update>, b: seq<Update>) {
    forall m: Auths :: ApplyAll(m, a) == ApplyAll(m, b)
  }

  /** Two lists have the same effect exactly when they leave the same of every entry. */
  lemma SameEffectExactly(a: seq<Update>, b: seq<Update>)
    ensures SameEffect(a, b) <==> forall id :: id != "" ==> Fate(a, id) == Fate(b, id)
  {
    if SameEffect(a, b) {
      forall id | id != "" ensures Fate(a, id) == Fate(b, id) {
        var none: Auths := map[];
        var one: Auths := map[id := Auth(id, "", 0)];
        FateDecides(none, a, id);
        FateDecides(none, b, id);
        FateDecides(one, a, id);
        FateDecides(one, b, id);
        assert ApplyAll(none, a) == ApplyAll(none, b) && ApplyAll(one, a) == ApplyAll(one, b);
      }
    }
    if forall id :: id != "" ==> Fate(a, id) == Fate(b, id) {
      forall m: Auths ensures ApplyAll(m, a) == ApplyAll(m, b) {
        SameFates(a, b, m);
      }
    }
  }

  lemma SameFates(a: seq<Update>, b: seq<Update>, m: Auths)
    requires forall id :: id != "" ==> Fate(a, id) == Fate(b, id)
    ensures ApplyAll(m, a) == ApplyAll(m, b)
  {
    forall id ensures Lookup(ApplyAll(m, a), id) == Lookup(ApplyAll(m, b), id) {
      if id == "" {
        BlankUntouched(m, a);
        BlankUntouched(m, b);
      } else {
        FateDecides(m, a, id);
        FateDecides(m, b, id);
      }
    }
    SameLookups(ApplyAll(m, a), ApplyAll(m, b));
  }

  lemma SameEffectBefore(a: seq<Update>, b: seq<Update>, u: Update)
    requires SameEffect(a, b)
    ensures SameEffect(a + [u], b + [u])
  {
    forall m: Auths ensures ApplyAll(m, a + [u]) == ApplyAll(m, b + [u]) {
      ApplyMore(m, a, u);
      ApplyMore(m, b, u);
    }
  }

  // ----- coalescing in general -----

  /** Update u may take the place of v, between the updates l and r, instead of following them all:
      nothing in r changes what u leaves, and what v leaves is overwritten or was so already. */
  predicate MayReplace(l: seq<Update>, v: Update, r: seq<Update>, u: Update) {
    && (Target(u) == "" || Fate(r, Target(u)) == None || Fate(r, Target(u)) == Some(Left(u)))
    && (Target(v) == "" || Target(v) == Target(u) || Fate(r, Target(v)).Some? || Fate(l, Target(v)) == Some(Left(v)))
  }

  lemma FatesAround(l: seq<Update>, v: Update, r: seq<Update>, u: Update, id: string)
    requires id != ""
    ensures Fate(l + [u] + r, id) ==
      if Fate(r, id).Some? then Fate(r, id) else if Target(u) == id then Some(Left(u)) else Fate(l, id)
    ensures Fate(l + [v] + r + [u], id) ==
      if Target(u) == id then Some(Left(u))
      else if Fate(r, id).Some? then Fate(r, id)
      else if Target(v) == id then Some(Left(v))
      else Fate(l, id)
  {
    FateConcat(l + [u], r, id);
    FateConcat(l, [u], id);
    FateConcat(l + [v] + r, [u], id);
    FateConcat(l + [v], r, id);
    FateConcat(l, [v], id);
    FateOne(u, id);
    FateOne(v, id);
  }

  /** It keeps the effect exactly then. */
  lemma ReplaceExactly(l: seq<Update>, v: Update, r: seq<Update>, u: Update)
    ensures SameEffect(l + [u] + r, l + [v] + r + [u]) <==> MayReplace(l, v, r, u)
  {
    var a, b := l + [u] + r, l + [v] + r + [u];
    SameEffectExactly(a, b);
    if Target(u) != "" { FatesAround(l, v, r, u, Target(u)); }
    if Target(v) != "" { FatesAround(l, v, r, u, Target(v)); }
    if MayReplace(l, v, r, u) {
      forall id | id != "" ensures Fate(a, id) == Fate(b, id) {
        FatesAround(l, v, r, u, id);
      }
    }
  }

  /** Of two updates alone the first may be dropped exactly when the consumer ignores it or it concerns
      the same entry. */
  lemma CoalescedPair(v: Update, u: Update)
    ensures SameEffect([u], [v, u]) <==> Target(v) == "" || Target(v) == Target(u)
  {
    ReplaceExactly([], v, [], u);
    assert [] + [u] + [] == [u] && [] + [v] + [] + [u] == [v, u];
  }

  // ----- the queue -----

  /** Where an update waits: under its ID, or under its action and a time stamp if it has none. */
  datatype Key = ById(id: string) | ByStamp(action: Action, ts: int)

  function KeyOf(u: Update, ts: int): Key {
    if u.id != "" then ById(u.id) else ByStamp(u.action, ts)
  }

  /** Pending updates, the batch being delivered, what has been delivered, and all that was dispatched. */
  datatype Queue = Queue(
    pending: map<Key, Update>,
    order: seq<Key>,
    batch: seq<Update>,
    sent: seq<Update>,
    dispatched: seq<Update>)

  const EMPTY_QUEUE := Queue(map[], [], [], [], [])

  function Enqueue(q: Queue, u: Update, ts: int): Queue {
    var key := KeyOf(u, ts);
    q.(order := if key in q.pending then q.order else q.order + [key],
       pending := q.pending[key := u],
       dispatched := q.dispatched + [u])
  }

  function EnqueueAll(q: Queue, us: seq<Update>, ts: int): Queue {
    if us == [] then q else Enqueue(EnqueueAll(q, us[..|us| - 1], ts), us[|us| - 1], ts + |us| - 1)
  }

  /** The order lists exactly the keys of the pending updates, once each. */
  ghost predicate OrderOk(q: Queue) {
    Distinct(q.order) && forall k :: k in q.order <==> k in q.pending
  }

  lemma EnqueueOrderOk(q: Queue, u: Update, ts: int)
    requires OrderOk(q)
    ensures OrderOk(Enqueue(q, u, ts))
  {
  }

  function Waiting(q: Queue): seq<Update>
    requires forall k :: k in q.order ==> k in q.pending
  {
    seq(|q.order|, i requires 0 <= i < |q.order| => q.pending[q.order[i]])
  }

  /** Delivered, then under way, then pending. */
  function Coalesced(q: Queue): seq<Update>
    requires forall k :: k in q.order ==> k in q.pending
  {
    q.sent + q.batch + Waiting(q)
  }

  function Drain(q: Queue): Queue
    requires forall k :: k in q.order ==> k in q.pending
  {
    q.(pending := q.pending - (set k | k in q.order), order := [], batch := Waiting(q))
  }

  function DeliverOne(q: Queue): Queue
    requires q.batch != []
  {
    q.(batch := q.batch[1..], sent := q.sent + [q.batch[0]])
  }

  /** Together as good as all dispatched updates, uncoalesced. */
  ghost predicate Effective(q: Queue) {
    OrderOk(q) && SameEffect(Coalesced(q), q.dispatched)
  }

  function Place(order: seq<Key>, key: Key): (i: nat)
    requires key in order
    ensures i < |order| && order[i] == key
  {
    if order[|order| - 1] == key then |order| - 1 else Place(order[..|order| - 1], key)
  }

  /** The update may be queued: its key is new, or it may replace the update that waits there. */
  predicate Fits(q: Queue, u: Update, ts: int)
    requires forall k :: k in q.order ==> k in q.pending
  {
    var key := KeyOf(u, ts);
    key in q.order ==>
      var i, w := Place(q.order, key), Waiting(q);
      MayReplace(q.sent + q.batch + w[..i], w[i], w[i + 1..], u)
  }

  lemma EnqueueShape(q: Queue, u: Update, ts: int)
    requires OrderOk(q)
    ensures OrderOk(Enqueue(q, u, ts))
    ensures var key, w, w' := KeyOf(u, ts), Waiting(q), Waiting(Enqueue(q, u, ts));
      if key in q.order then
        var i := Place(q.order, key); w' == w[..i] + [u] + w[i + 1..] && w == w[..i] + [w[i]] + w[i + 1..]
      else w' == w + [u]
  {
    EnqueueOrderOk(q, u, ts);
    if KeyOf(u, ts) in q.order {
      EnqueueReplaces(q, u, ts);
    } else {
      assert Waiting(Enqueue(q, u, ts)) == Waiting(q) + [u];
    }
  }

  lemma EnqueueReplaces(q: Queue, u: Update, ts: int)
    requires OrderOk(q) && OrderOk(Enqueue(q, u, ts)) && KeyOf(u, ts) in q.order
    ensures var i, w := Place(q.order, KeyOf(u, ts)), Waiting(q);
      Waiting(Enqueue(q, u, ts)) == w[..i] + [u] + w[i + 1..]
  {
    var key, w, w' := KeyOf(u, ts), Waiting(q), Waiting(Enqueue(q, u, ts));
    var i := Place(q.order, key);
    forall j | 0 <= j < |w| ensures w'[j] == if j == i then u else w[j] {
      assert q.order[j] == key <==> j == i;
    }
  }

  lemma SameEffectSwap(a: seq<Update>, b: seq<Update>, c: seq<Update>)
    requires SameEffect(b, c)
    ensures SameEffect(a, b) <==> SameEffect(a, c)
  {
    if SameEffect(a, b) {
      forall m: Auths ensures ApplyAll(m, a) == ApplyAll(m, c) {
        assert ApplyAll(m, a) == ApplyAll(m, b) && ApplyAll(m, b) == ApplyAll(m, c);
      }
    }
    if SameEffect(a, c) {
      forall m: Auths ensures ApplyAll(m, a) == ApplyAll(m, b) {
        assert ApplyAll(m, a) == ApplyAll(m, c) && ApplyAll(m, b) == ApplyAll(m, c);
      }
    }
  }

  lemma EnqueueCoalesces(q: Queue, u: Update, ts: int)
    requires OrderOk(q)
    ensures var q', key, front, w := Enqueue(q, u, ts), KeyOf(u, ts), q.sent + q.batch, Waiting(q);
      && OrderOk(q') && q'.dispatched == q.dispatched + [u]
      && if key in q.order then
           var i := Place(q.order, key);
           Coalesced(q') == front + w[..i] + [u] + w[i + 1..] && Coalesced(q) == front + w[..i] + [w[i]] + w[i + 1..]
         else Coalesced(q') == Coalesced(q) + [u]
  {
    EnqueueShape(q, u, ts);
  }

  /** Queueing an update keeps the queue effective exactly when the update fits. */
  lemma EnqueueExactly(q: Queue, u: Update, ts: int)
    requires Effective(q)
    ensures Effective(Enqueue(q, u, ts)) <==> Fits(q, u, ts)
  {
    EnqueueCoalesces(q, u, ts);
    hide SameEffect, MayReplace, Enqueue, Coalesced, ApplyAll;
    var q', key, front, w := Enqueue(q, u, ts), KeyOf(u, ts), q.sent + q.batch, Waiting(q);
    SameEffectBefore(Coalesced(q), q.dispatched, u);
    SameEffectSwap(Coalesced(q'), Coalesced(q) + [u], q'.dispatched);
    if key in q.order {
      var i := Place(q.order, key);
      ReplaceExactly(front + w[..i], w[i], w[i + 1..], u);
    } else {
      SameEffectRefl(Coalesced(q'));
    }
  }

  lemma SameEffectRefl(a: seq<Update>)
    ensures SameEffect(a, a)
  {
  }

  lemma DrainExactly(q: Queue)
    requires OrderOk(q) && q.batch == []
    ensures OrderOk(Drain(q)) && Drain(q).pending == map[] && Coalesced(Drain(q)) == Coalesced(q)
  {
    var q' := Drain(q);
    assert q'.pending == map[];
    assert q.sent + q.batch + Waiting(q) == q.sent + Waiting(q);
  }

  lemma DeliverExactly(q: Queue)
    requires OrderOk(q) && q.batch != []
    ensures OrderOk(DeliverOne(q)) && Coalesced(DeliverOne(q)) == Coalesced(q)
  {
    assert DeliverOne(q).sent + DeliverOne(q).batch == q.sent + q.batch;
  }

  // ----- runs -----

  datatype Event = Send(update: Update, ts: int) | Take | Deliver

  predicate Enabled(q: Queue, e: Event) {
    match e
    case Send(_, _) => true
    case Take => q.batch == [] && forall k :: k in q.order ==> k in q.pending
    case Deliver => q.batch != []
  }

  function Handle(q: Queue, e: Event): Queue
    requires Enabled(q, e)
  {
    match e
    case Send(u, ts) => Enqueue(q, u, ts)
    case Take => Drain(q)
    case Deliver => DeliverOne(q)
  }

  /** A run from the empty queue in which each event is possible when it happens; latest last. */
  ghost predicate Legal(es: seq<Event>)
    decreases |es|, 0
  {
    es == [] || (Legal(es[..|es| - 1]) && Enabled(After(es[..|es| - 1]), es[|es| - 1]))
  }

  ghost function After(es: seq<Event>): (q: Queue)
    requires Legal(es)
    ensures OrderOk(q)
    decreases |es|, 1
  {
    if es == [] then EMPTY_QUEUE
    else
      var q, e := After(es[..|es| - 1]), es[|es| - 1];
      HandleOrderOk(q, e);
      Handle(q, e)
  }

  lemma HandleOrderOk(q: Queue, e: Event)
    requires OrderOk(q) && Enabled(q, e)
    ensures OrderOk(Handle(q, e))
  {
    match e
    case Send(u, ts) => EnqueueOrderOk(q, u, ts);
    case Take => DrainExactly(q);
    case Deliver => DeliverExactly(q);
  }

  /** Every update of the run fits when it is queued. */
  ghost predicate AllFit(es: seq<Event>)
    requires Legal(es)
  {
    es == [] ||
    (AllFit(es[..|es| - 1]) &&
     (es[|es| - 1].Send? ==> Fits(After(es[..|es| - 1]), es[|es| - 1].update, es[|es| - 1].ts)))
  }

  /** The queue is effective after every step of the run. */
  ghost predicate AlwaysEffective(es: seq<Event>)
    requires Legal(es)
  {
    Effective(After(es)) && (es != [] ==> AlwaysEffective(es[..|es| - 1]))
  }

  /** In any run whatever, coalescing is invisible at every step - delivered, then under way, then
      pending updates do what all dispatched ones would, uncoalesced - exactly when every update fits. */
  lemma {:induction false} RunDeliversExactly(es: seq<Event>)
    requires Legal(es)
    ensures AlwaysEffective(es) <==> AllFit(es)
    decreases |es|
  {
    if es == [] {
      assert Coalesced(EMPTY_QUEUE) == [];
    } else {
      var init, e := es[..|es| - 1], es[|es| - 1];
      RunDeliversExactly(init);
      if AlwaysEffective(init) {
        HandleExactly(After(init), e);
      }
    }
  }

  lemma HandleExactly(q: Queue, e: Event)
    requires Effective(q) && Enabled(q, e)
    ensures Effective(Handle(q, e)) <==> (e.Send? ==> Fits(q, e.update, e.ts))
  {
    match e
    case Send(u, ts) => EnqueueExactly(q, u, ts);
    case Take => DrainExactly(q);
    case Deliver => DeliverExactly(q);
  }

  // ----- updates that name their entry -----

  /** Each waiting update names the entry it concerns and waits under its ID. */
  ghost predicate PendingKeyed(q: Queue) {
    forall k :: k in q.pending ==> Keyed(q.pending[k]) && k == ById(q.pending[k].id)
  }

  ghost predicate QueueOk(q: Queue) {
    Effective(q) && PendingKeyed(q)
  }

  /** Such updates always fit. */
  lemma KeyedFits(q: Queue, u: Update, ts: int)
    requires OrderOk(q) && PendingKeyed(q) && Keyed(u)
    ensures Fits(q, u, ts)
  {
    var key, w := KeyOf(u, ts), Waiting(q);
    if key in q.order {
      var i := Place(q.order, key);
      var r := w[i + 1..];
      forall j | 0 <= j < |r| ensures Target(r[j]) != Target(u) {
        assert q.order[i + 1 + j] != key;
      }
      NoOutcome(r, Target(u));
      assert Target(w[i]) == Target(u);
    }
  }

  lemma EnqueueOk(q: Queue, u: Update, ts: int)
    requires QueueOk(q) && Keyed(u)
    ensures QueueOk(Enqueue(q, u, ts))
  {
    KeyedFits(q, u, ts);
    EnqueueExactly(q, u, ts);
  }

  lemma {:induction false} EnqueueAllOk(q: Queue, us: seq<Update>, ts: int)
    requires QueueOk(q) && AllKeyed(us)
    ensures QueueOk(EnqueueAll(q, us, ts))
    ensures EnqueueAll(q, us, ts).dispatched == q.dispatched + us
    ensures EnqueueAll(q, us, ts).batch == q.batch && EnqueueAll(q, us, ts).sent == q.sent
    decreases |us|
  {
    if us == [] {
      assert q.dispatched + us == q.dispatched;
    } else {
      var init, last := us[..|us| - 1], us[|us| - 1];
      EnqueueAllOk(q, init, ts);
      EnqueueOk(EnqueueAll(q, init, ts), last, ts + |us| - 1);
      assert q.dispatched + init + [last] == q.dispatched + us;
    }
  }

  lemma DrainOk(q: Queue)
    requires QueueOk(q) && q.batch == []
    ensures QueueOk(Drain(q)) && Drain(q).pending == map[]
  {
    DrainExactly(q);
  }

  lemma DeliverOk(q: Queue)
    requires QueueOk(q) && q.batch != []
    ensures QueueOk(DeliverOne(q))
  {
    DeliverExactly(q);
  }

  ghost predicate AllSendsKeyed(es: seq<Event>) {
    forall i :: 0 <= i < |es| && es[i].Send? ==> Keyed(es[i].update)
  }

  /** So with updates that name their entry, as all the watcher makes do, every run delivers: at every
      step, and once nothing waits the consumer has what uncoalesced delivery would have given. */
  lemma {:induction false} RunDelivers(es: seq<Event>)
    requires Legal(es) && AllSendsKeyed(es)
    ensures AllFit(es) && QueueOk(After(es))
    ensures var q := After(es);
      q.batch == [] && q.order == [] ==> forall m: Auths :: ApplyAll(m, q.sent) == ApplyAll(m, q.dispatched)
    decreases |es|
  {
    if es == [] {
      assert Coalesced(EMPTY_QUEUE) == [];
    } else {
      var q0 := After(es[..|es| - 1]);
      RunDelivers(es[..|es| - 1]);
      match es[|es| - 1]
      case Send(u, ts) =>
        KeyedFits(q0, u, ts);
        EnqueueOk(q0, u, ts);
      case Take => DrainOk(q0);
      case Deliver => DeliverOk(q0);
    }
    var q := After(es);
    if q.batch == [] && q.order == [] {
      assert Coalesced(q) == q.sent;
    }
  }

  /** Without that discipline updates are lost: an auth with another ID than its update is never delivered. */
  lemma MislabelledUpdateLost()
    ensures var v, u := Update(Add, "a", Some(Auth("b", "", 0))), Update(Add, "a", Some(Auth("a", "", 0)));
      var q := Enqueue(EMPTY_QUEUE, v, 0);
      && OrderOk(q) && !Fits(q, u, 1)
      && Enqueue(q, u, 1).pending == map[ById("a") := u] && !SameEffect([u], [v, u])
  {
    var v, u := Update(Add, "a", Some(Auth("b", "", 0))), Update(Add, "a", Some(Auth("a", "", 0)));
    var q := Enqueue(EMPTY_QUEUE, v, 0);
    CoalescedPair(v, u);
    assert q.order == [ById("a")] && Place(q.order, ById("a")) == 0;
    assert Waiting(q) == [v];
    assert Waiting(q)[..0] == [] && Waiting(q)[1..] == [];
  }
}
