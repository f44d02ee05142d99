/** Which updates wait in the queue, and in what order they are delivered. */
module AuthOrder {
  import opened Collections
  import opened AuthUpdates

  /** The updates sent in a run, in their order. */
  function SentIn(es: seq<Event>): seq<Update> {
    if es == [] then []
    else SentIn(es[..|es| - 1]) + if es[|es| - 1].Send? then [es[|es| - 1].update] else []
  }

  /** The latest update with the ID. */
  function Latest(us: seq<Update>, id: string): Option<Update> {
    if us == [] then None
    else if us[|us| - 1].id == id then Some(us[|us| - 1])
    else Latest(us[..|us| - 1], id)
  }

  predicate AllNamed(us: seq<Update>) {
    forall i :: 0 <= i < |us| ==> us[i].id != ""
  }

  /** Under each ID waits the latest update that was sent with it. */
  ghost predicate WaitsLatest(q: Queue, us: seq<Update>) {
    && q.dispatched == us
    && ById("") !in q.pending
    && forall id :: ById(id) in q.pending ==> Latest(us, id) == Some(q.pending[ById(id)])
  }

  lemma LatestMore(us: seq<Update>, u: Update, id: string)
    ensures Latest(us + [u], id) == if u.id == id then Some(u) else Latest(us, id)
  {
    assert (us + [u])[..|us|] == us;
  }

  /** In every run at most one update waits under an ID, and it is the latest. */
  lemma {:induction false} RunWaitsLatest(es: seq<Event>)
    requires Legal(es)
    ensures WaitsLatest(After(es), SentIn(es))
    decreases |es|
  {
    if es == [] {
    } else {
      var init, e := es[..|es| - 1], es[|es| - 1];
      RunWaitsLatest(init);
      match e
      case Send(u, ts) => SendWaits(After(init), SentIn(init), u, ts);
      case Take => DrainExactly(After(init));
      case Deliver => DeliverExactly(After(init));
    }
  }

  lemma SendWaits(q: Queue, us: seq<Update>, u: Update, ts: int)
    requires WaitsLatest(q, us)
    ensures WaitsLatest(Enqueue(q, u, ts), us + [u])
  {
    var q' := Enqueue(q, u, ts);
    forall id | ById(id) in q'.pending ensures Latest(us + [u], id) == Some(q'.pending[ById(id)]) {
      LatestMore(us, u, id);
    }
  }

  lemma LatestHasID(us: seq<Update>, id: string)
    ensures Latest(us, id).Some? ==> Latest(us, id).value.id == id
  {
  }

  lemma OneWaits(es: seq<Event>, i: nat, j: nat)
    requires Legal(es) && AllNamed(SentIn(es))
    requires i < j < |Waiting(After(es))|
    ensures Waiting(After(es))[i].id != Waiting(After(es))[j].id
  {
    var q := After(es);
    RunWaitsLatest(es);
    RunNamed(es);
    assert q.order[i] in q.pending && q.order[j] in q.pending && q.order[i] != q.order[j];
    LatestHasID(SentIn(es), q.order[i].id);
    LatestHasID(SentIn(es), q.order[j].id);
  }

  /** If all updates have IDs, all wait under theirs. */
  lemma {:induction false} RunNamed(es: seq<Event>)
    requires Legal(es) && AllNamed(SentIn(es))
    ensures forall k :: k in After(es).pending ==> k.ById? && k.id != ""
    decreases |es|
  {
    if es == [] {
    } else {
      var init, e := es[..|es| - 1], es[|es| - 1];
      assert SentIn(init) == SentIn(es)[..|SentIn(init)|];
      if e.Send? { assert SentIn(es)[|SentIn(es)| - 1] == e.update; }
      RunNamed(init);
    }
  }

  predicate DistinctIDs(us: seq<Update>) {
    forall i, j :: 0 <= i < j < |us| ==> us[i].id != us[j].id
  }

  /** If no ID is sent twice, nothing is coalesced: delivered, then under way, then waiting updates are the
      ones sent, in the order in which they were sent. */
  lemma {:induction false} RunInOrder(es: seq<Event>)
    requires Legal(es) && AllNamed(SentIn(es)) && DistinctIDs(SentIn(es))
    ensures Coalesced(After(es)) == SentIn(es)
    decreases |es|
  {
    if es == [] {
    } else {
      var init, e := es[..|es| - 1], es[|es| - 1];
      var q := After(init);
      assert SentIn(init) == SentIn(es)[..|SentIn(init)|];
      RunInOrder(init);
      match e
      case Send(u, ts) =>
        assert SentIn(es) == SentIn(init) + [u];
        assert u.id != "" by { assert SentIn(es)[|SentIn(init)|] == u; }
        RunWaitsLatest(init);
        NotYetSent(SentIn(init), u);
        EnqueueShape(q, u, ts);
        assert ById(u.id) !in q.order;
        assert Coalesced(Enqueue(q, u, ts)) == Coalesced(q) + [u];
      case Take => DrainExactly(q);
      case Deliver => DeliverExactly(q);
    }
  }

  lemma {:induction false} NotYetSent(us: seq<Update>, u: Update)
    requires DistinctIDs(us + [u])
    ensures Latest(us, u.id) == None
    decreases |us|
  {
    if us == [] {
    } else {
      var init, last := us[..|us| - 1], us[|us| - 1];
      assert (us + [u])[|us| - 1] == last && (us + [u])[|us|] == u;
      assert forall i :: 0 <= i < |init| ==> (us + [u])[i] == init[i] && (init + [u])[i] == init[i];
      NotYetSent(init, u);
    }
  }

  /** Updates without an ID are not coalesced, unless they were sent at the same time with the same action. */
  lemma AnonymousWait(q: Queue, u: Update, v: Update, t0: int, t1: int)
    requires OrderOk(q) && u.id == "" && v.id == "" && (u.action != v.action || t0 != t1)
    requires ByStamp(u.action, t0) !in q.pending && ByStamp(v.action, t1) !in q.pending
    ensures OrderOk(Enqueue(Enqueue(q, u, t0), v, t1))
    ensures Waiting(Enqueue(Enqueue(q, u, t0), v, t1)) == Waiting(q) + [u, v]
  {
    EnqueueShape(q, u, t0);
    EnqueueShape(Enqueue(q, u, t0), v, t1);
    assert Waiting(q) + [u] + [v] == Waiting(q) + [u, v];
  }
}
