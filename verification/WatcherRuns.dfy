/** Whole runs of the watcher and its consumer: changes, refreshes and reloads, and the queue between. */
module WatcherRuns {
  import opened Collections
  import opened AuthUpdates
  import opened AuthSources
  import opened AuthDiff
  import opened AuthRuns

  datatype Moment = Moment(view: View, queue: Queue)

  const INITIAL := Moment(NOTHING, EMPTY_QUEUE)

  /** What happens: a single change; a refresh that reads the auth directory, after a rescan or not; the
      queue's next batch is taken; one of its updates is delivered. */
  datatype Event =
    | Single(change: Change, ts: int)
    | Refresh(es: seq<Entry>, rescan: bool, force: bool, now: int, ts: int)
    | TakeBatch
    | DeliverNext

  // ----- steps -----

  /** The updates that a change sends, in any order. */
  ghost predicate Sends(z: Synthesis, v: View, c: Change, us: seq<Update>) {
    match c
    case Written(path, data, parses, now) =>
      if Accepts(v.files, path, data, parses)
      then IsDiff(us, v.current, Indexed(v.index, path), ByID(z.file(path, data.value, now)), false)
      else us == []
    case Removed(path) => IsDiff(us, v.current, Indexed(v.index, path), map[], false)
    case Announced(u) => us == [u]
  }

  /** The index that a rescan builds. */
  function Scanned(z: Synthesis, es: seq<Entry>, now: int): Index {
    if es == [] then map[]
    else
      var before, last := Scanned(z, es[..|es| - 1], now), es[|es| - 1];
      if !Readable(last) || ByID(z.file(last.path, last.data.value, now)) == map[] then before
      else before[last.path := ByID(z.file(last.path, last.data.value, now)).Keys]
  }

  function Rescanned(z: Synthesis, v: View, es: seq<Entry>, now: int): View {
    v.(files := Contents(es), index := Scanned(z, es, now))
  }

  /** A refresh replaces the entries, listing the run-time auths in any order, and sends the difference. */
  ghost predicate Refreshes(z: Synthesis, v: View, e: Event, listed: seq<Option<Auth>>, us: seq<Update>, v': View)
    requires e.Refresh?
  {
    && Lists(listed, v.runtime)
    && v' == v.(current := NewState(z.config(e.now) + FileAuths(z, e.es, e.now) + listed))
    && IsDiff(us, v.current, v.current.Keys, v'.current, e.force)
  }

  function Before(z: Synthesis, v: View, e: Event): View
    requires e.Refresh?
  {
    if e.rescan then Rescanned(z, v, e.es, e.now) else v
  }

  ghost predicate Next(z: Synthesis, a: Moment, e: Event, b: Moment) {
    match e
    case Single(c, ts) =>
      b.view == Changed(z, a.view, c) &&
      exists us :: Sends(z, a.view, c, us) && b.queue == EnqueueAll(a.queue, us, ts)
    case Refresh(_, _, _, _, ts) =>
      exists listed, us :: Refreshes(z, Before(z, a.view, e), e, listed, us, b.view) &&
        b.queue == EnqueueAll(a.queue, us, ts)
    case TakeBatch => a.queue.batch == [] && OrderOk(a.queue) && b == a.(queue := Drain(a.queue))
    case DeliverNext => a.queue.batch != [] && b == a.(queue := AuthUpdates.DeliverOne(a.queue))
  }

  // ----- what a run needs of the sources -----

  /** The sources keep apart, run-time updates name their entry, and a refresh without a rescan finds the
      files as they are known. */
  ghost predicate Fair(z: Synthesis, v: View, e: Event) {
    match e
    case Single(c, _) => Apart(z, v, c) && (c.Announced? ==> Keyed(c.update))
    case Refresh(es, rescan, _, _, _) =>
      && DistinctPaths(es)
      && if rescan then Disjoint(Offers(z, Origins(Contents(es), v.runtime)))
         else forall path :: Similar(Contribution(z, Contents(es), path), Contribution(z, v.files, path))
    case _ => true
  }

  // ----- every step keeps what a run promises -----

  /** The entries are in step with the sources as known, and the consumer will have them. */
  ghost predicate Good(z: Synthesis, m: Moment) {
    Sound(z, m.view) && InStep(z, m.view) && Feeds(m.queue, m.view.current)
  }

  lemma SinglesFeed(z: Synthesis, v: View, q: Queue, c: Change, us: seq<Update>, ts: int)
    requires Sound(z, v) && Feeds(q, v.current) && Sends(z, v, c, us) && (c.Announced? ==> Keyed(c.update))
    ensures Feeds(EnqueueAll(q, us, ts), Changed(z, v, c).current)
  {
    match c
    case Written(path, data, parses, now) =>
      if Accepts(v.files, path, data, parses) {
        ByIDKeyed(z.file(path, data.value, now));
        DiffFeeds(q, us, ts, v.current, Indexed(v.index, path), ByID(z.file(path, data.value, now)), false);
      }
    case Removed(path) => DiffFeeds(q, us, ts, v.current, Indexed(v.index, path), map[], false);
    case Announced(u) => RuntimeFeeds(q, u, ts, v.current);
  }

  lemma {:induction false} ScannedOk(z: Synthesis, es: seq<Entry>, now: int)
    requires z.Steady() && DistinctPaths(es)
    ensures IndexOk(z, Contents(es), Scanned(z, es, now))
    decreases |es|
  {
    if es == [] {
    } else {
      var init, last := es[..|es| - 1], es[|es| - 1];
      ScannedOk(z, init, now);
      if Readable(last) {
        ContentsKeys(init, last.path);
        ReindexedOk(z, Contents(init), Scanned(z, init, now), last.path, last.data.value, now);
        ScannedMore(z, init, last, now);
      }
    }
  }

  lemma ScannedMore(z: Synthesis, init: seq<Entry>, last: Entry, now: int)
    requires IndexOk(z, Contents(init), Scanned(z, init, now)) && last.path !in Contents(init) && Readable(last)
    ensures Scanned(z, init + [last], now) ==
      Reindexed(Scanned(z, init, now), last.path, ByID(z.file(last.path, last.data.value, now)).Keys)
  {
    assert (init + [last])[..|init|] == init;
    assert Indexed(Scanned(z, init, now), last.path) == {};
  }

  /** Sources that offer the same up to authEqual are reflected by the same entries. */
  lemma SimilarSources(f: Offer, g: Offer, m: Auths)
    requires forall s :: Similar(f(s), g(s))
    requires Reflects(f, m)
    ensures Reflects(g, m)
  {
    forall s, id | id in g(s) ensures id in m && AuthEqual(m[id], g(s)[id]) {
      assert id in f(s) && AuthEqual(m[id], f(s)[id]) && AuthEqual(f(s)[id], g(s)[id]);
    }
    forall id | id in m ensures exists s :: id in g(s) {
      var s :| id in f(s);
      assert id in g(s);
    }
  }

  lemma SimilarDisjoint(f: Offer, g: Offer)
    requires forall s :: Similar(f(s), g(s))
    requires Disjoint(g)
    ensures Disjoint(f)
  {
    forall s, t, id | s != t && id in f(s) ensures id !in f(t) {
      assert id in g(s) && id !in g(t);
    }
  }

  lemma SameContributions(z: Synthesis, files: map<string, string>, files': map<string, string>, runtime: Auths,
          s: Source)
    requires forall path :: Similar(Contribution(z, files, path), Contribution(z, files', path))
    ensures Similar(Offers(z, Origins(files, runtime))(s), Offers(z, Origins(files', runtime))(s))
  {
  }

  lemma RefreshInStep(z: Synthesis, v: View, e: Event, listed: seq<Option<Auth>>, us: seq<Update>, v': View)
    requires z.Steady() && e.Refresh? && Refreshes(z, v, e, listed, us, v') && KeyedAuths(v.runtime)
    requires DistinctPaths(e.es) && Disjoint(Offers(z, v.Sources()))
    requires forall path :: Similar(Contribution(z, Contents(e.es), path), Contribution(z, v.files, path))
    ensures InStep(z, v')
  {
    var f, g := Offers(z, Origins(Contents(e.es), v.runtime)), Offers(z, v.Sources());
    forall s ensures Similar(f(s), g(s)) {
      SameContributions(z, Contents(e.es), v.files, v.runtime, s);
    }
    SimilarDisjoint(f, g);
    RefreshReflects(z, e.es, v.runtime, listed, e.now);
    SimilarSources(f, g, v'.current);
  }

  lemma SelfSimilar(z: Synthesis, files: map<string, string>, path: string)
    ensures Similar(Contribution(z, files, path), Contribution(z, files, path))
  {
  }

  /** A refresh from entries in whatever state, after a rescan or of files as known. */
  lemma RefreshGood(z: Synthesis, a: Moment, e: Event, b: Moment)
    requires z.Steady() && e.Refresh? && Next(z, a, e, b) && Fair(z, a.view, e)
    requires Sound(z, a.view) && Feeds(a.queue, a.view.current)
    requires !e.rescan ==> Disjoint(Offers(z, a.view.Sources()))
    ensures Good(z, b)
  {
    var v := Before(z, a.view, e);
    var listed, us :| Refreshes(z, v, e, listed, us, b.view) && b.queue == EnqueueAll(a.queue, us, e.ts);
    if e.rescan {
      ScannedOk(z, e.es, e.now);
      forall path ensures Similar(Contribution(z, Contents(e.es), path), Contribution(z, v.files, path)) {
        SelfSimilar(z, v.files, path);
      }
    }
    RefreshInStep(z, v, e, listed, us, b.view);
    NewStateKeyed(z.config(e.now) + FileAuths(z, e.es, e.now) + listed);
    RefreshFeeds(a.queue, us, e.ts, v.current, b.view.current, e.force);
  }

  lemma StepGood(z: Synthesis, a: Moment, e: Event, b: Moment)
    requires z.Steady() && Good(z, a) && Next(z, a, e, b) && Fair(z, a.view, e)
    ensures Good(z, b)
  {
    match e
    case Single(c, ts) =>
      ChangeKeepsSound(z, a.view, c);
      ChangeKeepsStep(z, a.view, c);
      var us :| Sends(z, a.view, c, us) && b.queue == EnqueueAll(a.queue, us, ts);
      SinglesFeed(z, a.view, a.queue, c, us, ts);
    case Refresh(_, _, _, _, _) => RefreshGood(z, a, e, b);
    case TakeBatch => DrainOk(a.queue);
    case DeliverNext => DeliverOk(a.queue);
  }

  // ----- runs -----

  /** A run: the first load of all files, then any events; with the moment after each. */
  datatype Trace =
    | Started(load: Event, moment: Moment)
    | Then(before: Trace, event: Event, moment: Moment)

  ghost predicate IsRun(z: Synthesis, t: Trace) {
    match t
    case Started(load, m) => load.Refresh? && load.rescan && Fair(z, NOTHING, load) && Next(z, INITIAL, load, m)
    case Then(before, e, m) => IsRun(z, before) && Fair(z, before.moment.view, e) && Next(z, before.moment, e, m)
  }

  lemma InitialFeeds()
    ensures Feeds(EMPTY_QUEUE, map[])
  {
    assert Coalesced(EMPTY_QUEUE) == [];
  }

  lemma {:induction false} RunGood(z: Synthesis, t: Trace)
    requires z.Steady() && IsRun(z, t)
    ensures Good(z, t.moment)
  {
    match t
    case Started(load, m) =>
      InitialFeeds();
      RefreshGood(z, INITIAL, load, m);
    case Then(before, e, m) =>
      RunGood(z, before);
      StepGood(z, before.moment, e, m);
  }

  // ----- what the outside world did in a run -----

  /** The usable contents of the files: as last scanned, and as changed since. */
  function FilesOf(t: Trace): map<string, string> {
    match t
    case Started(Refresh(es, _, _, _, _), _) => Contents(es)
    case Then(before, Refresh(es, rescan, _, _, _), _) => if rescan then Contents(es) else FilesOf(before)
    case Then(before, Single(c, _), _) => Disk(FilesOf(before), c)
    case Then(before, _, _) => FilesOf(before)
    case _ => map[]
  }

  /** The auths announced at run time and not deleted since. */
  function RuntimeOf(t: Trace): Auths {
    match t
    case Then(before, Single(c, _), _) => AddedAtRunTime(RuntimeOf(before), c)
    case Then(before, _, _) => RuntimeOf(before)
    case _ => map[]
  }

  /** The watcher knows both at every moment. */
  lemma {:induction false} RunKnows(z: Synthesis, t: Trace)
    requires IsRun(z, t)
    ensures t.moment.view.files == FilesOf(t) && t.moment.view.runtime == RuntimeOf(t)
  {
    match t
    case Started(load, m) => StepKnows(z, INITIAL, load, m);
    case Then(before, e, m) =>
      RunKnows(z, before);
      StepKnows(z, before.moment, e, m);
  }

  lemma StepKnows(z: Synthesis, a: Moment, e: Event, b: Moment)
    requires Next(z, a, e, b)
    ensures match e
      case Single(c, _) =>
        b.view.files == Disk(a.view.files, c) && b.view.runtime == AddedAtRunTime(a.view.runtime, c)
      case Refresh(es, rescan, _, _, _) =>
        b.view.files == (if rescan then Contents(es) else a.view.files) && b.view.runtime == a.view.runtime
      case _ => b.view == a.view
  {
    match e
    case Single(c, _) => ChangeKnown(z, a.view, c);
    case _ =>
  }

  /** The same IDs with the same bodies. */
  predicate SameEntries(a: Auths, b: Auths) {
    a.Keys == b.Keys && forall id :: id in a ==> SameBody(a[id], b[id])
  }

  lemma SimilarExactly(a: Auths, b: Auths)
    ensures Similar(a, b) <==> SameEntries(a, b)
  {
  }

  /** At every moment of every run, whatever is still under way, a consumer that started from nothing ends
      with what a full refresh of the files and run-time auths, as they now are, would make; with nothing
      waiting it has it already. */
  lemma RunReachesConsumer(z: Synthesis, t: Trace, es: seq<Entry>, listed: seq<Option<Auth>>, now: int)
    requires z.Steady() && IsRun(z, t)
    requires DistinctPaths(es) && Contents(es) == FilesOf(t) && Lists(listed, RuntimeOf(t))
    ensures var q, refreshed := t.moment.queue, NewState(z.config(now) + FileAuths(z, es, now) + listed);
      && OrderOk(q) && SameEntries(ApplyAll(map[], Coalesced(q)), refreshed)
      && (q.batch == [] && q.order == [] ==> SameEntries(ApplyAll(map[], q.sent), refreshed))
  {
    hide IsRun, NewState, FileAuths, ApplyAll, SameEffect, InStep, IndexOk, Lists, FilesOf, RuntimeOf, SameEntries;
    var m := t.moment;
    var refreshed := NewState(z.config(now) + FileAuths(z, es, now) + listed);
    RunKnows(z, t);
    RunGood(z, t);
    ConsumerCatchesUp(m.queue, m.view.current);
    RefreshIsNoChange(z, m.view, es, listed, now);
    SimilarTrans(ApplyAll(map[], Coalesced(m.queue)), m.view.current, refreshed);
    SimilarExactly(ApplyAll(map[], Coalesced(m.queue)), refreshed);
    if m.queue.batch == [] && m.queue.order == [] {
      assert Coalesced(m.queue) == m.queue.sent;
    }
  }
}
