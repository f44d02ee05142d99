/** The watcher: entries kept in step with configuration, files and running program, and fed to a consumer. */
module Watcher {
  import opened Collections
  import opened Text
  import opened AuthUpdates
  import opened AuthSources
  import opened AuthDiff
  import opened AuthRuns
  import opened WatcherRuns

  method AuthSliceToMap(auths: seq<Option<Auth>>) returns (byID: Auths)
    ensures byID == ByID(auths) && KeyedAuths(byID)
  {
    byID := map[];
    for i := 0 to |auths|
      invariant byID == ByID(auths[..i])
    {
      assert auths[..i + 1][..i] == auths[..i];
      if auths[i].Some? && TrimSpace(auths[i].value.id) != "" {
        byID := byID[auths[i].value.id := auths[i].value];
      }
    }
    assert auths[..|auths|] == auths;
    ByIDKeyed(auths);
  }

  /** The files of the auth directory, read one after the other. */
  method SnapshotFileAuths(z: Synthesis, es: seq<Entry>, now: int) returns (auths: seq<Option<Auth>>)
    ensures auths == FileAuths(z, es, now)
  {
    auths := [];
    for i := 0 to |es|
      invariant auths == FileAuths(z, es[..i], now)
    {
      assert es[..i + 1][..i] == es[..i];
      if Readable(es[i]) {
        auths := auths + z.file(es[i].path, es[i].data.value, now);
      }
    }
    assert es[..|es|] == es;
  }

  method ListAuths(m: Auths) returns (auths: seq<Option<Auth>>)
    requires KeyedAuths(m)
    ensures Lists(auths, m)
  {
    auths := [];
    var todo := m.Keys;
    while todo != {}
      invariant todo <= m.Keys && Lists(auths, m - todo)
      decreases |todo|
    {
      var id :| id in todo;
      ListsOneMore(auths, m, todo, id);
      auths := auths + [Some(m[id])];
      todo := todo - {id};
    }
    assert m - todo == m;
  }

  lemma ListsOneMore(auths: seq<Option<Auth>>, m: Auths, todo: set<string>, id: string)
    requires KeyedAuths(m) && todo <= m.Keys && Lists(auths, m - todo) && id in todo
    ensures Lists(auths + [Some(m[id])], m - (todo - {id}))
  {
    var auths', m' := auths + [Some(m[id])], m - (todo - {id});
    forall i | 0 <= i < |auths'| ensures auths'[i].Some? && Lookup(m', auths'[i].value.id) == auths'[i] {
      if i < |auths| { assert Lookup(m - todo, auths[i].value.id) == auths[i]; }
    }
    forall x | x in m' ensures Some(m'[x]) in auths' {
      if x != id { assert Some((m - todo)[x]) in auths; }
    }
  }

  class AuthWatcher {
    const synthesis: Synthesis
    const hasQueue: bool
    var currentAuths: Auths
    var runtimeAuths: Auths
    var fileAuthsByPath: Index
    var lastAuthHashes: map<string, string>
    var pendingUpdates: map<Key, Update>
    var pendingOrder: seq<Key>
    var batch: seq<Update>
    ghost var sent: seq<Update>
    ghost var dispatched: seq<Update>

    ghost function QueueState(): Queue
      reads this
    {
      Queue(pendingUpdates, pendingOrder, batch, sent, dispatched)
    }

    ghost function Seen(): View
      reads this
    {
      View(currentAuths, fileAuthsByPath, lastAuthHashes, runtimeAuths)
    }

    ghost function Now(): Moment
      reads this
    {
      Moment(Seen(), QueueState())
    }

    /** What holds of the fields whatever the sources offer. */
    ghost predicate Consistent()
      reads this
    {
      synthesis.Steady() && Sound(synthesis, Seen()) && OrderOk(QueueState())
    }

    /** The consumer of the queue will have the current entries. */
    ghost predicate Feeding()
      reads this
    {
      hasQueue && Feeds(QueueState(), currentAuths)
    }

    constructor (synthesis: Synthesis, hasQueue: bool)
      requires synthesis.Steady()
      ensures this.synthesis == synthesis && this.hasQueue == hasQueue
      ensures Seen() == NOTHING && QueueState() == EMPTY_QUEUE
      ensures Consistent() && (hasQueue ==> Feeding())
    {
      this.synthesis, this.hasQueue := synthesis, hasQueue;
      currentAuths, runtimeAuths, fileAuthsByPath, lastAuthHashes := map[], map[], map[], map[];
      pendingUpdates, pendingOrder, batch, sent, dispatched := map[], [], [], [], [];
    }

    // ----- the queue -----

    method EnqueueUpdate(update: Update, ts: int)
      requires OrderOk(QueueState())
      modifies this`pendingUpdates, this`pendingOrder, this`dispatched
      ensures QueueState() == Enqueue(old(QueueState()), update, ts) && OrderOk(QueueState())
    {
      EnqueueOrderOk(QueueState(), update, ts);
      var key := KeyOf(update, ts);
      if key !in pendingUpdates {
        pendingOrder := pendingOrder + [key];
      }
      pendingUpdates := pendingUpdates[key := update];
      dispatched := dispatched + [update];
    }

    method DispatchAuthUpdates(updates: seq<Update>, now: int)
      requires OrderOk(QueueState())
      modifies this`pendingUpdates, this`pendingOrder, this`dispatched
      ensures QueueState() == if hasQueue then EnqueueAll(old(QueueState()), updates, now) else old(QueueState())
      ensures OrderOk(QueueState())
    {
      if |updates| == 0 || !hasQueue {
        return;
      }
      for i := 0 to |updates|
        invariant QueueState() == EnqueueAll(old(QueueState()), updates[..i], now) && OrderOk(QueueState())
      {
        assert updates[..i + 1][..i] == updates[..i];
        EnqueueUpdate(updates[i], now + i);
      }
      assert updates[..|updates|] == updates;
    }

    /** The dispatch loop takes the next batch once the previous one is delivered; false while nothing waits. */
    method NextPendingBatch() returns (ok: bool)
      requires batch == [] && OrderOk(QueueState())
      modifies this`pendingUpdates, this`pendingOrder, this`batch
      ensures ok <==> old(pendingOrder) != []
      ensures QueueState() == if ok then Drain(old(QueueState())) else old(QueueState())
      ensures OrderOk(QueueState()) && pendingUpdates == map[]
      ensures old(QueueOk(QueueState())) ==> QueueOk(QueueState())
    {
      ghost var q := QueueState();
      if pendingOrder == [] {
        return false;
      }
      var order := pendingOrder;
      for i := 0 to |order|
        invariant pendingOrder == order && sent == q.sent && dispatched == q.dispatched
        invariant batch == Waiting(q)[..i]
        invariant pendingUpdates == q.pending - (set k | k in order[..i])
      {
        var key := order[i];
        assert key !in order[..i];
        batch := batch + [pendingUpdates[key]];
        pendingUpdates := pendingUpdates - {key};
        assert order[..i + 1] == order[..i] + [key];
      }
      assert order[..|order|] == order;
      pendingOrder := [];
      if QueueOk(q) {
        DrainOk(q);
      }
      return true;
    }

    method DeliverOne() returns (update: Update)
      requires batch != []
      modifies this`batch, this`sent
      ensures update == old(batch)[0] && QueueState() == AuthUpdates.DeliverOne(old(QueueState()))
      ensures old(QueueOk(QueueState())) ==> QueueOk(QueueState())
    {
      ghost var q := QueueState();
      update := batch[0];
      batch := batch[1..];
      sent := sent + [update];
      if QueueOk(q) {
        DeliverOk(q);
      }
    }

    // ----- updates -----

    /** The full refresh replaces all entries. */
    method PrepareAuthUpdates(auths: seq<Option<Auth>>, force: bool) returns (updates: seq<Update>)
      modifies this`currentAuths
      requires KeyedAuths(currentAuths)
      ensures currentAuths == NewState(auths) && KeyedAuths(currentAuths)
      ensures if hasQueue then IsDiff(updates, old(currentAuths), old(currentAuths).Keys, currentAuths, force)
        else updates == []
    {
      var newState: Auths := map[];
      for i := 0 to |auths|
        invariant newState == NewState(auths[..i])
      {
        assert auths[..i + 1][..i] == auths[..i];
        if auths[i].Some? && auths[i].value.id != "" {
          newState := newState[auths[i].value.id := auths[i].value];
        }
      }
      assert auths[..|auths|] == auths;
      NewStateKeyed(auths);
      updates := [];
      if hasQueue {
        updates := Diff(currentAuths, newState, force);
      }
      currentAuths := newState;
    }

    method PutOffered(id: string, newAuth: Auth) returns (update: Option<Update>)
      modifies this`currentAuths
      ensures update == UpdateAt(old(currentAuths), {}, map[id := newAuth], false, id)
      ensures currentAuths == Put(old(currentAuths), id, PatchedAt(old(currentAuths), {}, map[id := newAuth], id))
    {
      update := None;
      if id !in currentAuths {
        currentAuths := currentAuths[id := newAuth];
        update := Some(Update(Add, id, Some(newAuth)));
      } else if !AuthEqual(currentAuths[id], newAuth) {
        currentAuths := currentAuths[id := newAuth];
        update := Some(Update(Modify, id, Some(newAuth)));
      }
    }

    method PutAll(oldIDs: set<string>, newByID: Auths) returns (updates: seq<Update>, ghost visited: seq<string>)
      modifies this`currentAuths
      ensures Visits(visited, newByID.Keys, {})
      ensures updates == Gathered(old(currentAuths), oldIDs, newByID, false, visited)
      ensures currentAuths == PutEach(old(currentAuths), oldIDs, newByID, visited)
    {
      ghost var cur := currentAuths;
      updates, visited := [], [];
      var todo := newByID.Keys;
      while todo != {}
        invariant Visits(visited, newByID.Keys, todo)
        invariant updates == Gathered(cur, oldIDs, newByID, false, visited)
        invariant currentAuths == PutEach(cur, oldIDs, newByID, visited)
        decreases |todo|
      {
        var id :| id in todo;
        VisitsOneMore(visited, newByID.Keys, todo, id);
        OneMore(cur, oldIDs, newByID, false, visited, id);
        PutEachAt(cur, oldIDs, newByID, visited, id);
        AloneAt(currentAuths, cur, oldIDs, newByID, id);
        var update := PutOffered(id, newByID[id]);
        updates := updates + Maybe(update);
        todo, visited := todo - {id}, visited + [id];
      }
    }

    method DropRest(ghost cur: Auths, oldIDs: set<string>, newByID: Auths, before: seq<Update>, ghost seen: seq<string>)
        returns (updates: seq<Update>, ghost visited: seq<string>)
      requires Visits(seen, newByID.Keys, {})
      requires before == Gathered(cur, oldIDs, newByID, false, seen)
      requires currentAuths == PutEach(cur, oldIDs, newByID, seen)
      modifies this`currentAuths
      ensures Visits(visited, oldIDs + newByID.Keys, {})
      ensures updates == Gathered(cur, oldIDs, newByID, false, visited)
      ensures currentAuths == PutEach(cur, oldIDs, newByID, visited)
    {
      updates, visited := before, seen;
      var todo := oldIDs - newByID.Keys;
      VisitsMore(seen, newByID.Keys, oldIDs);
      while todo != {}
        invariant todo <= oldIDs - newByID.Keys && Visits(visited, oldIDs + newByID.Keys, todo)
        invariant updates == Gathered(cur, oldIDs, newByID, false, visited)
        invariant currentAuths == PutEach(cur, oldIDs, newByID, visited)
        decreases |todo|
      {
        var id :| id in todo;
        VisitsOneMore(visited, oldIDs + newByID.Keys, todo, id);
        OneMore(cur, oldIDs, newByID, false, visited, id);
        currentAuths := currentAuths - {id};
        updates := updates + [Update(Delete, id, None)];
        todo, visited := todo - {id}, visited + [id];
      }
    }

    /** What one file contributes now, put in for what it contributed before; both in any order. */
    method ComputePerPathUpdates(oldIDs: set<string>, newByID: Auths) returns (updates: seq<Update>)
      requires KeyedAuths(currentAuths) && KeyedAuths(newByID) && "" !in oldIDs
      modifies this`currentAuths
      ensures currentAuths == Patched(old(currentAuths), oldIDs, newByID) && KeyedAuths(currentAuths)
      ensures IsDiff(updates, old(currentAuths), oldIDs, newByID, false)
    {
      ghost var cur, visited := currentAuths, [];
      updates, visited := PutAll(oldIDs, newByID);
      updates, visited := DropRest(cur, oldIDs, newByID, updates, visited);
      GatheredCollects(cur, oldIDs, newByID, false, visited, oldIDs + newByID.Keys);
      PutAllPatches(cur, oldIDs, newByID, visited);
      PatchedKeyed(cur, oldIDs, newByID);
    }

    // ----- changes -----

    /** Puts what a file contributes in for what it contributed, and passes the difference on. */
    method ReplaceFile(path: string, offered: Auths, ts: int) returns (ghost updates: seq<Update>)
      requires OrderOk(QueueState()) && KeyedAuths(currentAuths) && KeyedAuths(offered)
      requires "" !in Indexed(fileAuthsByPath, path)
      modifies this`currentAuths, this`pendingUpdates, this`pendingOrder, this`dispatched
      ensures currentAuths == Patched(old(currentAuths), Indexed(fileAuthsByPath, path), offered)
      ensures IsDiff(updates, old(currentAuths), Indexed(fileAuthsByPath, path), offered, false)
      ensures QueueState() == if hasQueue then EnqueueAll(old(QueueState()), updates, ts) else old(QueueState())
      ensures OrderOk(QueueState())
    {
      hide IsDiff, Patched, OrderOk, EnqueueAll;
      var us := ComputePerPathUpdates(Indexed(fileAuthsByPath, path), offered);
      DispatchAuthUpdates(us, ts);
      updates := us;
    }

    method TakeIn(path: string, data: string, now: int, ts: int) returns (ghost updates: seq<Update>)
      requires Consistent() && Accepts(lastAuthHashes, path, Some(data), true)
      modifies this
      ensures Seen() == Changed(synthesis, old(Seen()), Written(path, Some(data), true, now))
      ensures Sends(synthesis, old(Seen()), Written(path, Some(data), true, now), updates)
      ensures QueueState() == if hasQueue then EnqueueAll(old(QueueState()), updates, ts) else old(QueueState())
      ensures OrderOk(QueueState())
    {
      hide IsDiff, Patched, OrderOk, EnqueueAll;
      IndexedNonEmpty(synthesis, lastAuthHashes, fileAuthsByPath, path);
      var newByID := AuthSliceToMap(synthesis.file(path, data, now));
      updates := ReplaceFile(path, newByID, ts);
      lastAuthHashes := lastAuthHashes[path := data];
      if newByID.Keys != {} {
        fileAuthsByPath := fileAuthsByPath[path := newByID.Keys];
      } else {
        fileAuthsByPath := fileAuthsByPath - {path};
      }
    }

    method AddOrUpdateClient(path: string, data: Option<string>, parses: bool, now: int, ts: int)
      requires Consistent()
      modifies this
      ensures Seen() == Changed(synthesis, old(Seen()), Written(path, data, parses, now))
      ensures hasQueue ==> Next(synthesis, old(Now()), Single(Written(path, data, parses, now), ts), Now())
      ensures Consistent() && (old(Feeding()) ==> Feeding())
      ensures !hasQueue || !Accepts(old(lastAuthHashes), path, data, parses) ==> QueueState() == old(QueueState())
      ensures data.Some? && data.value != "" && parses ==>
        Reread(old(Seen()), path, data.value, ByID(synthesis.file(path, data.value, now)), Seen())
      ensures !(data.Some? && data.value != "" && parses) ==> Seen() == old(Seen())
    {
      if data.Some? && data.value != "" && parses { WriteIsRead(synthesis, Seen(), path, data.value, now); }
      hide IsDiff, Sound, OrderOk, Feeds, Reread;
      ghost var before := Now();
      ghost var updates: seq<Update> := [];
      assert EnqueueAll(QueueState(), updates, ts) == QueueState();
      if data == None || data.value == "" || !parses {
        assert Sends(synthesis, before.view, Written(path, data, parses, now), updates);
        return;
      }
      if path in lastAuthHashes && lastAuthHashes[path] == data.value {
        assert Sends(synthesis, before.view, Written(path, data, parses, now), updates);
        return;
      }
      ChangeKeepsSound(synthesis, Seen(), Written(path, data, parses, now));
      updates := TakeIn(path, data.value, now, ts);
      ChangeFeeds(before, Written(path, data, parses, now), updates, ts);
    }

    ghost method ChangeFeeds(before: Moment, c: Change, updates: seq<Update>, ts: int)
      requires Sound(synthesis, before.view) && Seen() == Changed(synthesis, before.view, c)
      requires Sends(synthesis, before.view, c, updates) && (c.Announced? ==> Keyed(c.update))
      requires QueueState() == if hasQueue then EnqueueAll(before.queue, updates, ts) else before.queue
      ensures hasQueue && Feeds(before.queue, before.view.current) ==> Feeding()
    {
      hide Sound, Sends, Changed, Feeds, EnqueueAll;
      if hasQueue && Feeds(before.queue, before.view.current) {
        SinglesFeed(synthesis, before.view, before.queue, c, updates, ts);
      }
    }

    method RemoveClient(path: string, ts: int)
      requires Consistent()
      modifies this
      ensures Seen() == Changed(synthesis, old(Seen()), Removed(path))
      ensures hasQueue ==> Next(synthesis, old(Now()), Single(Removed(path), ts), Now())
      ensures Consistent() && (old(Feeding()) ==> Feeding())
      ensures !hasQueue ==> QueueState() == old(QueueState())
      ensures Forgotten(old(Seen()), path, Seen())
    {
      RemovalForgets(synthesis, Seen(), path);
      hide IsDiff, OrderOk, Feeds, Patched, EnqueueAll, Forgotten;
      ghost var before := Now();
      ChangeKeepsSound(synthesis, Seen(), Removed(path));
      IndexedNonEmpty(synthesis, lastAuthHashes, fileAuthsByPath, path);
      ghost var updates := ReplaceFile(path, map[], ts);
      lastAuthHashes, fileAuthsByPath := lastAuthHashes - {path}, fileAuthsByPath - {path};
      ChangeFeeds(before, Removed(path), updates, ts);
    }

    method TakeUpdate(update: Update)
      modifies this`runtimeAuths, this`currentAuths
      ensures runtimeAuths == Apply(old(runtimeAuths), update)
      ensures currentAuths == Apply(old(currentAuths), update)
    {
      match update.action {
        case Add | Modify =>
          if update.auth.Some? && update.auth.value.id != "" {
            var id := update.auth.value.id;
            runtimeAuths := runtimeAuths[id := update.auth.value];
            currentAuths := currentAuths[id := update.auth.value];
          }
        case Delete =>
          var id := update.id;
          if id == "" && update.auth.Some? {
            id := update.auth.value.id;
          }
          if id != "" {
            runtimeAuths := runtimeAuths - {id};
            currentAuths := currentAuths - {id};
          }
      }
    }

    method DispatchRuntimeAuthUpdate(update: Update, ts: int) returns (queued: bool)
      requires Consistent()
      modifies this
      ensures Seen() == Changed(synthesis, old(Seen()), Announced(update))
      ensures runtimeAuths == Announcement(old(runtimeAuths), update)
      ensures currentAuths == Announcement(old(currentAuths), update)
      ensures queued == hasQueue
      ensures QueueState() == if hasQueue then EnqueueAll(old(QueueState()), [update], ts) else old(QueueState())
      ensures hasQueue ==> Next(synthesis, old(Now()), Single(Announced(update), ts), Now())
      ensures Consistent() && (old(Feeding()) && Keyed(update) ==> Feeding())
    {
      ApplyExactly(runtimeAuths, update);
      ApplyExactly(currentAuths, update);
      hide Sound, OrderOk, Feeds, Apply, Announcement, EnqueueAll, Keyed;
      ghost var before := Now();
      ChangeKeepsSound(synthesis, Seen(), Announced(update));
      TakeUpdate(update);
      DispatchAuthUpdates([update], ts);
      assert Sends(synthesis, before.view, Announced(update), [update]);
      if Keyed(update) {
        ChangeFeeds(before, Announced(update), [update], ts);
      }
      return hasQueue;
    }

    // ----- the full refresh -----

    method ReplaceAll(auths: seq<Option<Auth>>, force: bool, ts: int) returns (ghost updates: seq<Update>)
      requires OrderOk(QueueState()) && KeyedAuths(currentAuths)
      modifies this`currentAuths, this`pendingUpdates, this`pendingOrder, this`dispatched
      ensures currentAuths == NewState(auths) && KeyedAuths(currentAuths)
      ensures hasQueue ==> IsDiff(updates, old(currentAuths), old(currentAuths).Keys, currentAuths, force)
      ensures QueueState() == if hasQueue then EnqueueAll(old(QueueState()), updates, ts) else old(QueueState())
      ensures OrderOk(QueueState())
      ensures !hasQueue || (!force && Similar(old(currentAuths), currentAuths)) ==> QueueState() == old(QueueState())
    {
      hide IsDiff, OrderOk, NewState;
      ghost var cur := currentAuths;
      var us := PrepareAuthUpdates(auths, force);
      DispatchAuthUpdates(us, ts);
      if hasQueue && !force && Similar(cur, currentAuths) {
        NoNews(us, cur, currentAuths);
      }
      updates := us;
    }

    /** Leaves the entries in step with what it reads. Where they were in step with the same files
        already, nothing changes up to authEqual and, without force, nothing is sent. */
    method RefreshAuthState(es: seq<Entry>, force: bool, now: int, ts: int)
      requires Consistent() && DistinctPaths(es)
      modifies this`currentAuths, this`pendingUpdates, this`pendingOrder, this`dispatched
      ensures batch == old(batch) && sent == old(sent)
      ensures hasQueue ==> Next(synthesis, old(Now()), Refresh(es, false, force, now, ts), Now())
      ensures Consistent() && (old(Feeding()) ==> Feeding())
      ensures Disjoint(Offers(synthesis, Origins(Contents(es), runtimeAuths))) ==>
        Reflects(Offers(synthesis, Origins(Contents(es), runtimeAuths)), currentAuths)
      ensures old(InStep(synthesis, Seen())) && Contents(es) == lastAuthHashes ==>
        Similar(old(currentAuths), currentAuths) && (!force ==> QueueState() == old(QueueState()))
      ensures !hasQueue ==> QueueState() == old(QueueState())
    {
      hide IsDiff, OrderOk, Feeds, NewState, EnqueueAll, Reflects, Disjoint, Lists, InStep;
      ghost var before := Now();
      var files := SnapshotFileAuths(synthesis, es, now);
      var listed := ListAuths(runtimeAuths);
      if InStep(synthesis, before.view) && Contents(es) == lastAuthHashes {
        RefreshIsNoChange(synthesis, before.view, es, listed, now);
      }
      if Disjoint(Offers(synthesis, Origins(Contents(es), runtimeAuths))) {
        RefreshReflects(synthesis, es, runtimeAuths, listed, now);
      }
      ghost var updates := ReplaceAll(synthesis.config(now) + files + listed, force, ts);
      ghost var e := Refresh(es, false, force, now, ts);
      if hasQueue {
        assert Refreshes(synthesis, Before(synthesis, before.view, e), e, listed, updates, Seen());
        if Feeds(before.queue, before.view.current) {
          RefreshFeeds(before.queue, updates, ts, before.view.current, currentAuths, force);
        }
      }
    }

    /** Rebuilds hashes and index from the auth directory. */
    method RescanAuthFiles(es: seq<Entry>, now: int)
      requires Consistent() && DistinctPaths(es)
      modifies this`lastAuthHashes, this`fileAuthsByPath
      ensures Consistent() && lastAuthHashes == Contents(es) && fileAuthsByPath == Scanned(synthesis, es, now)
    {
      lastAuthHashes, fileAuthsByPath := map[], map[];
      for i := 0 to |es|
        invariant lastAuthHashes == Contents(es[..i]) && fileAuthsByPath == Scanned(synthesis, es[..i], now)
      {
        assert es[..i + 1][..i] == es[..i];
        if Readable(es[i]) {
          var path, data := es[i].path, es[i].data.value;
          var generated := AuthSliceToMap(synthesis.file(path, data, now));
          lastAuthHashes := lastAuthHashes[path := data];
          if generated.Keys != {} {
            fileAuthsByPath := fileAuthsByPath[path := generated.Keys];
          }
        }
      }
      assert es[..|es|] == es;
      ScannedOk(synthesis, es, now);
    }

    /** A reload refreshes the entries; with a rescan of the auth directory it brings everything in step. */
    method ReloadClients(es: seq<Entry>, rescan: bool, force: bool, now: int, ts: int)
      requires Consistent() && DistinctPaths(es)
      modifies this
      ensures hasQueue ==> Next(synthesis, old(Now()), Refresh(es, rescan, force, now, ts), Now())
      ensures runtimeAuths == old(runtimeAuths)
      ensures lastAuthHashes == if rescan then Contents(es) else old(lastAuthHashes)
      ensures !rescan ==> fileAuthsByPath == old(fileAuthsByPath)
      ensures Consistent() && (old(Feeding()) ==> Feeding())
      ensures rescan && Disjoint(Offers(synthesis, Seen().Sources())) ==> InStep(synthesis, Seen())
      ensures !hasQueue ==> QueueState() == old(QueueState())
    {
      hide Sound, OrderOk, Feeds, Refreshes, Reflects, Disjoint;
      if rescan {
        RescanAuthFiles(es, now);
      }
      ghost var between := Now();
      RefreshAuthState(es, force, now, ts);
      if hasQueue && rescan {
        RescanFirst(synthesis, old(Now()), between, es, force, now, ts, Now());
      }
    }
  }

  /** A rescan and a refresh are a refresh with a rescan. */
  lemma RescanFirst(z: Synthesis, a: Moment, between: Moment, es: seq<Entry>, force: bool, now: int, ts: int, b: Moment)
    requires between == Moment(Rescanned(z, a.view, es, now), a.queue)
    requires Next(z, between, Refresh(es, false, force, now, ts), b)
    ensures Next(z, a, Refresh(es, true, force, now, ts), b)
  {
    hide IsDiff, Lists;
    var e, e' := Refresh(es, false, force, now, ts), Refresh(es, true, force, now, ts);
    var listed, us :| Refreshes(z, Before(z, between.view, e), e, listed, us, b.view) &&
      b.queue == EnqueueAll(between.queue, us, ts);
    assert Refreshes(z, Before(z, a.view, e'), e', listed, us, b.view);
  }

  lemma AloneAt(now: Auths, cur: Auths, gone: set<string>, offered: Auths, id: string)
    requires id in offered && Lookup(now, id) == Lookup(cur, id)
    ensures UpdateAt(now, {}, map[id := offered[id]], false, id) == UpdateAt(cur, gone, offered, false, id)
    ensures PatchedAt(now, {}, map[id := offered[id]], id) == PatchedAt(cur, gone, offered, id)
  {
    assert id in now <==> id in cur;
  }

  method NoteOffered(cur: Auths, newState: Auths, force: bool, id: string) returns (update: Option<Update>)
    requires id in newState
    ensures update == UpdateAt(cur, cur.Keys, newState, force, id)
  {
    update := None;
    if id !in cur {
      update := Some(Update(Add, id, Some(newState[id])));
    } else if force || !AuthEqual(cur[id], newState[id]) {
      update := Some(Update(Modify, id, Some(newState[id])));
    }
  }

  /** The updates from one collection of entries to another, in any order of both. */
  method Diff(cur: Auths, newState: Auths, force: bool) returns (updates: seq<Update>)
    requires KeyedAuths(cur) && KeyedAuths(newState)
    ensures IsDiff(updates, cur, cur.Keys, newState, force)
  {
    updates := [];
    ghost var visited := [];
    var todo := newState.Keys;
    while todo != {}
      invariant Visits(visited, newState.Keys, todo)
      invariant updates == Gathered(cur, cur.Keys, newState, force, visited)
      decreases |todo|
    {
      var id :| id in todo;
      VisitsOneMore(visited, newState.Keys, todo, id);
      OneMore(cur, cur.Keys, newState, force, visited, id);
      var update := NoteOffered(cur, newState, force, id);
      updates := updates + Maybe(update);
      todo, visited := todo - {id}, visited + [id];
    }
    updates := DiffRest(cur, newState, force, updates, visited);
  }

  method DiffRest(cur: Auths, newState: Auths, force: bool, before: seq<Update>,
          ghost seen: seq<string>) returns (updates: seq<Update>)
    requires KeyedAuths(cur) && KeyedAuths(newState)
    requires Visits(seen, newState.Keys, {})
    requires before == Gathered(cur, cur.Keys, newState, force, seen)
    ensures IsDiff(updates, cur, cur.Keys, newState, force)
  {
    updates := before;
    ghost var visited := seen;
    var todo := cur.Keys - newState.Keys;
    VisitsMore(seen, newState.Keys, cur.Keys);
    while todo != {}
      invariant todo <= cur.Keys - newState.Keys && Visits(visited, cur.Keys + newState.Keys, todo)
      invariant updates == Gathered(cur, cur.Keys, newState, force, visited)
      decreases |todo|
    {
      var id :| id in todo;
      VisitsOneMore(visited, cur.Keys + newState.Keys, todo, id);
      OneMore(cur, cur.Keys, newState, force, visited, id);
      updates := updates + [Update(Delete, id, None)];
      todo, visited := todo - {id}, visited + [id];
    }
    GatheredCollects(cur, cur.Keys, newState, force, visited, cur.Keys + newState.Keys);
  }
}
