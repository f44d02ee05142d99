/** Runs of single changes - a file written or removed, an auth announced by the running program - and why
    they leave the watcher where a full refresh would. */
module AuthRuns {
  import opened Collections
  import opened Text
  import opened AuthUpdates
  import opened AuthSources
  import opened AuthDiff

  /** The entries, what each file contributed to them, the contents last accepted, and the run-time auths. */
  datatype View = View(current: Auths, index: Index, files: map<string, string>, runtime: Auths) {
    function Sources(): Origins {
      Origins(files, runtime)
    }
  }

  const NOTHING := View(map[], map[], map[], map[])

  datatype Change =
    | Written(path: string, data: Option<string>, parses: bool, now: int)
    | Removed(path: string)
    | Announced(update: Update)

  /** A file's content is taken in unless it is unreadable, empty, malformed or known already. */
  predicate Accepts(files: map<string, string>, path: string, data: Option<string>, parses: bool) {
    data.Some? && data.value != "" && parses && !(path in files && files[path] == data.value)
  }

  function Changed(z: Synthesis, v: View, c: Change): View {
    match c
    case Written(path, data, parses, now) =>
      if !Accepts(v.files, path, data, parses) then v
      else
        var offered := ByID(z.file(path, data.value, now));
        View(Patched(v.current, Indexed(v.index, path), offered), Reindexed(v.index, path, offered.Keys),
             v.files[path := data.value], v.runtime)
    case Removed(path) =>
      View(Patched(v.current, Indexed(v.index, path), map[]), v.index - {path}, v.files - {path}, v.runtime)
    case Announced(u) =>
      v.(current := Apply(v.current, u), runtime := Apply(v.runtime, u))
  }

  ghost predicate Sound(z: Synthesis, v: View) {
    KeyedAuths(v.current) && KeyedAuths(v.runtime) && IndexOk(z, v.files, v.index)
  }

  /** The entries are exactly what the sources offer, and no two sources offer the same ID. */
  ghost predicate InStep(z: Synthesis, v: View) {
    Reflects(Offers(z, v.Sources()), v.current) && Disjoint(Offers(z, v.Sources()))
  }

  /** The sources keep apart: after the change too no ID has two sources, and no source but the running
      program loses an entry to a deletion at run time. */
  ghost predicate Apart(z: Synthesis, v: View, c: Change) {
    && Disjoint(Offers(z, Changed(z, v, c).Sources()))
    && (c.Announced? && c.update.action == Delete ==>
          forall s :: s != Runtime ==> Target(c.update) !in Offers(z, v.Sources())(s))
  }

  lemma ContributionKeyed(z: Synthesis, files: map<string, string>, path: string)
    ensures KeyedAuths(Contribution(z, files, path))
  {
    if path in files { ByIDKeyed(z.file(path, files[path], 0)); }
  }

  lemma ByIDKeyed(auths: seq<Option<Auth>>)
    ensures KeyedAuths(ByID(auths))
  {
    forall id | id in ByID(auths) ensures ByID(auths)[id].id == id != "" {
      ByIDKeys(auths, id);
    }
  }

  lemma NewStateKeyed(auths: seq<Option<Auth>>)
    ensures KeyedAuths(NewState(auths))
  {
    forall id | id in NewState(auths) ensures NewState(auths)[id].id == id != "" {
      NewStateKeys(auths, id);
    }
  }

  lemma IndexedNonEmpty(z: Synthesis, files: map<string, string>, index: Index, path: string)
    requires IndexOk(z, files, index)
    ensures "" !in Indexed(index, path)
  {
    ContributionKeyed(z, files, path);
  }

  lemma ChangeKeepsSound(z: Synthesis, v: View, c: Change)
    requires z.Steady() && Sound(z, v)
    ensures Sound(z, Changed(z, v, c))
  {
    match c
    case Written(path, data, parses, now) =>
      if Accepts(v.files, path, data, parses) {
        ByIDKeyed(z.file(path, data.value, now));
        ReindexedOk(z, v.files, v.index, path, data.value, now);
        PatchedKeyed(v.current, Indexed(v.index, path), ByID(z.file(path, data.value, now)));
      }
    case Removed(path) =>
      UnindexedOk(z, v.files, v.index, path);
      PatchedKeyed(v.current, Indexed(v.index, path), map[]);
    case Announced(u) =>
      ApplyKeepsKeyed(v.current, u);
      ApplyKeepsKeyed(v.runtime, u);
  }

  lemma ChangeKeepsStep(z: Synthesis, v: View, c: Change)
    requires z.Steady() && Sound(z, v) && InStep(z, v) && Apart(z, v, c)
    ensures InStep(z, Changed(z, v, c))
  {
    hide Sound, Reflects, Disjoint, IndexOk, KeyedAuths, Patched, Similar;
    match c
    case Written(path, data, parses, now) =>
      if Accepts(v.files, path, data, parses) {
        FileSwaps(z, v, path, v.files[path := data.value], ByID(z.file(path, data.value, now)));
      }
    case Removed(path) => FileSwaps(z, v, path, v.files - {path}, map[]);
    case Announced(u) => RuntimeReflects(z, v.Sources(), v.current, u);
  }

  lemma FileSwaps(z: Synthesis, v: View, path: string, files: map<string, string>, offered: Auths)
    requires Sound(z, v) && InStep(z, v) && Disjoint(Offers(z, Origins(files, v.runtime)))
    requires files - {path} == v.files - {path} && Similar(offered, Contribution(z, files, path))
    ensures Reflects(Offers(z, Origins(files, v.runtime)), Patched(v.current, Indexed(v.index, path), offered))
  {
    var f, g := Offers(z, v.Sources()), Offers(z, Origins(files, v.runtime));
    OtherFiles(z, v.files, files, v.runtime, path);
    assert Indexed(v.index, path) == Contribution(z, v.files, path).Keys;
    PatchedSwaps(v.current, Indexed(v.index, path), offered);
    SwapReflects(f, g, File(path), v.current, Patched(v.current, Indexed(v.index, path), offered), offered);
  }

  lemma OtherFiles(z: Synthesis, files: map<string, string>, files': map<string, string>, runtime: Auths, path: string)
    requires files' - {path} == files - {path}
    ensures SameBut(Offers(z, Origins(files, runtime)), Offers(z, Origins(files', runtime)), File(path))
  {
    forall p | p != path ensures Contribution(z, files, p) == Contribution(z, files', p) {
      assert p in files <==> p in files - {path};
      assert p in files' <==> p in files' - {path};
    }
  }

  // ----- runs -----

  /** The view after some changes, latest last. */
  function After(z: Synthesis, v: View, cs: seq<Change>): View {
    if cs == [] then v else Changed(z, After(z, v, cs[..|cs| - 1]), cs[|cs| - 1])
  }

  ghost predicate AllApart(z: Synthesis, v: View, cs: seq<Change>) {
    cs != [] ==> AllApart(z, v, cs[..|cs| - 1]) && Apart(z, After(z, v, cs[..|cs| - 1]), cs[|cs| - 1])
  }

  /** After any run of single changes each file is indexed with exactly the IDs it contributes, and the
      entries are, up to authEqual, what a full refresh would make of the same files and run-time auths. */
  lemma {:induction false} RunIsRefresh(z: Synthesis, v: View, cs: seq<Change>)
    requires z.Steady() && Sound(z, v) && InStep(z, v) && AllApart(z, v, cs)
    ensures var v' := After(z, v, cs);
      && Sound(z, v') && InStep(z, v')
      && forall es: seq<Entry>, listed, now ::
        DistinctPaths(es) && Contents(es) == v'.files && Lists(listed, v'.runtime) ==>
        Similar(v'.current, NewState(z.config(now) + FileAuths(z, es, now) + listed))
    decreases |cs|
  {
    var v' := After(z, v, cs);
    if cs == [] {
    } else {
      RunIsRefresh(z, v, cs[..|cs| - 1]);
      ChangeKeepsSound(z, After(z, v, cs[..|cs| - 1]), cs[|cs| - 1]);
      ChangeKeepsStep(z, After(z, v, cs[..|cs| - 1]), cs[|cs| - 1]);
    }
    forall es: seq<Entry>, listed, now |
      DistinctPaths(es) && Contents(es) == v'.files && Lists(listed, v'.runtime)
      ensures Similar(v'.current, NewState(z.config(now) + FileAuths(z, es, now) + listed))
    {
      RefreshIsNoChange(z, v', es, listed, now);
    }
  }

  lemma RefreshIsNoChange(z: Synthesis, v: View, es: seq<Entry>, listed: seq<Option<Auth>>, now: int)
    requires z.Steady() && Sound(z, v) && InStep(z, v)
    requires DistinctPaths(es) && Contents(es) == v.files && Lists(listed, v.runtime)
    ensures Similar(v.current, NewState(z.config(now) + FileAuths(z, es, now) + listed))
  {
    RefreshReflects(z, es, v.runtime, listed, now);
    ReflectionsSimilar(Offers(z, v.Sources()), v.current, NewState(z.config(now) + FileAuths(z, es, now) + listed));
  }

  /** The files as a full refresh finds them after a write: it passes over unreadable and empty ones. */
  function FilesAfter(files: map<string, string>, path: string, data: Option<string>): map<string, string> {
    if data.Some? && data.value != "" then files[path := data.value] else files - {path}
  }

  /** Content that is not taken in - unreadable, empty, malformed or known - changes nothing, and leaves the
      entries where a full refresh of the changed files would exactly when the file offers what it did. */
  lemma IgnoredWrite(z: Synthesis, v: View, path: string, data: Option<string>, parses: bool, now: int)
    requires InStep(z, v) && !Accepts(v.files, path, data, parses)
    requires Disjoint(Offers(z, Origins(FilesAfter(v.files, path, data), v.runtime)))
    ensures Changed(z, v, Written(path, data, parses, now)) == v
    ensures Reflects(Offers(z, Origins(FilesAfter(v.files, path, data), v.runtime)), v.current) <==>
      if data.Some? && data.value != "" then Similar(ByID(z.file(path, data.value, 0)), Contribution(z, v.files, path))
      else Contribution(z, v.files, path) == map[]
  {
    var files := FilesAfter(v.files, path, data);
    assert files - {path} == v.files - {path};
    OtherFiles(z, v.files, files, v.runtime, path);
    IgnoredChange(Offers(z, v.Sources()), Offers(z, Origins(files, v.runtime)), File(path), v.current);
    assert Similar(map[], Contribution(z, v.files, path)) <==> Contribution(z, v.files, path) == map[];
  }

  // ----- what a change does, on its own terms -----

  predicate SameBody(a: Auth, b: Auth) {
    a.id == b.id && a.body == b.body
  }

  /** What a file offers stands for what it offered before; an entry with the same body is not touched, and
      neither are the entries that the file has nothing to do with. */
  ghost predicate Replaced(cur: Auths, before: set<string>, offered: Auths, cur': Auths) {
    && (forall id :: id in offered ==> id in cur')
    && (forall id :: id in offered ==>
          cur'[id] == if id in cur && SameBody(cur[id], offered[id]) then cur[id] else offered[id])
    && (forall id :: id in before && id !in offered ==> id !in cur')
    && (forall id :: id !in before && id !in offered ==> Lookup(cur', id) == Lookup(cur, id))
  }

  lemma PatchedReplaces(cur: Auths, gone: set<string>, offered: Auths)
    ensures Replaced(cur, gone, offered, Patched(cur, gone, offered))
  {
    forall id ensures Lookup(Patched(cur, gone, offered), id) == PatchedAt(cur, gone, offered, id) {
      PatchedLookup(cur, gone, offered, id);
    }
  }

  /** The content is known now; unless it was before, the file is indexed with exactly the IDs it offers, and
      what it offers stands for what it offered. */
  ghost predicate Reread(v: View, path: string, data: string, offered: Auths, v': View) {
    && path in v'.files && v'.files[path] == data
    && v'.files - {path} == v.files - {path} && v'.runtime == v.runtime && v'.index - {path} == v.index - {path}
    && if path in v.files && v.files[path] == data then v' == v
       else
         && (path in v'.index <==> offered.Keys != {})
         && (path in v'.index ==> v'.index[path] == offered.Keys)
         && Replaced(v.current, if path in v.index then v.index[path] else {}, offered, v'.current)
  }

  /** Readable, well-formed content that is not empty is always taken in. */
  lemma WriteIsRead(z: Synthesis, v: View, path: string, data: string, now: int)
    requires data != ""
    ensures Reread(v, path, data, ByID(z.file(path, data, now)), Changed(z, v, Written(path, Some(data), true, now)))
  {
    PatchedReplaces(v.current, Indexed(v.index, path), ByID(z.file(path, data, now)));
  }

  /** The file is forgotten, and with it all that it offered. */
  ghost predicate Forgotten(v: View, path: string, v': View) {
    && path !in v'.files && path !in v'.index
    && v'.files == v.files - {path} && v'.index == v.index - {path} && v'.runtime == v.runtime
    && Replaced(v.current, if path in v.index then v.index[path] else {}, map[], v'.current)
  }

  lemma RemovalForgets(z: Synthesis, v: View, path: string)
    ensures Forgotten(v, path, Changed(z, v, Removed(path)))
  {
    PatchedReplaces(v.current, Indexed(v.index, path), map[]);
  }

  /** The contents of the files after a change, as far as they can be used. */
  function Disk(files: map<string, string>, c: Change): map<string, string> {
    match c
    case Written(path, data, parses, _) =>
      if data.Some? && data.value != "" && parses then files[path := data.value] else files
    case Removed(path) => files - {path}
    case Announced(_) => files
  }

  /** The auths that the running program has announced and not deleted. */
  function AddedAtRunTime(runtime: Auths, c: Change): Auths {
    if c.Announced? then Announcement(runtime, c.update) else runtime
  }

  /** The watcher knows the files and run-time auths as they are. */
  lemma ChangeKnown(z: Synthesis, v: View, c: Change)
    ensures Changed(z, v, c).files == Disk(v.files, c)
    ensures Changed(z, v, c).runtime == AddedAtRunTime(v.runtime, c)
  {
    if c.Announced? { ApplyExactly(v.runtime, c.update); }
  }

  // ----- the consumer -----

  /** A consumer of all that was dispatched has the entries, and coalescing loses nothing. */
  ghost predicate Feeds(q: Queue, current: Auths) {
    QueueOk(q) && Similar(ApplyAll(map[], q.dispatched), current)
  }

  lemma DiffFeeds(q: Queue, us: seq<Update>, ts: int, cur: Auths, gone: set<string>, offered: Auths, force: bool)
    requires Feeds(q, cur) && IsDiff(us, cur, gone, offered, force) && KeyedAuths(offered)
    ensures Feeds(EnqueueAll(q, us, ts), Patched(cur, gone, offered))
  {
    EnqueueAllOk(q, us, ts);
    ApplyConcat(map[], q.dispatched, us);
    DiffLeads(us, ApplyAll(map[], q.dispatched), cur, gone, offered, force);
  }

  lemma RefreshFeeds(q: Queue, us: seq<Update>, ts: int, cur: Auths, offered: Auths, force: bool)
    requires Feeds(q, cur) && IsDiff(us, cur, cur.Keys, offered, force) && KeyedAuths(offered)
    ensures Feeds(EnqueueAll(q, us, ts), offered)
  {
    EnqueueAllOk(q, us, ts);
    ApplyConcat(map[], q.dispatched, us);
    RefreshLeads(us, ApplyAll(map[], q.dispatched), cur, offered, force);
  }

  lemma RuntimeFeeds(q: Queue, u: Update, ts: int, cur: Auths)
    requires Feeds(q, cur) && Keyed(u)
    ensures Feeds(EnqueueAll(q, [u], ts), Apply(cur, u))
  {
    EnqueueAllOk(q, [u], ts);
    ApplyMore(map[], q.dispatched, u);
    RuntimeLeads(ApplyAll(map[], q.dispatched), cur, u);
  }

  /** Whatever is still under way, a consumer starting from nothing ends with the current entries; with
      nothing waiting it has them already. */
  lemma ConsumerCatchesUp(q: Queue, current: Auths)
    requires Feeds(q, current)
    ensures Similar(ApplyAll(map[], q.sent + q.batch + Waiting(q)), current)
    ensures q.batch == [] && q.order == [] ==> Similar(ApplyAll(map[], q.sent), current)
  {
    assert ApplyAll(map[], q.sent + q.batch + Waiting(q)) == ApplyAll(map[], q.dispatched);
    if q.batch == [] && q.order == [] {
      assert q.sent + q.batch + Waiting(q) == q.sent;
    }
  }

  /** Without force a refresh that finds nothing new sends nothing. */
  lemma NoNews(us: seq<Update>, cur: Auths, offered: Auths)
    requires IsDiff(us, cur, cur.Keys, offered, false) && Similar(cur, offered)
    ensures us == []
  {
    if us != [] {
      DiffMinimal(us, cur, cur.Keys, offered, false, 0);
    }
  }

  // ----- the excepted cases exist -----

  /** A synthesis in which every file offers one auth with the same ID. */
  function OneAuth(): Synthesis {
    Synthesis(_ => [], (_, _, _) => [Some(Auth("a", "", 0))])
  }

  const ONE_FILE := View(map["a" := Auth("a", "", 0)], map["p" := {"a"}], map["p" := "x"], map[])

  lemma OneAuthOffers(s: Source)
    ensures Offers(OneAuth(), ONE_FILE.Sources())(s) == if s == File("p") then ONE_FILE.current else map[]
  {
    OneAuthByID();
  }

  lemma OneAuthByID()
    ensures ByID([Some(Auth("a", "", 0))]) == map["a" := Auth("a", "", 0)]
  {
    TrimOne('a');
    assert [Some(Auth("a", "", 0))][..0] == [];
  }

  lemma OneFileInStep()
    ensures InStep(OneAuth(), ONE_FILE)
  {
    var f := Offers(OneAuth(), ONE_FILE.Sources());
    forall s ensures f(s) == if s == File("p") then ONE_FILE.current else map[] {
      OneAuthOffers(s);
    }
    forall id | id in ONE_FILE.current ensures exists s :: id in f(s) {
      assert id in f(File("p"));
    }
  }

  /** A file that offered an auth and is emptied: the entry stays, and a refresh would drop it. */
  lemma EmptiedFileStale()
    ensures InStep(OneAuth(), ONE_FILE)
    ensures Changed(OneAuth(), ONE_FILE, Written("p", Some(""), true, 0)) == ONE_FILE
    ensures !Reflects(Offers(OneAuth(), Origins(map[], map[])), ONE_FILE.current)
  {
    OneFileInStep();
    forall s ensures Offers(OneAuth(), Origins(map[], map[]))(s) == map[] {
    }
    assert "a" in ONE_FILE.current;
  }

  /** The running program deletes the ID of a file's auth: the entry goes, and a refresh would bring it back. */
  lemma FileAuthDeleted()
    ensures InStep(OneAuth(), ONE_FILE)
    ensures var after := Changed(OneAuth(), ONE_FILE, Announced(Update(Delete, "a", None)));
      after.current == map[] && !InStep(OneAuth(), after)
  {
    OneFileInStep();
    OneAuthGone();
    var after := Changed(OneAuth(), ONE_FILE, Announced(Update(Delete, "a", None)));
    OneAuthOffers(File("p"));
    NotReflected(Offers(OneAuth(), after.Sources()), File("p"), "a", after.current);
  }

  lemma NotReflected(f: Offer, s: Source, id: string, current: Auths)
    requires id in f(s) && id !in current
    ensures !Reflects(f, current)
  {
  }

  lemma OneAuthGone()
    ensures var after := Changed(OneAuth(), ONE_FILE, Announced(Update(Delete, "a", None)));
      after.current == map[] && after.Sources() == ONE_FILE.Sources()
  {
    TrimOne('a');
    assert map["a" := Auth("a", "", 0)] - {"a"} == map[];
  }
}
