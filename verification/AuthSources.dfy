/** Where auth entries come from - the configuration, the auth files, the running program - and what it
    means for a collection of entries to be in step with them. */
module AuthSources {
  import opened Collections
  import opened Text
  import opened AuthUpdates

  // ----- from lists of auths to entries -----

  /** The full refresh drops missing auths and empty IDs; a later auth replaces an earlier one. */
  function NewState(auths: seq<Option<Auth>>): Auths {
    if auths == [] then map[]
    else
      var before, last := NewState(auths[..|auths| - 1]), auths[|auths| - 1];
      if last == None || last.value.id == "" then before else before[last.value.id := last.value]
  }

  /** The handling of a single file drops blank IDs too. */
  function ByID(auths: seq<Option<Auth>>): Auths {
    if auths == [] then map[]
    else
      var before, last := ByID(auths[..|auths| - 1]), auths[|auths| - 1];
      if last == None || TrimSpace(last.value.id) == "" then before else before[last.value.id := last.value]
  }

  /** No ID consists of blanks alone. */
  predicate NoBlanks(auths: seq<Option<Auth>>) {
    forall i :: 0 <= i < |auths| && auths[i].Some? && auths[i].value.id != "" ==> TrimSpace(auths[i].value.id) != ""
  }

  lemma {:induction false} NewStateKeys(auths: seq<Option<Auth>>, id: string)
    ensures id in NewState(auths) <==>
      id != "" && exists i :: 0 <= i < |auths| && auths[i].Some? && auths[i].value.id == id
    ensures id in NewState(auths) ==> NewState(auths)[id].id == id
  {
    if auths == [] {
    } else {
      NewStateKeys(auths[..|auths| - 1], id);
    }
  }

  lemma {:induction false} ByIDKeys(auths: seq<Option<Auth>>, id: string)
    ensures id in ByID(auths) <==>
      TrimSpace(id) != "" && exists i :: 0 <= i < |auths| && auths[i].Some? && auths[i].value.id == id
    ensures id in ByID(auths) ==>
      id in NewState(auths) && ByID(auths)[id] == NewState(auths)[id] && ByID(auths)[id].id == id != ""
  {
    NewStateKeys(auths, id);
    if auths == [] {
    } else {
      ByIDKeys(auths[..|auths| - 1], id);
    }
  }

  /** The two readings of a list agree exactly when no ID is blank without being empty. */
  lemma ReadingsAgree(auths: seq<Option<Auth>>)
    ensures ByID(auths) == NewState(auths) <==> NoBlanks(auths)
  {
    forall id ensures id in ByID(auths) ==> id in NewState(auths) && ByID(auths)[id] == NewState(auths)[id] {
      ByIDKeys(auths, id);
    }
    if NoBlanks(auths) {
      forall id | id in NewState(auths) ensures id in ByID(auths) {
        NewStateKeys(auths, id);
        ByIDKeys(auths, id);
      }
    } else {
      var i :| 0 <= i < |auths| && auths[i].Some? && auths[i].value.id != "" && TrimSpace(auths[i].value.id) == "";
      NewStateKeys(auths, auths[i].value.id);
      ByIDKeys(auths, auths[i].value.id);
    }
  }

  /** They differ on an ID that is a blank. */
  lemma BlankIDDiffers()
    ensures var auths := [Some(Auth(" ", "", 0))];
      ByID(auths) == map[] && NewState(auths) == map[" " := Auth(" ", "", 0)]
  {
    TrimBlank();
    assert [Some(Auth(" ", "", 0))][..0] == [];
  }

  lemma {:induction false} NewStateConcat(a: seq<Option<Auth>>, b: seq<Option<Auth>>)
    ensures NewState(a + b) == NewState(a) + NewState(b)
    decreases |b|
  {
    if b == [] {
      assert a + b == a;
    } else {
      assert (a + b)[..|a + b| - 1] == a + b[..|b| - 1];
      NewStateConcat(a, b[..|b| - 1]);
    }
  }

  // ----- sources -----

  /** What configuration and files are turned into. Both may depend on the time, but only in the stamps. */
  datatype Synthesis = Synthesis(config: int -> seq<Option<Auth>>, file: (string, string, int) -> seq<Option<Auth>>) {
    ghost predicate Steady() {
      && (forall now, later :: Similar(NewState(config(now)), NewState(config(later))))
      && (forall path, data, now :: NoBlanks(file(path, data, now)))
      && (forall path, data, now, later :: Similar(ByID(file(path, data, now)), ByID(file(path, data, later))))
    }
  }

  datatype Source = Config | File(path: string) | Runtime

  /** The files with their contents, and the auths added at run time. */
  datatype Origins = Origins(files: map<string, string>, runtime: Auths)

  type Offer = Source -> Auths

  function From(z: Synthesis, o: Origins, s: Source): Auths {
    match s
    case Config => NewState(z.config(0))
    case File(path) => Contribution(z, o.files, path)
    case Runtime => o.runtime
  }

  /** What each source offers. */
  function Offers(z: Synthesis, o: Origins): Offer {
    s => From(z, o, s)
  }

  /** No two sources offer the same ID. */
  ghost predicate Disjoint(f: Offer) {
    forall s, t, id :: s != t && id in f(s) ==> id !in f(t)
  }

  predicate KeyedAuths(m: Auths) {
    forall id :: id in m ==> m[id].id == id && id != ""
  }

  /** Exactly the entries offered by some source, each as its source has it, up to authEqual. */
  ghost predicate Reflects(f: Offer, m: Auths) {
    && (forall s, id :: id in f(s) ==> id in m && AuthEqual(m[id], f(s)[id]))
    && (forall id :: id in m ==> exists s :: id in f(s))
  }

  lemma ReflectionsSimilar(f: Offer, a: Auths, b: Auths)
    requires Reflects(f, a) && Reflects(f, b)
    ensures Similar(a, b)
  {
    forall id | id in a ensures id in b && AuthEqual(a[id], b[id]) {
      var s :| id in f(s);
    }
    forall id | id in b ensures id in a {
      var s :| id in f(s);
    }
  }

  /** `after` is `before` with the entries `gone` taken out and the entries of `offered` put in. */
  ghost predicate Swapped(before: Auths, after: Auths, gone: set<string>, offered: Auths) {
    && (forall id :: id in offered ==> id in after && AuthEqual(after[id], offered[id]))
    && (forall id :: id in gone && id !in offered ==> id !in after)
    && (forall id :: id !in gone && id !in offered ==> Lookup(after, id) == Lookup(before, id))
  }

  ghost predicate SameBut(f: Offer, g: Offer, s: Source) {
    forall t :: t != s ==> f(t) == g(t)
  }

  lemma SwapOffered(f: Offer, g: Offer, s: Source, before: Auths, after: Auths, offered: Auths, t: Source, id: string)
    requires Reflects(f, before) && Disjoint(f) && Disjoint(g) && SameBut(f, g, s)
    requires Similar(offered, g(s))
    requires Swapped(before, after, f(s).Keys, offered)
    requires id in g(t)
    ensures id in after && AuthEqual(after[id], g(t)[id])
  {
    if t == s {
      assert id in offered;
    } else {
      assert f(t) == g(t) && id !in f(s) && id !in g(s);
      assert Lookup(after, id) == Lookup(before, id);
    }
  }

  /** Changing what one source offers, and only that, keeps the entries in step. */
  lemma SwapReflects(f: Offer, g: Offer, s: Source, before: Auths, after: Auths, offered: Auths)
    requires Reflects(f, before) && Disjoint(f) && Disjoint(g) && SameBut(f, g, s)
    requires Similar(offered, g(s))
    requires Swapped(before, after, f(s).Keys, offered)
    ensures Reflects(g, after)
  {
    forall t, id | id in g(t) ensures id in after && AuthEqual(after[id], g(t)[id]) {
      SwapOffered(f, g, s, before, after, offered, t, id);
    }
    forall id | id in after ensures exists t :: id in g(t) {
      if id in offered {
        assert id in g(s);
      } else {
        assert id !in f(s);
        assert Lookup(after, id) == Lookup(before, id);
        var t :| id in f(t);
        assert id in g(t);
      }
    }
  }

  // ----- the index of what each file contributes -----

  type Index = map<string, set<string>>

  function Contribution(z: Synthesis, files: map<string, string>, path: string): Auths {
    if path in files then ByID(z.file(path, files[path], 0)) else map[]
  }

  function Indexed(index: Index, path: string): set<string> {
    if path in index then index[path] else {}
  }

  function Reindexed(index: Index, path: string, ids: set<string>): Index {
    if ids == {} then index - {path} else index[path := ids]
  }

  /** Exactly the files that contribute something, each with the IDs it contributes. */
  ghost predicate IndexOk(z: Synthesis, files: map<string, string>, index: Index) {
    forall path ::
      && Indexed(index, path) == Contribution(z, files, path).Keys
      && (path in index ==> index[path] != {})
  }

  lemma ReindexedOk(z: Synthesis, files: map<string, string>, index: Index, path: string, data: string, now: int)
    requires z.Steady() && IndexOk(z, files, index)
    ensures IndexOk(z, files[path := data], Reindexed(index, path, ByID(z.file(path, data, now)).Keys))
  {
    var files', index' := files[path := data], Reindexed(index, path, ByID(z.file(path, data, now)).Keys);
    forall p
      ensures Indexed(index', p) == Contribution(z, files', p).Keys
      ensures p in index' ==> index'[p] != {}
    {
      assert Indexed(index, p) == Contribution(z, files, p).Keys;
      if p == path {
        assert Similar(ByID(z.file(path, data, now)), ByID(z.file(path, data, 0)));
      }
    }
  }

  lemma UnindexedOk(z: Synthesis, files: map<string, string>, index: Index, path: string)
    requires IndexOk(z, files, index)
    ensures IndexOk(z, files - {path}, index - {path})
  {
    forall p
      ensures Indexed(index - {path}, p) == Contribution(z, files - {path}, p).Keys
      ensures p in index - {path} ==> (index - {path})[p] != {}
    {
      assert Indexed(index, p) == Contribution(z, files, p).Keys;
    }
  }

  // ----- the full refresh -----

  /** A file of the auth directory: `data` is None when it cannot be read. */
  datatype Entry = Entry(path: string, data: Option<string>)

  predicate Readable(e: Entry) {
    e.data.Some? && e.data.value != ""
  }

  predicate DistinctPaths(es: seq<Entry>) {
    forall i, j :: 0 <= i < j < |es| ==> es[i].path != es[j].path
  }

  function Contents(es: seq<Entry>): map<string, string> {
    if es == [] then map[]
    else
      var before, last := Contents(es[..|es| - 1]), es[|es| - 1];
      if Readable(last) then before[last.path := last.data.value] else before
  }

  function FileAuths(z: Synthesis, es: seq<Entry>, now: int): seq<Option<Auth>> {
    if es == [] then []
    else
      var before, last := FileAuths(z, es[..|es| - 1], now), es[|es| - 1];
      if Readable(last) then before + z.file(last.path, last.data.value, now) else before
  }

  lemma {:induction false} ContentsKeys(es: seq<Entry>, path: string)
    ensures path in Contents(es) ==> exists i :: 0 <= i < |es| && es[i].path == path
  {
    if es == [] {
    } else {
      ContentsKeys(es[..|es| - 1], path);
    }
  }

  /** The contents are those of the files that can be read and are not empty. */
  lemma {:induction false} ContentsExactly(es: seq<Entry>, path: string, data: string)
    requires DistinctPaths(es)
    ensures Lookup(Contents(es), path) == Some(data) <==> data != "" && Entry(path, Some(data)) in es
  {
    if es == [] {
    } else {
      var init, last := es[..|es| - 1], es[|es| - 1];
      ContentsExactly(init, path, data);
      ContentsKeys(init, path);
      assert es == init + [last];
    }
  }

  /** `g` offers one source more than `f`. */
  ghost predicate Extends(f: Offer, g: Offer, s: Source) {
    SameBut(f, g, s) && f(s) == map[]
  }

  lemma FewerDisjoint(f: Offer, g: Offer, s: Source)
    requires Disjoint(g) && Extends(f, g, s)
    ensures Disjoint(f)
  {
    forall t, u, id | t != u && id in f(t) ensures id !in f(u) {
      assert id in g(t) && id !in g(u);
    }
  }

  lemma AddSource(f: Offer, g: Offer, s: Source, m: Auths, offered: Auths)
    requires Disjoint(g) && Extends(f, g, s) && Reflects(f, m)
    requires Similar(offered, g(s))
    ensures Reflects(g, m + offered)
  {
    FewerDisjoint(f, g, s);
    SwapReflects(f, g, s, m, m + offered, offered);
  }

  lemma ConfigReflects(z: Synthesis, now: int)
    requires z.Steady()
    ensures Reflects(Offers(z, Origins(map[], map[])), NewState(z.config(now)))
  {
    var f, m := Offers(z, Origins(map[], map[])), NewState(z.config(now));
    assert Similar(m, f(Config));
    forall id | id in m ensures exists s :: id in f(s) {
      assert id in f(Config);
    }
  }

  lemma OneMoreFile(z: Synthesis, es: seq<Entry>, now: int)
    requires es != [] && Readable(es[|es| - 1]) && DistinctPaths(es)
    ensures Extends(Offers(z, Origins(Contents(es[..|es| - 1]), map[])), Offers(z, Origins(Contents(es), map[])),
      File(es[|es| - 1].path))
  {
    ContentsKeys(es[..|es| - 1], es[|es| - 1].path);
  }

  lemma {:induction false} FilesReflect(z: Synthesis, es: seq<Entry>, now: int)
    requires z.Steady() && DistinctPaths(es)
    requires Disjoint(Offers(z, Origins(Contents(es), map[])))
    ensures Reflects(Offers(z, Origins(Contents(es), map[])), NewState(z.config(now) + FileAuths(z, es, now)))
    decreases |es|
  {
    if es == [] {
      assert z.config(now) + [] == z.config(now);
      ConfigReflects(z, now);
    } else {
      var init, last := es[..|es| - 1], es[|es| - 1];
      if Readable(last) {
        var f, g := Offers(z, Origins(Contents(init), map[])), Offers(z, Origins(Contents(es), map[]));
        var auths := z.file(last.path, last.data.value, now);
        OneMoreFile(z, es, now);
        FewerDisjoint(f, g, File(last.path));
        FilesReflect(z, init, now);
        assert z.config(now) + FileAuths(z, es, now) == z.config(now) + FileAuths(z, init, now) + auths;
        NewStateConcat(z.config(now) + FileAuths(z, init, now), auths);
        ReadingsAgree(auths);
        AddSource(f, g, File(last.path), NewState(z.config(now) + FileAuths(z, init, now)), ByID(auths));
      } else {
        FilesReflect(z, init, now);
      }
    }
  }

  /** The run-time auths in some order. */
  ghost predicate Lists(auths: seq<Option<Auth>>, m: Auths) {
    && (forall i :: 0 <= i < |auths| ==> auths[i].Some? && Lookup(m, auths[i].value.id) == auths[i])
    && (forall id :: id in m ==> Some(m[id]) in auths)
  }

  lemma {:induction false} NewStateFrom(auths: seq<Option<Auth>>, id: string)
    requires id in NewState(auths)
    ensures Some(NewState(auths)[id]) in auths
    decreases |auths|
  {
    var init, last := auths[..|auths| - 1], auths[|auths| - 1];
    if last.None? || last.value.id == "" || last.value.id != id {
      NewStateFrom(init, id);
    }
  }

  lemma ListedState(auths: seq<Option<Auth>>, m: Auths)
    requires Lists(auths, m) && KeyedAuths(m)
    ensures NewState(auths) == m
  {
    forall id ensures Lookup(NewState(auths), id) == Lookup(m, id) {
      NewStateKeys(auths, id);
      if id in NewState(auths) {
        NewStateFrom(auths, id);
      }
    }
    SameLookups(NewState(auths), m);
  }

  /** A full refresh yields entries in step with the sources it read. */
  lemma RefreshReflects(z: Synthesis, es: seq<Entry>, run: Auths, listed: seq<Option<Auth>>, now: int)
    requires z.Steady() && DistinctPaths(es) && KeyedAuths(run) && Lists(listed, run)
    requires Disjoint(Offers(z, Origins(Contents(es), run)))
    ensures Reflects(Offers(z, Origins(Contents(es), run)), NewState(z.config(now) + FileAuths(z, es, now) + listed))
  {
    var f, g := Offers(z, Origins(Contents(es), map[])), Offers(z, Origins(Contents(es), run));
    assert Extends(f, g, Runtime);
    FewerDisjoint(f, g, Runtime);
    FilesReflect(z, es, now);
    NewStateConcat(z.config(now) + FileAuths(z, es, now), listed);
    ListedState(listed, run);
    AddSource(f, g, Runtime, NewState(z.config(now) + FileAuths(z, es, now)), run);
  }

  // ----- where incremental handling and full refresh part -----

  /** A change in one source that the entries do not follow leaves them in step exactly when the source
      offers what it did before. The watcher lets unreadable, empty and malformed file contents pass. */
  lemma IgnoredChange(f: Offer, g: Offer, s: Source, m: Auths)
    requires Reflects(f, m) && Disjoint(f) && Disjoint(g) && SameBut(f, g, s)
    ensures Reflects(g, m) <==> Similar(g(s), f(s))
  {
    if Similar(g(s), f(s)) {
      SwapReflects(f, g, s, m, m, f(s));
    }
    if Reflects(g, m) {
      forall id | id in g(s) ensures id in f(s) && AuthEqual(g(s)[id], f(s)[id]) {
        OfferedHere(f, g, s, m, id);
        assert AuthEqual(m[id], g(s)[id]) && AuthEqual(m[id], f(s)[id]);
      }
      forall id | id in f(s) ensures id in g(s) {
        OfferedHere(g, f, s, m, id);
      }
    }
  }

  lemma OfferedHere(f: Offer, g: Offer, s: Source, m: Auths, id: string)
    requires Reflects(f, m) && Reflects(g, m) && Disjoint(g) && SameBut(f, g, s)
    requires id in g(s)
    ensures id in f(s)
  {
    assert id in m;
    var t :| id in f(t);
    assert t != s ==> id in g(t);
  }

  /** Deleting a run-time auth also deletes the entry; that stays in step exactly when no other source offers the ID. */
  lemma RuntimeDeletion(f: Offer, g: Offer, m: Auths, id: string)
    requires Reflects(f, m) && Disjoint(f) && SameBut(f, g, Runtime) && g(Runtime) == f(Runtime) - {id}
    ensures Reflects(g, m - {id}) <==> forall s :: s != Runtime ==> id !in f(s)
  {
    if s :| s != Runtime && id in f(s) {
      assert id in g(s) && id !in m - {id};
    } else {
      RemoveOffered(f, g, m, id);
    }
  }

  lemma RemoveOffered(f: Offer, g: Offer, m: Auths, id: string)
    requires Reflects(f, m) && Disjoint(f) && SameBut(f, g, Runtime) && g(Runtime) == f(Runtime) - {id}
    requires forall s :: s != Runtime ==> id !in f(s)
    ensures Disjoint(g) && Reflects(g, m - {id})
  {
    forall s, t, i | s != t && i in g(s) ensures i !in g(t) {
      assert i in f(s) && i !in f(t);
    }
    forall s, i | i in g(s) ensures i in m - {id} && AuthEqual((m - {id})[i], g(s)[i]) {
      assert i in f(s);
    }
    forall i | i in m - {id} ensures exists s :: i in g(s) {
      var s :| i in f(s);
      assert i in g(s);
    }
  }
}
