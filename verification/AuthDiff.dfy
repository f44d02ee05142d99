/** The updates that lead from one collection of auth entries to the next. */
module AuthDiff {
  import opened Collections
  import opened AuthUpdates
  import opened AuthSources

  /** What happens to an entry when `gone` is taken out and `offered` put in; entries authEqual to what is
      offered stay as they are. */
  function PatchedAt(cur: Auths, gone: set<string>, offered: Auths, id: string): Option<Auth> {
    if id in offered then Some(if id in cur && AuthEqual(cur[id], offered[id]) then cur[id] else offered[id])
    else if id in gone then None
    else Lookup(cur, id)
  }

  function Patched(cur: Auths, gone: set<string>, offered: Auths): Auths {
    map id | id in cur.Keys + offered.Keys && PatchedAt(cur, gone, offered, id).Some? ::
      PatchedAt(cur, gone, offered, id).value
  }

  lemma PatchedLookup(cur: Auths, gone: set<string>, offered: Auths, id: string)
    ensures Lookup(Patched(cur, gone, offered), id) == PatchedAt(cur, gone, offered, id)
  {
  }

  lemma PatchedSwaps(cur: Auths, gone: set<string>, offered: Auths)
    ensures Swapped(cur, Patched(cur, gone, offered), gone, offered)
  {
    forall id ensures Lookup(Patched(cur, gone, offered), id) == PatchedAt(cur, gone, offered, id) {
      PatchedLookup(cur, gone, offered, id);
    }
  }

  lemma PatchedKeyed(cur: Auths, gone: set<string>, offered: Auths)
    requires KeyedAuths(cur) && KeyedAuths(offered)
    ensures KeyedAuths(Patched(cur, gone, offered))
  {
  }

  /** The one update that an entry needs, if any. */
  function UpdateAt(cur: Auths, gone: set<string>, offered: Auths, force: bool, id: string): Option<Update> {
    if id in offered then
      if id !in cur then Some(Update(Add, id, Some(offered[id])))
      else if force || !AuthEqual(cur[id], offered[id]) then Some(Update(Modify, id, Some(offered[id])))
      else None
    else if id in gone then Some(Update(Delete, id, None))
    else None
  }

  predicate OnceEach(us: seq<Update>) {
    forall i, j :: 0 <= i < j < |us| ==> us[i].id != us[j].id
  }

  /** Of the entries `done`, exactly the needed updates, in any order. */
  ghost predicate Collected(us: seq<Update>, cur: Auths, gone: set<string>, offered: Auths, force: bool,
          done: set<string>) {
    && AllKeyed(us) && OnceEach(us)
    && (forall i :: 0 <= i < |us| ==> us[i].id in done)
    && (forall id :: Outcome(us, id) == if id in done then UpdateAt(cur, gone, offered, force, id) else None)
  }

  /** Exactly the needed updates, each entry mentioned at most once. */
  ghost predicate IsDiff(us: seq<Update>, cur: Auths, gone: set<string>, offered: Auths, force: bool) {
    Collected(us, cur, gone, offered, force, gone + offered.Keys)
  }

  function Maybe(o: Option<Update>): seq<Update> {
    if o.Some? then [o.value] else []
  }

  lemma OutcomeOneMore(us: seq<Update>, u: Update, id: string)
    ensures Outcome(us + [u], id) == if Target(u) == id then Some(u) else Outcome(us, id)
  {
    assert (us + [u])[..|us|] == us;
  }

  lemma UpdateAtKeyed(cur: Auths, gone: set<string>, offered: Auths, force: bool, id: string)
    requires KeyedAuths(offered) && (id in gone ==> id != "")
    ensures var u := UpdateAt(cur, gone, offered, force, id); u.Some? ==> Keyed(u.value) && u.value.id == id
  {
  }

  lemma CollectedOneMore(us: seq<Update>, cur: Auths, gone: set<string>, offered: Auths, force: bool,
          done: set<string>, id: string)
    requires Collected(us, cur, gone, offered, force, done) && id !in done
    requires KeyedAuths(offered) && (id in gone ==> id != "")
    ensures Collected(us + Maybe(UpdateAt(cur, gone, offered, force, id)), cur, gone, offered, force, done + {id})
  {
    hide UpdateAt, Outcome, KeyedAuths;
    var u := UpdateAt(cur, gone, offered, force, id);
    UpdateAtKeyed(cur, gone, offered, force, id);
    if u == None {
      assert us + Maybe(u) == us;
    } else {
      assert AllKeyed(us + [u.value]) && OnceEach(us + [u.value]);
      forall x ensures Outcome(us + [u.value], x) ==
                       if x in done + {id} then UpdateAt(cur, gone, offered, force, x) else None {
        OutcomeOneMore(us, u.value, x);
      }
    }
  }

  /** In such a list the update with a given ID is the one the entry needs, and without force none
      concerns an entry that stays as it is. */
  lemma {:induction false} DiffMinimal(us: seq<Update>, cur: Auths, gone: set<string>, offered: Auths, force: bool,
          i: nat)
    requires IsDiff(us, cur, gone, offered, force) && i < |us|
    ensures UpdateAt(cur, gone, offered, force, us[i].id) == Some(us[i])
    ensures !force ==> !(us[i].id in cur && us[i].id in offered && AuthEqual(cur[us[i].id], offered[us[i].id]))
  {
    OnlyOutcome(us, i);
  }

  /** The update u is called for: what is offered and new is added, what is offered and differs, or is
      forced, is modified, and what is to go and not offered is deleted. */
  predicate CalledFor(u: Update, cur: Auths, gone: set<string>, offered: Auths, force: bool) {
    match u
    case Update(Add, id, Some(a)) => id in offered && a == offered[id] && id !in cur
    case Update(Modify, id, Some(a)) =>
      id in offered && a == offered[id] && id in cur && (force || cur[id].body != a.body)
    case Update(Delete, id, None) => id in gone && id !in offered
    case _ => false
  }

  /** The updates are exactly those called for, each once. */
  lemma DiffExactly(us: seq<Update>, cur: Auths, gone: set<string>, offered: Auths, force: bool, u: Update)
    requires IsDiff(us, cur, gone, offered, force) && KeyedAuths(cur) && KeyedAuths(offered)
    ensures u in us <==> CalledFor(u, cur, gone, offered, force)
    ensures multiset(us)[u] <= 1
  {
    CalledExactly(cur, gone, offered, force, u);
    assert Outcome(us, u.id) ==
      if u.id in gone + offered.Keys then UpdateAt(cur, gone, offered, force, u.id) else None;
    if u in us {
      var i :| 0 <= i < |us| && us[i] == u;
      OnlyOutcome(us, i);
    }
    if Outcome(us, u.id) == Some(u) { OutcomeIn(us, u.id); }
    hide UpdateAt, Outcome, CalledFor, KeyedAuths;
    AtMostOnce(us, u);
  }

  lemma CalledExactly(cur: Auths, gone: set<string>, offered: Auths, force: bool, u: Update)
    requires KeyedAuths(cur) && KeyedAuths(offered)
    ensures UpdateAt(cur, gone, offered, force, u.id) == Some(u) <==> CalledFor(u, cur, gone, offered, force)
    ensures u.id !in gone + offered.Keys ==> !CalledFor(u, cur, gone, offered, force)
  {
  }

  lemma {:induction false} OutcomeIn(us: seq<Update>, id: string)
    requires Outcome(us, id).Some?
    ensures Outcome(us, id).value in us
    decreases |us|
  {
    if Target(us[|us| - 1]) != id { OutcomeIn(us[..|us| - 1], id); }
  }

  lemma {:induction false} AtMostOnce(us: seq<Update>, u: Update)
    requires OnceEach(us)
    ensures multiset(us)[u] <= 1
    decreases |us|
  {
    if us != [] {
      var init, last := us[..|us| - 1], us[|us| - 1];
      assert us == init + [last];
      AtMostOnce(init, u);
      assert forall i :: 0 <= i < |init| ==> init[i] == us[i] && init[i].id != last.id;
    }
  }

  lemma {:induction false} OnlyOutcome(us: seq<Update>, i: nat)
    requires OnceEach(us) && AllKeyed(us) && i < |us|
    ensures Outcome(us, us[i].id) == Some(us[i])
    decreases |us|
  {
    if i < |us| - 1 {
      OnlyOutcome(us[..|us| - 1], i);
    }
  }

  /** A consumer whose entries are authEqual to the old ones gets entries authEqual to the new ones. */
  lemma DiffLeads(us: seq<Update>, c: Auths, cur: Auths, gone: set<string>, offered: Auths, force: bool)
    requires IsDiff(us, cur, gone, offered, force) && Similar(c, cur) && KeyedAuths(offered)
    ensures Similar(ApplyAll(c, us), Patched(cur, gone, offered))
  {
    forall id ensures SimilarAt(ApplyAll(c, us), Patched(cur, gone, offered), id) {
      DiffLeadsAt(us, c, cur, gone, offered, force, id);
    }
    SimilarEverywhere(ApplyAll(c, us), Patched(cur, gone, offered));
  }

  predicate SimilarAt(a: Auths, b: Auths, id: string) {
    (id in a <==> id in b) && (id in a ==> AuthEqual(a[id], b[id]))
  }

  lemma SimilarEverywhere(a: Auths, b: Auths)
    requires forall id :: SimilarAt(a, b, id)
    ensures Similar(a, b)
  {
    forall id ensures id in a <==> id in b {
      assert SimilarAt(a, b, id);
    }
    forall id | id in a ensures AuthEqual(a[id], b[id]) {
      assert SimilarAt(a, b, id);
    }
  }

  function Consequence(o: Option<Update>, before: Option<Auth>): Option<Auth> {
    if o == None then before else if o.value.action == Delete then None else o.value.auth
  }

  lemma FateDecidesAny(m: Auths, us: seq<Update>, id: string)
    requires AllKeyed(us)
    ensures Lookup(ApplyAll(m, us), id) == Consequence(Outcome(us, id), Lookup(m, id))
  {
    if id == "" {
      BlankUntouched(m, us);
      NoOutcome(us, "");
    } else {
      OutcomeTarget(us, id);
      FateDecides(m, us, id);
    }
  }

  lemma DiffLeadsAt(us: seq<Update>, c: Auths, cur: Auths, gone: set<string>, offered: Auths, force: bool, id: string)
    requires IsDiff(us, cur, gone, offered, force) && Similar(c, cur) && KeyedAuths(offered)
    ensures SimilarAt(ApplyAll(c, us), Patched(cur, gone, offered), id)
  {
    FateDecidesAny(c, us, id);
    PatchedLookup(cur, gone, offered, id);
    var after, want := ApplyAll(c, us), Patched(cur, gone, offered);
    assert Lookup(after, id) == Consequence(UpdateAt(cur, gone, offered, force, id), Lookup(c, id));
    assert id in c <==> id in cur;
    assert id in c ==> AuthEqual(c[id], cur[id]);
    assert id in after <==> Lookup(after, id).Some?;
    assert id in want <==> Lookup(want, id).Some?;
  }

  /** Replacing everything: the refresh takes out all old entries that are not offered. */
  lemma RefreshLeads(us: seq<Update>, c: Auths, cur: Auths, offered: Auths, force: bool)
    requires IsDiff(us, cur, cur.Keys, offered, force) && Similar(c, cur) && KeyedAuths(offered)
    ensures Similar(ApplyAll(c, us), offered)
  {
    DiffLeads(us, c, cur, cur.Keys, offered, force);
    forall id ensures SimilarAt(Patched(cur, cur.Keys, offered), offered, id) {
      PatchedLookup(cur, cur.Keys, offered, id);
    }
    SimilarEverywhere(Patched(cur, cur.Keys, offered), offered);
    SimilarTrans(ApplyAll(c, us), Patched(cur, cur.Keys, offered), offered);
  }

  lemma SimilarTrans(a: Auths, b: Auths, c: Auths)
    requires Similar(a, b) && Similar(b, c)
    ensures Similar(a, c)
  {
    forall id | id in a ensures AuthEqual(a[id], c[id]) {
      assert AuthEqual(a[id], b[id]) && AuthEqual(b[id], c[id]);
    }
  }

  // ----- one entry after the other -----

  /** The IDs without those still to do, each once, in the order in which they are visited. */
  ghost predicate Visits(visited: seq<string>, ids: set<string>, todo: set<string>) {
    && todo <= ids
    && (forall i, j :: 0 <= i < j < |visited| ==> visited[i] != visited[j])
    && (forall id :: id in visited <==> id in ids && id !in todo)
  }

  lemma VisitsOneMore(visited: seq<string>, ids: set<string>, todo: set<string>, id: string)
    requires Visits(visited, ids, todo) && id in todo
    ensures Visits(visited + [id], ids, todo - {id})
    ensures id in ids && id !in visited
  {
  }

  lemma VisitsMore(visited: seq<string>, ids: set<string>, more: set<string>)
    requires Visits(visited, ids, {})
    ensures Visits(visited, more + ids, more - ids)
  {
  }

  function Gathered(cur: Auths, gone: set<string>, offered: Auths, force: bool, visited: seq<string>): seq<Update> {
    if visited == [] then []
    else Gathered(cur, gone, offered, force, visited[..|visited| - 1])
         + Maybe(UpdateAt(cur, gone, offered, force, visited[|visited| - 1]))
  }

  function Put(m: Auths, id: string, a: Option<Auth>): Auths {
    if a.Some? then m[id := a.value] else m - {id}
  }

  function PutEach(cur: Auths, gone: set<string>, offered: Auths, visited: seq<string>): Auths {
    if visited == [] then cur
    else
      var id := visited[|visited| - 1];
      Put(PutEach(cur, gone, offered, visited[..|visited| - 1]), id, PatchedAt(cur, gone, offered, id))
  }

  lemma OneMore(cur: Auths, gone: set<string>, offered: Auths, force: bool, visited: seq<string>, id: string)
    ensures Gathered(cur, gone, offered, force, visited + [id])
      == Gathered(cur, gone, offered, force, visited) + Maybe(UpdateAt(cur, gone, offered, force, id))
    ensures PutEach(cur, gone, offered, visited + [id])
      == Put(PutEach(cur, gone, offered, visited), id, PatchedAt(cur, gone, offered, id))
  {
    assert (visited + [id])[..|visited|] == visited;
  }

  lemma {:induction false} PutEachAt(cur: Auths, gone: set<string>, offered: Auths, visited: seq<string>, id: string)
    ensures Lookup(PutEach(cur, gone, offered, visited), id) ==
      if id in visited then PatchedAt(cur, gone, offered, id) else Lookup(cur, id)
    decreases |visited|
  {
    if visited == [] {
    } else {
      PutEachAt(cur, gone, offered, visited[..|visited| - 1], id);
    }
  }

  lemma PutAllPatches(cur: Auths, gone: set<string>, offered: Auths, visited: seq<string>)
    requires Visits(visited, gone + offered.Keys, {})
    ensures PutEach(cur, gone, offered, visited) == Patched(cur, gone, offered)
  {
    forall id ensures Lookup(PutEach(cur, gone, offered, visited), id) == Lookup(Patched(cur, gone, offered), id) {
      PutEachAt(cur, gone, offered, visited, id);
      PatchedLookup(cur, gone, offered, id);
    }
    SameLookups(PutEach(cur, gone, offered, visited), Patched(cur, gone, offered));
  }

  lemma {:induction false} GatheredCollects(cur: Auths, gone: set<string>, offered: Auths, force: bool,
          visited: seq<string>, ids: set<string>)
    requires Visits(visited, ids, {}) && KeyedAuths(offered) && "" !in gone
    ensures Collected(Gathered(cur, gone, offered, force, visited), cur, gone, offered, force, ids)
    decreases |visited|
  {
    if visited == [] {
      assert ids == {};
    } else {
      var init, last := visited[..|visited| - 1], visited[|visited| - 1];
      VisitsOneLess(visited, ids);
      GatheredCollects(cur, gone, offered, force, init, ids - {last});
      CollectedOneMore(Gathered(cur, gone, offered, force, init), cur, gone, offered, force, ids - {last}, last);
      assert ids - {last} + {last} == ids;
    }
  }

  lemma VisitsOneLess(visited: seq<string>, ids: set<string>)
    requires Visits(visited, ids, {}) && visited != []
    ensures visited[|visited| - 1] in ids
    ensures Visits(visited[..|visited| - 1], ids - {visited[|visited| - 1]}, {})
  {
    assert visited == visited[..|visited| - 1] + [visited[|visited| - 1]];
  }

  // ----- run-time updates -----

  /** What a run-time update does to the run-time auths and to the entries alike; the consumer does the same. */
  lemma RuntimeLeads(c: Auths, cur: Auths, u: Update)
    requires Similar(c, cur)
    ensures Similar(Apply(c, u), Apply(cur, u))
  {
  }

  lemma {:induction false} ApplyKeepsKeyed(m: Auths, u: Update)
    requires KeyedAuths(m)
    ensures KeyedAuths(Apply(m, u))
  {
  }

  /** A run-time update keeps the entries in step if its ID belongs to no other source. */
  lemma RuntimeReflects(z: Synthesis, o: Origins, cur: Auths, u: Update)
    requires Reflects(Offers(z, o), cur) && Disjoint(Offers(z, o))
    requires Disjoint(Offers(z, Origins(o.files, Apply(o.runtime, u))))
    requires u.action == Delete ==> forall s :: s != Runtime ==> Target(u) !in Offers(z, o)(s)
    ensures Reflects(Offers(z, Origins(o.files, Apply(o.runtime, u))), Apply(cur, u))
  {
    var f, g := Offers(z, o), Offers(z, Origins(o.files, Apply(o.runtime, u)));
    var id := Target(u);
    if id != "" {
      if u.action == Delete {
        RuntimeDeletion(f, g, cur, id);
      } else {
        SwapReflects(f, g, Runtime, cur, Apply(cur, u), g(Runtime)) by {
          RuntimeAddition(f, g, cur, id, u.auth.value);
        }
      }
    }
  }

  lemma RuntimeAddition(f: Offer, g: Offer, cur: Auths, id: string, a: Auth)
    requires Reflects(f, cur) && g(Runtime) == f(Runtime)[id := a]
    ensures Swapped(cur, cur[id := a], f(Runtime).Keys, g(Runtime))
  {
  }
}
