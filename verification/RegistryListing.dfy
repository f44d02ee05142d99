/** Which models a listing shows, and why the cached listing never disagrees with a fresh one. */
module RegistryListing {
  import opened Collections
  import opened Text
  import opened RegistryState
  import opened RegistryInvariant

  /** A listing entry: the rendering of a model's metadata for a handler type. */
  datatype Listing = Listing(handler: string, info: ModelInfo)

  /** A cached listing, valid before expiresAt, or until cleared when there is none. */
  datatype CacheEntry = CacheEntry(models: seq<Listing>, expiresAt: Option<int>)

  /** The reason is "quota" in upper, lower or mixed case. */
  predicate IsQuotaReason(reason: string) {
    |reason| == 5 &&
    LowerChar(reason[0]) == 'q' && LowerChar(reason[1]) == 'u' && LowerChar(reason[2]) == 'o' &&
    LowerChar(reason[3]) == 't' && LowerChar(reason[4]) == 'a'
  }

  function CoolingDown(r: Registration): set<string> {
    set c | c in r.suspended && IsQuotaReason(r.suspended[c])
  }

  function OtherwiseSuspended(r: Registration): set<string> {
    set c | c in r.suspended && !IsQuotaReason(r.suspended[c])
  }

  /** Some client can serve, or every obstacle is a quota that will pass. */
  predicate Offered(count: int, live: int, cooling: int, suspended: int) {
    count - live - suspended > 0 || (count > 0 && (live > 0 || cooling > 0) && suspended == 0)
  }

  predicate Visible(r: Registration, now: int) {
    Offered(r.count, |LiveQuota(r, now)|, |CoolingDown(r)|, |OtherwiseSuspended(r)|)
  }

  function Listed(models: Models, handler: string, now: int): set<Listing> {
    set m | m in models && Visible(models[m], now) :: Listing(handler, models[m].info)
  }

  /** The list holds every visible model once, in some order. */
  ghost predicate IsListing(list: seq<Listing>, models: Models, handler: string, now: int) {
    multiset(list) == multiset(Listed(models, handler, now))
  }

  ghost predicate LiveMark(models: Models, now: int, m: string, c: string) {
    m in models && c in models[m].quota && Live(models[m].quota[c], now)
  }

  /** e is the first moment at which a live mark stops being live. */
  ghost predicate IsEarliest(models: Models, now: int, e: Option<int>) {
    match e
    case None => forall m, c :: !LiveMark(models, now, m, c)
    case Some(at) =>
      && (exists m, c :: LiveMark(models, now, m, c) && at == models[m].quota[c] + QUOTA_WINDOW)
      && (forall m, c :: LiveMark(models, now, m, c) ==> at <= models[m].quota[c] + QUOTA_WINDOW)
  }

  predicate Fresh(e: CacheEntry, now: int) {
    e.expiresAt == None || now < e.expiresAt.value
  }

  /** Until the earliest recovery, time alone changes no registration's live marks. */
  lemma LiveUntilEarliest(models: Models, m: string, t0: int, e: Option<int>, now: int)
    requires IsEarliest(models, t0, e) && t0 <= now && (e == None || now < e.value) && m in models
    ensures LiveQuota(models[m], now) == LiveQuota(models[m], t0)
  {
    forall c | c in models[m].quota
      ensures Live(models[m].quota[c], t0) == Live(models[m].quota[c], now)
    {
      if Live(models[m].quota[c], t0) {
        assert LiveMark(models, t0, m, c);
      }
    }
  }

  /** So a listing stays right until its expiry. */
  lemma ListingLasts(models: Models, handler: string, t0: int, e: Option<int>, now: int)
    requires IsEarliest(models, t0, e) && t0 <= now && (e == None || now < e.value)
    ensures Listed(models, handler, now) == Listed(models, handler, t0)
  {
    forall m | m in models ensures Visible(models[m], now) == Visible(models[m], t0) {
      LiveUntilEarliest(models, m, t0, e, now);
    }
  }

  /** From clock on, each cached listing is what a fresh build would show while it is fresh. */
  ghost predicate CacheOk(cache: map<string, CacheEntry>, models: Models, clock: int) {
    forall h, now :: h in cache && clock <= now && Fresh(cache[h], now) ==> IsListing(cache[h].models, models, h, now)
  }

  lemma StoreKeepsCacheOk(cache: map<string, CacheEntry>, models: Models, clock: int,
                          handler: string, now: int, list: seq<Listing>, e: Option<int>)
    requires CacheOk(cache, models, clock) && clock <= now
    requires IsListing(list, models, handler, now) && IsEarliest(models, now, e)
    ensures CacheOk(cache[handler := CacheEntry(list, e)], models, now)
  {
    var cache' := cache[handler := CacheEntry(list, e)];
    forall h, later | h in cache' && now <= later && Fresh(cache'[h], later)
      ensures IsListing(cache'[h].models, models, h, later)
    {
      if h == handler {
        ListingLasts(models, handler, now, e, later);
      }
    }
  }

  // ----- runs -----

  datatype World = World(tables: Tables, cache: map<string, CacheEntry>, clock: int)

  datatype Op =
    | RegisterOp(client: string, provider: string, list: seq<Option<ModelInfo>>)
    | UnregisterOp(client: string)
    | SetQuotaOp(client: string, model: string)
    | ClearQuotaOp(client: string, model: string)
    | SuspendOp(client: string, model: string, reason: string)
    | ResumeOp(client: string, model: string)
    | CleanupOp
    | ListOp(handler: string, result: seq<Listing>)

  const START := World(EMPTY, map[], 0)

  /** What a mutator does to the tables; a listing leaves them alone. */
  function Effect(t: Tables, op: Op, now: int): Tables {
    match op
    case RegisterOp(c, p, list) => Register(t, c, p, list)
    case UnregisterOp(c) => Unregister(t, c)
    case SetQuotaOp(c, m) => MarkQuota(t, c, m, now)
    case ClearQuotaOp(c, m) => ClearQuota(t, c, m)
    case SuspendOp(c, m, reason) => Suspend(t, c, m, reason)
    case ResumeOp(c, m) => Resume(t, c, m)
    case CleanupOp => Cleanup(t, now)
    case ListOp(_, _) => t
  }

  /** Whether a mutator clears the cache. */
  ghost predicate Clears(t: Tables, op: Op, now: int) {
    match op
    case RegisterOp(_, _, _) => true
    case UnregisterOp(_) => true
    case SetQuotaOp(_, m) => m in t.models
    case ClearQuotaOp(_, m) => m in t.models
    case SuspendOp(c, m, _) => c != "" && m != "" && m in t.models && c !in t.models[m].suspended
    case ResumeOp(c, m) => c != "" && m != "" && m in t.models && c in t.models[m].suspended
    case CleanupOp => exists m, c :: DeadMark(t.models, now, m, c)
    case ListOp(_, _) => false
  }

  ghost predicate DeadMark(models: Models, now: int, m: string, c: string) {
    m in models && c in models[m].quota && !Live(models[m].quota[c], now)
  }

  ghost predicate Next(w: World, op: Op, w': World) {
    && w.clock <= w'.clock
    && w'.tables == Effect(w.tables, op, w'.clock)
    && (if op.ListOp? then ListStep(w, op.handler, op.result, w')
        else w'.cache == if Clears(w.tables, op, w'.clock) then map[] else w.cache)
  }

  ghost predicate ListStep(w: World, handler: string, result: seq<Listing>, w': World) {
    if handler in w.cache && Fresh(w.cache[handler], w'.clock) then
      w'.cache == w.cache && result == w.cache[handler].models
    else
      && IsListing(result, w.tables.models, handler, w'.clock)
      && handler in w'.cache && w'.cache == w.cache[handler := w'.cache[handler]]
      && w'.cache[handler].models == result
      && IsEarliest(w.tables.models, w'.clock, w'.cache[handler].expiresAt)
  }

  ghost predicate ValidWorld(w: World) {
    Inv(w.tables) && CacheOk(w.cache, w.tables.models, w.clock)
  }
}
