/** The thinking-signature cache: buckets per model group, lazy and periodic expiry, and a
    time-to-live that slides on access. It refines one flat table from which nothing is ever purged. */
module SignatureCache {
  import opened Text

  /** Three hours, in nanoseconds. */
  const TIME_TO_LIVE: int := 3 * 60 * 60 * 1_000_000_000
  const MIN_VALID_LENGTH := 50
  const SKIP_VALIDATOR := "skip_thought_signature_validator"

  datatype Entry = Entry(signature: string, touched: int)

  function GetModelGroup(model: string): string {
    if Contains(model, "gpt") then "gpt"
    else if Contains(model, "claude") then "claude"
    else if Contains(model, "gemini") then "gemini"
    else model
  }

  /** The answer when nothing is cached for the group. */
  function Fallback(group: string): string {
    if group == "gemini" then SKIP_VALIDATOR else ""
  }

  predicate HasValidSignature(model: string, signature: string) {
    (signature != "" && ByteLength(signature) >= MIN_VALID_LENGTH) ||
    (signature == SKIP_VALIDATOR && GetModelGroup(model) == "gemini")
  }

  predicate Expired(e: Entry, now: int) {
    now - e.touched > TIME_TO_LIVE
  }

  // ----- the flat table -----

  /** What was last stored for a group and text hash, and when it was last stored or found. */
  type Flat = map<(string, string), Entry>

  function FlatPut(f: Flat, group: string, text: string, hash: string, signature: string, now: int): Flat {
    if text == "" || ByteLength(signature) < MIN_VALID_LENGTH then f
    else f[(group, hash) := Entry(signature, now)]
  }

  predicate FlatHit(f: Flat, group: string, text: string, hash: string, now: int) {
    text != "" && (group, hash) in f && !Expired(f[(group, hash)], now)
  }

  function FlatRead(f: Flat, group: string, text: string, hash: string, now: int): string {
    if FlatHit(f, group, text, hash, now) then f[(group, hash)].signature else Fallback(group)
  }

  function FlatTouch(f: Flat, group: string, text: string, hash: string, now: int): Flat {
    if FlatHit(f, group, text, hash, now) then f[(group, hash) := f[(group, hash)].(touched := now)] else f
  }

  function FlatClear(f: Flat, model: string): Flat {
    if model == "" then map[]
    else map k | k in f && k.0 != GetModelGroup(model) :: f[k]
  }

  // ----- the buckets -----

  type Buckets = map<string, map<string, Entry>>

  predicate Stored(b: Buckets, group: string, hash: string) {
    group in b && hash in b[group]
  }

  /** Buckets hold entries of the flat table, and all those that have not expired by the clock. */
  ghost predicate Refines(b: Buckets, f: Flat, clock: int) {
    && (forall g, h :: Stored(b, g, h) ==> (g, h) in f && f[(g, h)] == b[g][h])
    && (forall g, h :: (g, h) in f && !Expired(f[(g, h)], clock) ==> Stored(b, g, h))
    && (forall k :: k in f ==> f[k].touched <= clock && ByteLength(f[k].signature) >= MIN_VALID_LENGTH)
  }

  function Purged(bucket: map<string, Entry>, now: int): map<string, Entry> {
    map h | h in bucket && !Expired(bucket[h], now) :: bucket[h]
  }

  function Put(b: Buckets, group: string, text: string, hash: string, signature: string, now: int): Buckets {
    if text == "" || ByteLength(signature) < MIN_VALID_LENGTH then b
    else b[group := (if group in b then b[group] else map[])[hash := Entry(signature, now)]]
  }

  function Read(b: Buckets, group: string, text: string, hash: string, now: int): string {
    if text != "" && Stored(b, group, hash) && !Expired(b[group][hash], now) then b[group][hash].signature
    else Fallback(group)
  }

  /** A read renews what it finds, and drops it if it has expired. */
  function Touch(b: Buckets, group: string, text: string, hash: string, now: int): Buckets {
    if text == "" || !Stored(b, group, hash) then b
    else if Expired(b[group][hash], now) then b[group := b[group] - {hash}]
    else b[group := b[group][hash := b[group][hash].(touched := now)]]
  }

  function Sweep(b: Buckets, now: int): Buckets {
    map g | g in b && Purged(b[g], now) != map[] :: Purged(b[g], now)
  }

  function Clear(b: Buckets, model: string): Buckets {
    if model == "" then map[] else b - {GetModelGroup(model)}
  }

  // ----- the buckets refine the flat table -----

  lemma PutRefines(b: Buckets, f: Flat, clock: int, group: string, text: string, hash: string, signature: string,
          now: int)
    requires Refines(b, f, clock) && clock <= now
    ensures Refines(Put(b, group, text, hash, signature, now), FlatPut(f, group, text, hash, signature, now), now)
  {
    var b' := Put(b, group, text, hash, signature, now);
    forall g, h ensures Stored(b', g, h) <==> Stored(b, g, h) || (b' != b && g == group && h == hash) {
      if text != "" && ByteLength(signature) >= MIN_VALID_LENGTH && g == group && h == hash {
        assert Stored(b', g, h);
      }
    }
  }

  lemma TouchRefines(b: Buckets, f: Flat, clock: int, group: string, text: string, hash: string, now: int)
    requires Refines(b, f, clock) && clock <= now
    ensures Refines(Touch(b, group, text, hash, now), FlatTouch(f, group, text, hash, now), now)
    ensures Read(b, group, text, hash, now) == FlatRead(f, group, text, hash, now)
  {
    var b' := Touch(b, group, text, hash, now);
    assert Stored(b, group, hash) ==> (group, hash) in f && f[(group, hash)] == b[group][hash];
    forall g, h | g != group || h != hash
      ensures Stored(b', g, h) <==> Stored(b, g, h)
      ensures Stored(b, g, h) ==> b'[g][h] == b[g][h]
    {
    }
  }

  lemma SweepRefines(b: Buckets, f: Flat, clock: int, now: int)
    requires Refines(b, f, clock) && clock <= now
    ensures Refines(Sweep(b, now), f, now)
    ensures forall g, h :: Stored(Sweep(b, now), g, h) <==> (g, h) in f && !Expired(f[(g, h)], now)
  {
    forall g, h ensures Stored(Sweep(b, now), g, h) <==> Stored(b, g, h) && !Expired(b[g][h], now) {
      if Stored(b, g, h) && !Expired(b[g][h], now) {
        assert h in Purged(b[g], now);
      }
    }
  }

  lemma ClearRefines(b: Buckets, f: Flat, clock: int, model: string)
    requires Refines(b, f, clock)
    ensures Refines(Clear(b, model), FlatClear(f, model), clock)
  {
    forall g, h ensures Stored(Clear(b, model), g, h) <==> Stored(b, g, h) && model != "" && g != GetModelGroup(model) {
    }
  }

  class SignatureStore {
    var buckets: Buckets
    /** The hash of a text; SHA-256 in the source. */
    const hash: string -> string
    ghost var flat: Flat
    ghost var clock: int

    ghost predicate Valid()
      reads this
    {
      Refines(buckets, flat, clock)
    }

    constructor (hash: string -> string)
      ensures Valid() && flat == map[] && buckets == map[] && clock == 0 && this.hash == hash
    {
      buckets, flat, clock := map[], map[], 0;
      this.hash := hash;
    }

    method CacheSignature(model: string, text: string, signature: string, now: int)
      requires Valid() && clock <= now
      modifies this
      ensures Valid() && clock == now
      ensures buckets == Put(old(buckets), GetModelGroup(model), text, hash(text), signature, now)
      ensures flat == FlatPut(old(flat), GetModelGroup(model), text, hash(text), signature, now)
    {
      PutRefines(buckets, flat, clock, GetModelGroup(model), text, hash(text), signature, now);
      assert ByteLength("") == 0;
      hide Refines, FlatPut, GetModelGroup, ByteLength;
      clock := now;
      flat := FlatPut(flat, GetModelGroup(model), text, hash(text), signature, now);
      if text == "" || signature == "" {
        return;
      }
      if ByteLength(signature) < MIN_VALID_LENGTH {
        return;
      }
      var group, h := GetModelGroup(model), hash(text);
      if group !in buckets {
        Overwritten(buckets, group, map[], map[h := Entry(signature, now)]);
        buckets := buckets[group := map[]];
      }
      buckets := buckets[group := buckets[group][h := Entry(signature, now)]];
    }

    /** The answer of the flat table, whatever was purged before; if not empty, valid for the model. */
    method GetCachedSignature(model: string, text: string, now: int) returns (signature: string)
      requires Valid() && clock <= now
      modifies this
      ensures Valid() && clock == now
      ensures buckets == Touch(old(buckets), GetModelGroup(model), text, hash(text), now)
      ensures signature == FlatRead(old(flat), GetModelGroup(model), text, hash(text), now)
      ensures signature == Read(old(buckets), GetModelGroup(model), text, hash(text), now)
      ensures flat == FlatTouch(old(flat), GetModelGroup(model), text, hash(text), now)
      ensures signature != "" ==> HasValidSignature(model, signature)
    {
      var group := GetModelGroup(model);
      TouchRefines(buckets, flat, clock, group, text, hash(text), now);
      ReadValid(flat, clock, model, text, hash(text), now, buckets);
      TouchCases(buckets, group, text, hash(text), now);
      hide Refines, FlatTouch, FlatRead, HasValidSignature, Fallback, GetModelGroup, Touch, Read;
      flat := FlatTouch(flat, group, text, hash(text), now);
      clock := now;
      if text == "" {
        return Fallback(group);
      }
      if group !in buckets {
        return Fallback(group);
      }
      var h := hash(text);
      if h !in buckets[group] {
        return Fallback(group);
      }
      var entry := buckets[group][h];
      if now - entry.touched > TIME_TO_LIVE {
        assert Expired(entry, now);
        buckets := buckets[group := buckets[group] - {h}];
        return Fallback(group);
      }
      assert !Expired(entry, now);
      entry := entry.(touched := now);
      buckets := buckets[group := buckets[group][h := entry]];
      signature := entry.signature;
    }

    /** The background sweep is invisible: the flat table does not change. */
    method PurgeExpiredCaches(now: int)
      requires Valid() && clock <= now
      modifies this
      ensures Valid() && clock == now
      ensures flat == old(flat) && buckets == Sweep(old(buckets), now)
      ensures forall g, h :: Stored(buckets, g, h) <==> (g, h) in flat && !Expired(flat[(g, h)], now)
    {
      SweepRefines(buckets, flat, clock, now);
      hide Refines, Sweep, Stored, Expired;
      clock := now;
      SweepBuckets(now);
    }

    method SweepBuckets(now: int)
      modifies this`buckets
      ensures buckets == Sweep(old(buckets), now)
    {
      hide Purged;
      ghost var before := buckets;
      var todo := buckets.Keys;
      while todo != {}
        invariant todo <= buckets.Keys <= before.Keys
        invariant forall g :: g in todo ==> buckets[g] == before[g]
        invariant forall g :: g in before && g !in todo ==>
          (g in buckets <==> Purged(before[g], now) != map[]) && (g in buckets ==> buckets[g] == Purged(before[g], now))
      {
        var g :| g in todo;
        todo := todo - {g};
        var kept := PurgeBucket(buckets[g], now);
        buckets := buckets[g := kept];
        if kept == map[] {
          buckets := buckets - {g};
        }
      }
      assert buckets == Sweep(before, now);
    }

    method ClearSignatureCache(model: string)
      requires Valid()
      modifies this
      ensures Valid() && clock == old(clock)
      ensures flat == FlatClear(old(flat), model) && buckets == Clear(old(buckets), model)
    {
      ClearRefines(buckets, flat, clock, model);
      flat := FlatClear(flat, model);
      if model == "" {
        buckets := map[];
        return;
      }
      buckets := buckets - {GetModelGroup(model)};
    }
  }

  lemma Overwritten<K, V>(m: map<K, V>, k: K, v0: V, v: V)
    ensures m[k := v0][k := v] == m[k := v]
  {
  }

  lemma ReadValid(f: Flat, clock: int, model: string, text: string, hash: string, now: int, b: Buckets)
    requires Refines(b, f, clock)
    ensures FlatRead(f, GetModelGroup(model), text, hash, now) != "" ==>
      HasValidSignature(model, FlatRead(f, GetModelGroup(model), text, hash, now))
  {
  }

  lemma TouchCases(b: Buckets, group: string, text: string, hash: string, now: int)
    ensures var b', r := Touch(b, group, text, hash, now), Read(b, group, text, hash, now);
      if text == "" || group !in b || hash !in b[group] then b' == b && r == Fallback(group)
      else if Expired(b[group][hash], now) then b' == b[group := b[group] - {hash}] && r == Fallback(group)
      else var e := b[group][hash]; b' == b[group := b[group][hash := e.(touched := now)]] && r == e.signature
  {
  }

  method PurgeBucket(bucket: map<string, Entry>, now: int) returns (kept: map<string, Entry>)
    ensures kept == Purged(bucket, now)
  {
    kept := bucket;
    var todo := bucket.Keys;
    while todo != {}
      invariant todo <= bucket.Keys
      invariant kept == map h | h in bucket && (h in todo || !Expired(bucket[h], now)) :: bucket[h]
    {
      var h :| h in todo;
      todo := todo - {h};
      if now - bucket[h].touched > TIME_TO_LIVE {
        kept := kept - {h};
      }
    }
  }

  // ----- runs -----

  datatype Op =
    | PutOp(model: string, text: string, signature: string)
    | GetOp(model: string, text: string)
    | PurgeOp
    | ClearOp(model: string)

  type Timed = (Op, int)

  /** The times of the calls do not decrease. */
  predicate InOrder(clock: int, ops: seq<Timed>)
    decreases |ops|
  {
    ops == [] || (clock <= ops[0].1 && InOrder(ops[0].1, ops[1..]))
  }

  function Step(b: Buckets, op: Op, hash: string -> string, now: int): Buckets {
    match op
    case PutOp(model, text, signature) => Put(b, GetModelGroup(model), text, hash(text), signature, now)
    case GetOp(model, text) => Touch(b, GetModelGroup(model), text, hash(text), now)
    case PurgeOp => Sweep(b, now)
    case ClearOp(model) => Clear(b, model)
  }

  /** What a call answers: something only for a read. */
  function Answer(b: Buckets, op: Op, hash: string -> string, now: int): seq<string> {
    if op.GetOp? then [Read(b, GetModelGroup(op.model), op.text, hash(op.text), now)] else []
  }

  /** The answers of a run, in order. */
  function Answers(b: Buckets, ops: seq<Timed>, hash: string -> string): seq<string>
    decreases |ops|
  {
    if ops == [] then []
    else Answer(b, ops[0].0, hash, ops[0].1) + Answers(Step(b, ops[0].0, hash, ops[0].1), ops[1..], hash)
  }

  /** The flat table through a run: purges do nothing. */
  function FlatStep(f: Flat, op: Op, hash: string -> string, now: int): Flat {
    match op
    case PutOp(model, text, signature) => FlatPut(f, GetModelGroup(model), text, hash(text), signature, now)
    case GetOp(model, text) => FlatTouch(f, GetModelGroup(model), text, hash(text), now)
    case PurgeOp => f
    case ClearOp(model) => FlatClear(f, model)
  }

  function FlatAnswer(f: Flat, op: Op, hash: string -> string, now: int): seq<string> {
    if op.GetOp? then [FlatRead(f, GetModelGroup(op.model), op.text, hash(op.text), now)] else []
  }

  function FlatAnswers(f: Flat, ops: seq<Timed>, hash: string -> string): seq<string>
    decreases |ops|
  {
    if ops == [] then []
    else
      FlatAnswer(f, ops[0].0, hash, ops[0].1) + FlatAnswers(FlatStep(f, ops[0].0, hash, ops[0].1), ops[1..], hash)
  }

  lemma LaterRefines(b: Buckets, f: Flat, clock: int, now: int)
    requires Refines(b, f, clock) && clock <= now
    ensures Refines(b, f, now)
  {
  }

  lemma StepRefines(b: Buckets, f: Flat, clock: int, op: Op, hash: string -> string, now: int)
    requires Refines(b, f, clock) && clock <= now
    ensures Refines(Step(b, op, hash, now), FlatStep(f, op, hash, now), now)
    ensures Answer(b, op, hash, now) == FlatAnswer(f, op, hash, now)
  {
    hide Refines, Put, FlatPut, Touch, FlatTouch, Sweep, Clear, FlatClear, Read, FlatRead;
    match op
    case PutOp(model, text, signature) =>
      PutRefines(b, f, clock, GetModelGroup(model), text, hash(text), signature, now);
    case GetOp(model, text) => TouchRefines(b, f, clock, GetModelGroup(model), text, hash(text), now);
    case PurgeOp => SweepRefines(b, f, clock, now);
    case ClearOp(model) =>
      ClearRefines(b, f, clock, model);
      LaterRefines(Clear(b, model), FlatClear(f, model), clock, now);
  }

  /** In every run the buckets answer as the flat table they refine. */
  lemma {:induction false} RunRefines(b: Buckets, f: Flat, clock: int, ops: seq<Timed>, hash: string -> string)
    requires Refines(b, f, clock) && InOrder(clock, ops)
    ensures Answers(b, ops, hash) == FlatAnswers(f, ops, hash)
    decreases |ops|
  {
    hide Refines, Answer, FlatAnswer, Step, FlatStep;
    if ops == [] {
    } else {
      var op, now := ops[0].0, ops[0].1;
      StepRefines(b, f, clock, op, hash, now);
      RunRefines(Step(b, op, hash, now), FlatStep(f, op, hash, now), now, ops[1..], hash);
    }
  }

  function WithoutPurges(ops: seq<Timed>): seq<Timed> {
    if ops == [] then [] else (if ops[0].0.PurgeOp? then [] else [ops[0]]) + WithoutPurges(ops[1..])
  }

  lemma {:induction false} InOrderWithoutPurges(clock: int, ops: seq<Timed>)
    requires InOrder(clock, ops)
    ensures InOrder(clock, WithoutPurges(ops))
    decreases |ops|
  {
    if ops == [] {
    } else {
      InOrderWithoutPurges(ops[0].1, ops[1..]);
      if ops[0].0.PurgeOp? {
        assert WithoutPurges(ops) == WithoutPurges(ops[1..]);
        InOrderEarlier(clock, ops[0].1, WithoutPurges(ops));
      } else {
        assert WithoutPurges(ops)[1..] == WithoutPurges(ops[1..]);
      }
    }
  }

  lemma InOrderEarlier(t0: int, t1: int, ops: seq<Timed>)
    requires t0 <= t1 && InOrder(t1, ops)
    ensures InOrder(t0, ops)
  {
  }

  lemma {:induction false} FlatIgnoresPurges(f: Flat, ops: seq<Timed>, hash: string -> string)
    ensures FlatAnswers(f, ops, hash) == FlatAnswers(f, WithoutPurges(ops), hash)
    decreases |ops|
  {
    hide FlatPut, FlatTouch, FlatClear, FlatRead;
    if ops == [] {
    } else {
      var op := ops[0].0;
      FlatIgnoresPurges(FlatStep(f, op, hash, ops[0].1), ops[1..], hash);
      if op.PurgeOp? {
        assert WithoutPurges(ops) == WithoutPurges(ops[1..]);
      } else {
        assert WithoutPurges(ops) == [ops[0]] + WithoutPurges(ops[1..]);
        assert WithoutPurges(ops)[1..] == WithoutPurges(ops[1..]);
      }
    }
  }

  /** Two caches that hold the unexpired part of the same entries, one of them swept at any times during
      a run and the other never, answer every read alike. */
  lemma PurgesInvisible(b: Buckets, b': Buckets, f: Flat, clock: int, ops: seq<Timed>, hash: string -> string)
    requires Refines(b, f, clock) && Refines(b', f, clock) && InOrder(clock, ops)
    ensures Answers(b, ops, hash) == Answers(b', WithoutPurges(ops), hash)
  {
    RunRefines(b, f, clock, ops, hash);
    FlatIgnoresPurges(f, ops, hash);
    InOrderWithoutPurges(clock, ops);
    RunRefines(b', f, clock, WithoutPurges(ops), hash);
  }

  method Perform(store: SignatureStore, op: Op, now: int) returns (answer: seq<string>)
    requires store.Valid() && store.clock <= now
    modifies store
    ensures store.Valid() && store.clock <= now
    ensures answer == Answer(old(store.buckets), op, store.hash, now)
    ensures store.buckets == Step(old(store.buckets), op, store.hash, now)
    ensures store.flat == FlatStep(old(store.flat), op, store.hash, now)
  {
    hide Refines, Put, FlatPut, Touch, FlatTouch, Sweep, Clear, FlatClear, Read, FlatRead;
    StepRefines(store.buckets, store.flat, store.clock, op, store.hash, now);
    answer := [];
    match op {
      case PutOp(model, text, signature) => store.CacheSignature(model, text, signature, now);
      case GetOp(model, text) =>
        var signature := store.GetCachedSignature(model, text, now);
        answer := [signature];
      case PurgeOp => store.PurgeExpiredCaches(now);
      case ClearOp(model) => store.ClearSignatureCache(model);
    }
  }

  /** Any sequence of calls on the real cache answers as its buckets do, and so as the flat table does. */
  method Run(store: SignatureStore, ops: seq<Timed>) returns (answers: seq<string>)
    requires store.Valid() && InOrder(store.clock, ops)
    modifies store
    ensures store.Valid()
    ensures answers == Answers(old(store.buckets), ops, store.hash) == FlatAnswers(old(store.flat), ops, store.hash)
    decreases |ops|
  {
    hide Refines, Answer, FlatAnswer, Step, FlatStep;
    RunRefines(store.buckets, store.flat, store.clock, ops, store.hash);
    if ops == [] {
      return [];
    }
    var first := Perform(store, ops[0].0, ops[0].1);
    InOrderEarlier(store.clock, ops[0].1, ops[1..]);
    var rest := Run(store, ops[1..]);
    answers := first + rest;
  }
}
