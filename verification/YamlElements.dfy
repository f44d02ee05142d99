/** Which old element of a sequence a new one continues, by what its entries say; and what is left of it. */
module YamlElements {
  import opened Collections
  import opened Text
  import opened Yaml
  import opened YamlMerge

  // ----- the identity of a mapping -----

  /** Where a key stands among those that identify a mapping; 9 if it is none of them. */
  function Rank(k: string): nat {
    if k == "id" then 0 else if k == "name" then 1 else if k == "alias" then 2
    else if k == "api-key" then 3 else if k == "api_key" then 4 else if k == "apikey" then 5
    else if k == "key" then 6 else if k == "provider" then 7 else if k == "model" then 8 else 9
  }

  /** A scalar entry whose key reads k, blanks and case aside. */
  predicate Reads(e: Entry, k: string) {
    e.value.Scalar? && ToLower(TrimSpace(e.key)) == k
  }

  predicate HoldsAt(es: seq<Entry>, i: int, k: string, v: string) {
    && 0 <= i < |es| && Reads(es[i], k) && TrimSpace(es[i].value.value) == v
    && forall j :: 0 <= j < i ==> !Reads(es[j], k)
  }

  /** The first such entry holds v, which is not blank. */
  ghost predicate Holds(es: seq<Entry>, k: string, v: string) {
    v != "" && exists i :: HoldsAt(es, i, k, v)
  }

  predicate Speaks(e: Entry) {
    e.value.Scalar? && TrimSpace(e.value.value) != ""
  }

  predicate SaysAt(es: seq<Entry>, i: int, k: string, v: string) {
    && 0 <= i < |es| && Speaks(es[i])
    && ToLower(TrimSpace(es[i].key)) == k && TrimSpace(es[i].value.value) == v
    && forall j :: 0 <= j < i ==> !Speaks(es[j])
  }

  /** The first entry that says anything says that k is v. */
  ghost predicate SaysFirst(es: seq<Entry>, k: string, v: string) {
    exists i :: SaysAt(es, i, k, v)
  }

  /** A mapping is identified by the foremost identifying key that it holds, else by what it says first. */
  ghost predicate Identified(es: seq<Entry>, k: string, v: string) {
    if exists l, w :: Rank(l) < 9 && Holds(es, l, w) then
      Rank(k) < 9 && Holds(es, k, v) && forall l, w :: Rank(l) < Rank(k) ==> !Holds(es, l, w)
    else SaysFirst(es, k, v)
  }

  lemma {:induction false} ScalarValueExactly(es: seq<Entry>, k: string, v: string)
    requires ToLower(k) == k && v != ""
    ensures MappingScalarValue(es, k) == v <==> Holds(es, k, v)
  {
    if es == [] {
    } else {
      var e, rest := es[0], es[1..];
      assert es == [e] + rest;
      ScalarValueExactly(rest, k, v);
      if Reads(e, k) {
        assert TrimSpace(e.value.value) == v ==> HoldsAt(es, 0, k, v);
      } else {
        HoldsLater(e, rest, k, v);
      }
    }
  }

  lemma HoldsLater(e: Entry, rest: seq<Entry>, k: string, v: string)
    requires !Reads(e, k)
    ensures Holds([e] + rest, k, v) <==> Holds(rest, k, v)
  {
    hide Reads;
    var es := [e] + rest;
    assert es[0] == e && forall j :: 0 <= j < |rest| ==> es[j + 1] == rest[j];
    if i :| HoldsAt(es, i, k, v) {
      forall j | 0 <= j < i - 1 ensures !Reads(rest[j], k) {
        assert rest[j] == es[j + 1];
      }
      assert rest[i - 1] == es[i] && HoldsAt(rest, i - 1, k, v);
    }
    if i :| HoldsAt(rest, i, k, v) {
      assert HoldsAt(es, i + 1, k, v);
    }
  }

  lemma {:induction false} FirstScalarExactly(es: seq<Entry>)
    ensures FirstScalarIdentity(es) == "" <==> forall i :: 0 <= i < |es| ==> !Speaks(es[i])
    ensures forall k, v :: SaysFirst(es, k, v) ==> FirstScalarIdentity(es) == k + "=" + v && v != ""
    ensures FirstScalarIdentity(es) != "" ==> exists k, v :: SaysFirst(es, k, v)
  {
    if es == [] {
    } else if Speaks(es[0]) {
      var k, v := ToLower(TrimSpace(es[0].key)), TrimSpace(es[0].value.value);
      assert SaysAt(es, 0, k, v);
      assert SaysFirst(es, k, v);
    } else {
      FirstScalarExactly(es[1..]);
      assert es == [es[0]] + es[1..];
      forall k, v ensures SaysFirst(es, k, v) <==> SaysFirst(es[1..], k, v) {
        SaysLater(es[0], es[1..], k, v);
      }
    }
  }

  lemma SaysLater(e: Entry, rest: seq<Entry>, k: string, v: string)
    requires !Speaks(e)
    ensures SaysFirst([e] + rest, k, v) <==> SaysFirst(rest, k, v)
  {
    hide Speaks;
    var es := [e] + rest;
    assert es[0] == e && forall j :: 0 <= j < |rest| ==> es[j + 1] == rest[j];
    if i :| SaysAt(es, i, k, v) {
      forall j | 0 <= j < i - 1 ensures !Speaks(rest[j]) {
        assert rest[j] == es[j + 1];
      }
      assert rest[i - 1] == es[i] && SaysAt(rest, i - 1, k, v);
    }
    if i :| SaysAt(rest, i, k, v) {
      assert SaysAt(es, i + 1, k, v);
    }
  }

  /** The place of the first of the keys that the mapping holds, or their number. */
  function FirstHeld(es: seq<Entry>, keys: seq<string>): (n: nat)
    ensures n <= |keys|
  {
    if keys == [] || MappingScalarValue(es, keys[0]) != "" then 0 else 1 + FirstHeld(es, keys[1..])
  }

  lemma {:induction false} KeyIdentityExactly(es: seq<Entry>, keys: seq<string>)
    ensures var n := FirstHeld(es, keys);
      && (forall i :: 0 <= i < n ==> MappingScalarValue(es, keys[i]) == "")
      && (n < |keys| ==> MappingScalarValue(es, keys[n]) != "")
      && KeyIdentity(es, keys) == if n < |keys| then keys[n] + "=" + MappingScalarValue(es, keys[n]) else ""
  {
    if keys != [] && MappingScalarValue(es, keys[0]) == "" {
      KeyIdentityExactly(es, keys[1..]);
    }
  }

  lemma Ranks(i: nat)
    requires i < 9
    ensures |IDENTITY_KEYS| == 9 && Rank(IDENTITY_KEYS[i]) == i
    ensures forall k :: Rank(k) == i ==> k == IDENTITY_KEYS[i]
  {
  }

  lemma LowerFixed(k: string)
    requires forall j :: 0 <= j < |k| ==> !('A' <= k[j] <= 'Z')
    ensures ToLower(k) == k
  {
    LowerPoints(k);
  }

  lemma LowerShortNames()
    ensures ToLower("id") == "id" && ToLower("name") == "name" && ToLower("alias") == "alias"
    ensures ToLower("key") == "key" && ToLower("model") == "model"
  {
    LowerFixed("id");
    LowerFixed("name");
    LowerFixed("alias");
    LowerFixed("key");
    LowerFixed("model");
  }

  lemma LowerDashed()
    ensures ToLower("api-key") == "api-key" && ToLower("api_key") == "api_key"
  {
    LowerFixed("api-key");
    LowerFixed("api_key");
  }

  lemma LowerLongNames()
    ensures ToLower("apikey") == "apikey" && ToLower("provider") == "provider"
  {
    LowerFixed("apikey");
    LowerFixed("provider");
  }

  lemma LowerNames(i: nat)
    requires i < 9
    ensures ToLower(IDENTITY_KEYS[i]) == IDENTITY_KEYS[i]
  {
    LowerShortNames();
    LowerDashed();
    LowerLongNames();
    hide ToLower;
  }

  lemma HeldExactly(es: seq<Entry>, k: string, v: string)
    requires Rank(k) < 9 && v != ""
    ensures MappingScalarValue(es, k) == v <==> Holds(es, k, v)
  {
    Ranks(Rank(k));
    LowerNames(Rank(k));
    ScalarValueExactly(es, k, v);
  }

  /** The identity of a mapping is what identifies it, and empty if nothing does. */
  lemma IdentityExactly(tag: string, es: seq<Entry>)
    ensures forall k, v :: Identified(es, k, v) ==> Identity(Mapping(tag, es)) == k + "=" + v
    ensures Identity(Mapping(tag, es)) != "" ==> exists k, v :: Identified(es, k, v)
  {
    var n := FirstHeld(es, IDENTITY_KEYS);
    KeyIdentityExactly(es, IDENTITY_KEYS);
    FirstScalarExactly(es);
    Ranks(0);
    if n < 9 {
      ByKey(es, n);
    } else {
      forall l, w | Rank(l) < 9 ensures !Holds(es, l, w) {
        Ranks(Rank(l));
        if w != "" { HeldExactly(es, l, w); }
      }
      if Identity(Mapping(tag, es)) != "" {
        var k, v :| SaysFirst(es, k, v);
        assert Identified(es, k, v);
      }
    }
  }

  lemma ByKey(es: seq<Entry>, n: nat)
    requires n < 9 && n == FirstHeld(es, IDENTITY_KEYS) && |IDENTITY_KEYS| == 9
    ensures Identified(es, IDENTITY_KEYS[n], MappingScalarValue(es, IDENTITY_KEYS[n]))
    ensures forall k, v :: Identified(es, k, v) ==>
      k == IDENTITY_KEYS[n] && v == MappingScalarValue(es, IDENTITY_KEYS[n])
  {
    var key, value := IDENTITY_KEYS[n], MappingScalarValue(es, IDENTITY_KEYS[n]);
    KeyIdentityExactly(es, IDENTITY_KEYS);
    Ranks(n);
    HeldExactly(es, key, value);
    forall l, w | Rank(l) < n ensures !Holds(es, l, w) {
      Ranks(Rank(l));
      if w != "" { HeldExactly(es, l, w); }
    }
    forall k, v | Identified(es, k, v) ensures k == key && v == value {
      assert Rank(key) < 9 && Holds(es, key, value);
      assert Rank(k) == n;
      HeldExactly(es, k, v);
    }
  }

  lemma OneEquals(k: string, v: string, l: string, w: string)
    requires '=' !in k && '=' !in l && k + "=" + v == l + "=" + w
    ensures k == l && v == w
  {
    var s, t := k + "=" + v, l + "=" + w;
    assert s[|k|] == '=' && t[|l|] == '=';
    assert forall i :: 0 <= i < |k| ==> s[i] == k[i];
    assert forall i :: 0 <= i < |l| ==> t[i] == l[i];
    assert k == s[..|k|] && l == t[..|l|] && v == s[|k| + 1..] && w == t[|l| + 1..];
  }

  /** Identified mappings have the same identity exactly if key and value together read the same, and, where
      no key contains "=", exactly if they are the same. */
  lemma SameIdentity(a: Node, b: Node, k: string, v: string, l: string, w: string)
    requires a.Mapping? && b.Mapping? && Identified(a.entries, k, v) && Identified(b.entries, l, w)
    ensures SameElement(a, b) <==> k + "=" + v == l + "=" + w
    ensures '=' !in k && '=' !in l ==> (SameElement(a, b) <==> k == l && v == w)
  {
    IdentityExactly(a.tag, a.entries);
    IdentityExactly(b.tag, b.entries);
    if '=' !in k && '=' !in l && k + "=" + v == l + "=" + w {
      OneEquals(k, v, l, w);
    }
  }

  /** A mapping that nothing identifies is the same element as none. */
  lemma NoIdentity(a: Node, b: Node)
    requires b.Mapping? && forall k, v :: !Identified(b.entries, k, v)
    ensures !SameElement(a, b)
  {
    IdentityExactly(b.tag, b.entries);
  }

  function Single(key: string, value: string): Node {
    Mapping("!!map", [Entry(key, Scalar("!!str", value))])
  }

  lemma SingleIdentified(key: string, value: string, k: string)
    requires TrimSpace(key) == key && TrimSpace(value) == value != "" && ToLower(key) == k && Rank(k) == 9
    ensures Identified(Single(key, value).entries, k, value)
  {
    var es := Single(key, value).entries;
    forall l, w | Rank(l) < 9 ensures !Holds(es, l, w) {
      assert forall i :: 0 <= i < |es| ==> !Reads(es[i], l);
    }
    assert SaysAt(es, 0, k, value);
  }

  /** With such a key different mappings pass for the same: "a=b" holding "c", and "a" holding "b=c". */
  lemma EqualsConfuses()
    ensures SameElement(Single("a=b", "c"), Single("a", "b=c"))
  {
    TrimFixed("a=b");
    TrimFixed("b=c");
    TrimFixed("a");
    TrimFixed("c");
    LowerFixed("a=b");
    LowerFixed("a");
    hide TrimSpace, ToLower, Identified, SameElement;
    SingleIdentified("a=b", "c", "a=b");
    SingleIdentified("a", "b=c", "a");
    assert "a=b" + "=" + "c" == "a" + "=" + "b=c";
    SameIdentity(Single("a=b", "c"), Single("a", "b=c"), "a=b", "c", "a", "b=c");
  }

  // ----- the same structure -----

  /** A tree without tags, and without the blanks around keys and values. */
  function Stripped(n: Node): Node {
    match n
    case Scalar(_, value) => Scalar("", TrimSpace(value))
    case Mapping(_, es) =>
      Mapping("", seq(|es|, i requires 0 <= i < |es| => Entry(TrimSpace(es[i].key), Stripped(es[i].value))))
    case Sequence(_, xs) => Sequence("", seq(|xs|, i requires 0 <= i < |xs| => Stripped(xs[i])))
    case Document(_) => Document([])
    case Unset => Unset
  }

  /** Trees have the same structure exactly if they are the same when stripped. */
  lemma {:induction false} StructureExactly(a: Node, b: Node)
    ensures StructurallyEqual(a, b) <==> Stripped(a) == Stripped(b)
    decreases a
  {
    match a
    case Mapping(_, es) =>
      if b.Mapping? && |b.entries| == |es| {
        forall i | 0 <= i < |es|
          ensures StructurallyEqual(es[i].value, b.entries[i].value) <==>
            Stripped(es[i].value) == Stripped(b.entries[i].value)
        {
          StructureExactly(es[i].value, b.entries[i].value);
        }
        SameEntries(es, b.entries, a.tag, b.tag);
      } else if b.Mapping? {
        assert |Stripped(a).entries| != |Stripped(b).entries|;
      }
    case Sequence(_, xs) =>
      if b.Sequence? && |b.elements| == |xs| {
        forall i | 0 <= i < |xs|
          ensures StructurallyEqual(xs[i], b.elements[i]) <==> Stripped(xs[i]) == Stripped(b.elements[i])
        {
          StructureExactly(xs[i], b.elements[i]);
        }
        SameElements(xs, b.elements, a.tag, b.tag);
      } else if b.Sequence? {
        assert |Stripped(a).elements| != |Stripped(b).elements|;
      }
    case _ =>
  }

  lemma SameEntries(xs: seq<Entry>, ys: seq<Entry>, s: string, t: string)
    requires |xs| == |ys|
    ensures Stripped(Mapping(s, xs)) == Stripped(Mapping(t, ys)) <==>
      forall i :: 0 <= i < |xs| ==>
        TrimSpace(xs[i].key) == TrimSpace(ys[i].key) && Stripped(xs[i].value) == Stripped(ys[i].value)
  {
    var a, b := Stripped(Mapping(s, xs)).entries, Stripped(Mapping(t, ys)).entries;
    assert forall i :: 0 <= i < |xs| ==> a[i] == Entry(TrimSpace(xs[i].key), Stripped(xs[i].value));
    assert forall i :: 0 <= i < |ys| ==> b[i] == Entry(TrimSpace(ys[i].key), Stripped(ys[i].value));
    if a == b {
      forall i | 0 <= i < |xs|
        ensures TrimSpace(xs[i].key) == TrimSpace(ys[i].key) && Stripped(xs[i].value) == Stripped(ys[i].value)
      {
        assert a[i] == b[i];
      }
    }
  }

  lemma SameElements(xs: seq<Node>, ys: seq<Node>, s: string, t: string)
    requires |xs| == |ys|
    ensures Stripped(Sequence(s, xs)) == Stripped(Sequence(t, ys)) <==>
      forall i :: 0 <= i < |xs| ==> Stripped(xs[i]) == Stripped(ys[i])
  {
    var a, b := Stripped(Sequence(s, xs)).elements, Stripped(Sequence(t, ys)).elements;
    assert forall i :: 0 <= i < |xs| ==> a[i] == Stripped(xs[i]);
    assert forall i :: 0 <= i < |ys| ==> b[i] == Stripped(ys[i]);
    if a == b {
      forall i | 0 <= i < |xs| ensures Stripped(xs[i]) == Stripped(ys[i]) {
        assert a[i] == b[i];
      }
    }
  }

  // ----- the choice -----

  predicate SameScalar(a: Node, b: Node) {
    a.Scalar? && b.Scalar? && TrimSpace(b.value) != "" && TrimSpace(a.value) == TrimSpace(b.value)
  }

  ghost predicate SameMapping(a: Node, b: Node) {
    a.Mapping? && b.Mapping? &&
    exists k, v, l, w :: Identified(a.entries, k, v) && Identified(b.entries, l, w) && k + "=" + v == l + "=" + w
  }

  /** An element is known again by its value or by what identifies it. */
  lemma SameExactly(a: Node, b: Node)
    ensures SameElement(a, b) <==> SameScalar(a, b) || SameMapping(a, b)
  {
    if a.Mapping? && b.Mapping? {
      IdentityExactly(a.tag, a.entries);
      IdentityExactly(b.tag, b.entries);
      if SameElement(a, b) {
        var k, v :| Identified(a.entries, k, v);
        var l, w :| Identified(b.entries, l, w);
        assert k + "=" + v == l + "=" + w;
      }
    }
  }

  /** The old element j is not continued by an element before. */
  predicate Open(original: seq<Node>, before: seq<Option<nat>>, j: nat) {
    j < |original| && Some(j) !in before
  }

  /** A new element continues the first open old one that it is known as, otherwise the first open one of
      the same structure, otherwise none. */
  ghost predicate Chosen(original: seq<Node>, before: seq<Option<nat>>, pick: Option<nat>, x: Node) {
    if exists j: nat :: Open(original, before, j) && (SameScalar(original[j], x) || SameMapping(original[j], x)) then
      pick.Some? && Open(original, before, pick.value) &&
      (SameScalar(original[pick.value], x) || SameMapping(original[pick.value], x)) &&
      forall j: nat :: j < pick.value && Open(original, before, j) ==>
        !SameScalar(original[j], x) && !SameMapping(original[j], x)
    else if exists j: nat :: Open(original, before, j) && Stripped(original[j]) == Stripped(x) then
      pick.Some? && Open(original, before, pick.value) && Stripped(original[pick.value]) == Stripped(x) &&
      forall j: nat :: j < pick.value && Open(original, before, j) ==> Stripped(original[j]) != Stripped(x)
    else pick.None?
  }

  lemma UsedExactly(before: seq<Option<nat>>, j: nat)
    ensures j in Used(before) <==> Some(j) in before
  {
    if Some(j) in before {
      var i :| 0 <= i < |before| && before[i] == Some(j);
      assert before[i].Some? && before[i].value == j;
    }
  }

  lemma MatchChosen(original: seq<Node>, before: seq<Option<nat>>, x: Node)
    ensures Chosen(original, before, Match(original, Used(before), x), x)
  {
    forall j: nat ensures j in Used(before) <==> Some(j) in before {
      UsedExactly(before, j);
    }
    forall j: nat | j < |original|
      ensures SameElement(original[j], x) <==> SameScalar(original[j], x) || SameMapping(original[j], x)
      ensures StructurallyEqual(original[j], x) <==> Stripped(original[j]) == Stripped(x)
    {
      SameExactly(original[j], x);
      StructureExactly(original[j], x);
    }
    MatchedFirst(original, before, x);
  }

  lemma MatchedFirst(original: seq<Node>, before: seq<Option<nat>>, x: Node)
    requires forall j: nat :: j in Used(before) <==> Some(j) in before
    requires forall j: nat :: j < |original| ==>
      (SameElement(original[j], x) <==> SameScalar(original[j], x) || SameMapping(original[j], x))
    requires forall j: nat :: j < |original| ==>
      (StructurallyEqual(original[j], x) <==> Stripped(original[j]) == Stripped(x))
    ensures Chosen(original, before, Match(original, Used(before), x), x)
  {
    hide SameElement, SameScalar, SameMapping, StructurallyEqual, Stripped, Used;
  }

  /** Every element of the new sequence is placed so, one after the other. */
  lemma {:induction false} PicksChosen(original: seq<Node>, target: seq<Node>, k: nat, i: nat)
    requires i < k <= |target|
    ensures Chosen(original, Picks(original, target, k)[..i], Picks(original, target, k)[i], target[i])
    decreases k
  {
    hide Chosen, Match;
    var before := Picks(original, target, k - 1);
    assert Picks(original, target, k)[..i] == before[..i];
    if i < k - 1 {
      PicksChosen(original, target, k - 1, i);
    } else {
      assert before[..i] == before;
      MatchChosen(original, before, target[i]);
    }
  }

  // ----- what is left of the old element -----

  /** A mapping built on an old one has no key beyond those of the new one, blanks aside, and no blank key. */
  lemma ElementKeysExactly(original: seq<Node>, pick: Option<nat>, x: Node, path: Path, key: string)
    requires pick.Some? && pick.value < |original| && x.Mapping?
    ensures var r := MergedElement(original, pick, x, path);
      r.Mapping? && (ValueAt(r.entries, key).Some? ==>
        TrimSpace(key) != "" && exists i :: 0 <= i < |x.entries| && TrimSpace(x.entries[i].key) == TrimSpace(key))
  {
    var was := original[pick.value];
    var merged := Merged(was, x, path);
    assert merged == MergedMapping(if was.Mapping? then was else x, x, path);
    KeptLookup(merged.entries, x.entries, |merged.entries|, key);
  }
}
