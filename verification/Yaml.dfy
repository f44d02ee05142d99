/** YAML trees of configuration files, the values that count as defaults, and how elements of a sequence
    are recognised again. */
module Yaml {
  import opened Collections
  import opened Text

  datatype Entry = Entry(key: string, value: Node)

  /** The kinds of a YAML node; Document stands for any kind the merge only copies, Unset for kind 0. */
  datatype Node =
    | Scalar(tag: string, value: string)
    | Mapping(tag: string, entries: seq<Entry>)
    | Sequence(tag: string, elements: seq<Node>)
    | Document(content: seq<Node>)
    | Unset

  type Path = seq<string>

  // ----- keys -----

  /** The first entry with the key. */
  function FindKey(es: seq<Entry>, key: string): (r: Option<nat>)
    ensures r.Some? ==> r.value < |es| && es[r.value].key == key && forall i :: 0 <= i < r.value ==> es[i].key != key
    ensures r.None? ==> forall i :: 0 <= i < |es| ==> es[i].key != key
  {
    if es == [] then None
    else
      var r := FindKey(es[..|es| - 1], key);
      if r.Some? then r else if es[|es| - 1].key == key then Some(|es| - 1) else None
  }

  function ValueAt(es: seq<Entry>, key: string): Option<Node> {
    var r := FindKey(es, key);
    if r.Some? then Some(es[r.value].value) else None
  }

  predicate UniqueKeys(es: seq<Entry>) {
    forall i, j :: 0 <= i < j < |es| ==> es[i].key != es[j].key
  }

  /** No mapping in the tree has a key twice. */
  predicate Unique(n: Node) {
    match n
    case Mapping(_, es) => UniqueKeys(es) && forall i :: 0 <= i < |es| ==> Unique(es[i].value)
    case Sequence(_, xs) => forall i :: 0 <= i < |xs| ==> Unique(xs[i])
    case _ => true
  }

  // ----- defaults -----

  function Join(path: Path): string {
    if path == [] then "" else if |path| == 1 then path[0] else path[0] + "." + Join(path[1..])
  }

  predicate ZeroScalar(tag: string, value: string) {
    if tag == "!!bool" then value == "false"
    else if tag == "!!int" || tag == "!!float" then value == "0" || value == "0.0"
    else if tag == "!!str" then value == ""
    else tag == "!!null"
  }

  predicate DefaultScalar(path: Path, tag: string, value: string) {
    var full := Join(path);
    || (tag == "!!str" && full == "pprof.addr" && value == "127.0.0.1:8316")
    || (tag == "!!str" && full == "remote-management.panel-github-repository"
        && value == "https://github.com/router-for-me/Cli-Proxy-API-Management-Center")
    || (tag == "!!str" && full == "routing.strategy" && value == "round-robin")
    || (tag == "!!int" && full == "error-logs-max-files" && value == "10")
  }

  predicate IsZero(n: Node) {
    match n
    case Scalar(tag, value) => ZeroScalar(tag, value)
    case Mapping(_, es) => forall i :: 0 <= i < |es| ==> IsZero(es[i].value)
    case Sequence(_, xs) => forall i :: 0 <= i < |xs| ==> IsZero(xs[i])
    case _ => false
  }

  predicate IsKnownDefault(path: Path, n: Node) {
    IsZero(n) || (path != [] && n.Scalar? && DefaultScalar(path, n.tag, n.value))
  }

  predicate IsEmptyCollection(n: Node) {
    (n.Mapping? && n.entries == []) || (n.Sequence? && n.elements == [])
  }

  /** A node without its default-valued descendants. */
  function Pruned(path: Path, n: Node): (r: Node)
    ensures n.Scalar? || n.Document? || n.Unset? ==> r == n
    ensures n.Mapping? ==> r.Mapping?
    ensures n.Sequence? ==> r.Sequence? && |r.elements| == |n.elements|
    decreases n, 1, 0
  {
    match n
    case Mapping(tag, es) => Mapping(tag, PrunedEntries(path, n, |es|))
    case Sequence(tag, xs) => Sequence(tag, seq(|xs|, i requires 0 <= i < |xs| => Pruned(path, xs[i])))
    case _ => n
  }

  /** An entry stays unless its value is a default or nothing is left of it. */
  predicate Stays(path: Path, e: Entry)
    decreases e, 2, 0
  {
    !IsKnownDefault(path + [e.key], e.value) && !IsEmptyCollection(Pruned(path + [e.key], e.value))
  }

  function PrunedEntries(path: Path, n: Node, k: nat): seq<Entry>
    requires n.Mapping? && k <= |n.entries|
    decreases n, 0, k
  {
    if k == 0 then []
    else
      var before, e := PrunedEntries(path, n, k - 1), n.entries[k - 1];
      if Stays(path, e) then before + [Entry(e.key, Pruned(path + [e.key], e.value))] else before
  }

  // ----- elements of sequences -----

  const IDENTITY_KEYS := ["id", "name", "alias", "api-key", "api_key", "apikey", "key", "provider", "model"]

  /** The value of the first scalar entry whose key reads as the given one, blanks and case aside. */
  function MappingScalarValue(es: seq<Entry>, key: string): string {
    if es == [] then ""
    else if es[0].value.Scalar? && ToLower(TrimSpace(es[0].key)) == ToLower(key) then TrimSpace(es[0].value.value)
    else MappingScalarValue(es[1..], key)
  }

  function KeyIdentity(es: seq<Entry>, keys: seq<string>): string {
    if keys == [] then ""
    else if MappingScalarValue(es, keys[0]) != "" then keys[0] + "=" + MappingScalarValue(es, keys[0])
    else KeyIdentity(es, keys[1..])
  }

  function FirstScalarIdentity(es: seq<Entry>): string {
    if es == [] then ""
    else if es[0].value.Scalar? && TrimSpace(es[0].value.value) != "" then
      ToLower(TrimSpace(es[0].key)) + "=" + TrimSpace(es[0].value.value)
    else FirstScalarIdentity(es[1..])
  }

  function Identity(n: Node): string {
    if !n.Mapping? then ""
    else if KeyIdentity(n.entries, IDENTITY_KEYS) != "" then KeyIdentity(n.entries, IDENTITY_KEYS)
    else FirstScalarIdentity(n.entries)
  }

  predicate StructurallyEqual(a: Node, b: Node) {
    match a
    case Mapping(_, es) =>
      b.Mapping? && |es| == |b.entries| &&
      forall i :: 0 <= i < |es| ==>
        TrimSpace(es[i].key) == TrimSpace(b.entries[i].key) && StructurallyEqual(es[i].value, b.entries[i].value)
    case Sequence(_, xs) =>
      b.Sequence? && |xs| == |b.elements| && forall i :: 0 <= i < |xs| ==> StructurallyEqual(xs[i], b.elements[i])
    case Scalar(_, value) => b.Scalar? && TrimSpace(value) == TrimSpace(b.value)
    case Document(_) => b.Document?
    case Unset => b.Unset?
  }

  /** By identity for mappings, by value for scalars. */
  predicate SameElement(a: Node, target: Node) {
    if target.Mapping? then a.Mapping? && Identity(target) != "" && Identity(a) == Identity(target)
    else if target.Scalar? then a.Scalar? && TrimSpace(target.value) != "" &&
      TrimSpace(a.value) == TrimSpace(target.value)
    else false
  }

  function FirstSame(original: seq<Node>, used: set<nat>, target: Node, from: nat): (r: Option<nat>)
    requires from <= |original|
    ensures r.Some? ==> from <= r.value < |original| && r.value !in used && SameElement(original[r.value], target)
    ensures r.Some? ==> forall i :: from <= i < r.value ==> i in used || !SameElement(original[i], target)
    ensures r.None? ==> forall i :: from <= i < |original| ==> i in used || !SameElement(original[i], target)
    decreases |original| - from
  {
    if from == |original| then None
    else if from !in used && SameElement(original[from], target) then Some(from)
    else FirstSame(original, used, target, from + 1)
  }

  function FirstEqual(original: seq<Node>, used: set<nat>, target: Node, from: nat): (r: Option<nat>)
    requires from <= |original|
    ensures r.Some? ==> from <= r.value < |original| && r.value !in used && StructurallyEqual(original[r.value], target)
    ensures r.Some? ==> forall i :: from <= i < r.value ==> i in used || !StructurallyEqual(original[i], target)
    ensures r.None? ==> forall i :: from <= i < |original| ==> i in used || !StructurallyEqual(original[i], target)
    decreases |original| - from
  {
    if from == |original| then None
    else if from !in used && StructurallyEqual(original[from], target) then Some(from)
    else FirstEqual(original, used, target, from + 1)
  }

  /** The unused element that an element of the new sequence continues, if any. */
  function Match(original: seq<Node>, used: set<nat>, target: Node): (r: Option<nat>)
    ensures r.Some? ==> r.value < |original| && r.value !in used
  {
    var same := FirstSame(original, used, target, 0);
    if same.Some? then same else FirstEqual(original, used, target, 0)
  }

  function Used(picks: seq<Option<nat>>): set<nat> {
    set i | 0 <= i < |picks| && picks[i].Some? :: picks[i].value
  }

  /** For each of the first k new elements, the old one it continues. */
  function Picks(original: seq<Node>, target: seq<Node>, k: nat): (r: seq<Option<nat>>)
    requires k <= |target|
    ensures |r| == k
    ensures forall i :: 0 <= i < k && r[i].Some? ==> r[i].value < |original|
  {
    if k == 0 then []
    else
      var before := Picks(original, target, k - 1);
      before + [Match(original, Used(before), target[k - 1])]
  }

  /** No old element is put in two places. */
  lemma {:induction false} PicksDistinct(original: seq<Node>, target: seq<Node>, k: nat)
    requires k <= |target|
    ensures forall i, j :: 0 <= i < j < k && Picks(original, target, k)[i].Some? ==>
      Picks(original, target, k)[i] != Picks(original, target, k)[j]
    decreases k
  {
    if k == 0 {
    } else {
      PicksDistinct(original, target, k - 1);
      var before := Picks(original, target, k - 1);
      forall i | 0 <= i < k - 1 && before[i].Some? ensures before[i] != Match(original, Used(before), target[k - 1]) {
        assert before[i].value in Used(before);
      }
    }
  }

  predicate Matches(a: Node, target: Node) {
    SameElement(a, target) || StructurallyEqual(a, target)
  }

  /** An element continues an old one that it matches, and none only if all that it matches are taken. */
  ghost predicate Greedy(original: seq<Node>, before: seq<Option<nat>>, pick: Option<nat>, target: Node) {
    && (pick.Some? ==> pick.value < |original| && Matches(original[pick.value], target))
    && (pick.None? ==> forall j: nat :: j < |original| && Matches(original[j], target) ==> Some(j) in before)
  }

  lemma MatchGreedy(original: seq<Node>, before: seq<Option<nat>>, target: Node)
    ensures Greedy(original, before, Match(original, Used(before), target), target)
  {
    forall j: nat | j in Used(before) ensures Some(j) in before {}
  }

  lemma {:induction false} PicksGreedy(original: seq<Node>, target: seq<Node>, k: nat, i: nat)
    requires i < k <= |target|
    ensures Greedy(original, Picks(original, target, k)[..i], Picks(original, target, k)[i], target[i])
    decreases k
  {
    hide Greedy, Match;
    var before := Picks(original, target, k - 1);
    assert Picks(original, target, k)[..i] == before[..i];
    if i < k - 1 {
      PicksGreedy(original, target, k - 1, i);
    } else {
      assert before[..i] == before;
      MatchGreedy(original, before, target[i]);
    }
  }
}
