/** The merge of a newly written configuration into the existing file's tree, and what it promises. */
module YamlMerge {
  import opened Collections
  import opened Text
  import opened Yaml
  import opened YamlDefaults

  // ----- the merge -----

  predicate Keeps(src: seq<Entry>, key: string) {
    TrimSpace(key) != "" && exists i :: 0 <= i < |src| && TrimSpace(src[i].key) == TrimSpace(key)
  }

  /** The first k entries without those whose key, blanks aside, the new mapping lacks. */
  function KeptEntries(dst: seq<Entry>, src: seq<Entry>, k: nat): seq<Entry>
    requires k <= |dst|
  {
    if k == 0 then []
    else if Keeps(src, dst[k - 1].key) then KeptEntries(dst, src, k - 1) + [dst[k - 1]]
    else KeptEntries(dst, src, k - 1)
  }

  function PruneMissing(dst: Node, src: Node): Node {
    if dst.Mapping? && src.Mapping? then dst.(entries := KeptEntries(dst.entries, src.entries, |dst.entries|)) else dst
  }

  function Merged(dst: Node, src: Node, path: Path): Node
    decreases src, 4, 0
  {
    match src
    case Mapping(_, _) => if dst.Mapping? then MergedMapping(dst, src, path) else MergedMapping(src, src, path)
    case Sequence(_, _) =>
      if dst.Scalar? && dst.tag == "!!null" && src.elements == [] then dst
      else
        var base := if dst.Sequence? then dst else Sequence("!!seq", []);
        base.(elements := MergedElements(base.elements, src, path))
    case Scalar(_, _) => src
    case Document(_) => src
    case Unset => dst
  }

  function MergedMapping(dst: Node, src: Node, path: Path): Node
    decreases src, 3, 0
  {
    if dst.Mapping? && src.Mapping? then dst.(entries := MergedEntries(dst.entries, src, path, |src.entries|)) else src
  }

  /** The entries after the first k new ones have been merged in. */
  function MergedEntries(dst: seq<Entry>, src: Node, path: Path, k: nat): seq<Entry>
    requires src.Mapping? && k <= |src.entries|
    decreases src, 2, k
  {
    if k == 0 then dst
    else MergedEntry(MergedEntries(dst, src, path, k - 1), src.entries[k - 1], path)
  }

  function MergedEntry(dst: seq<Entry>, e: Entry, path: Path): seq<Entry>
    decreases e, 5, 0
  {
    var at, below := FindKey(dst, e.key), path + [e.key];
    if at.Some? then dst[at.value := Entry(dst[at.value].key, Merged(dst[at.value].value, e.value, below))]
    else if IsKnownDefault(below, Pruned(below, e.value)) then dst
    else dst + [Entry(e.key, Pruned(below, e.value))]
  }

  /** The new sequence, each element built on the old one it continues. */
  function MergedElements(original: seq<Node>, src: Node, path: Path): (r: seq<Node>)
    requires src.Sequence?
    ensures |r| == |src.elements|
    decreases src, 3, 0
  {
    if original == [] then src.elements
    else
      var picks := Picks(original, src.elements, |src.elements|);
      seq(|src.elements|, i requires 0 <= i < |src.elements| =>
        MergedElement(original, picks[i], src.elements[i], path))
  }

  function MergedElement(original: seq<Node>, pick: Option<nat>, x: Node, path: Path): Node
    requires pick.Some? ==> pick.value < |original|
    decreases x, 5, 0
  {
    if pick.None? then x else PruneMissing(Merged(original[pick.value], x, path), x)
  }

  // ----- what the result owes to the new configuration -----

  /** Every leaf is one of the written-out defaults where it stands. */
  predicate AllDefault(path: Path, n: Node)
    decreases n
  {
    match n
    case Scalar(tag, value) => DefaultLeaf(path, tag, value)
    case Mapping(_, es) => forall i :: 0 <= i < |es| ==> AllDefault(path + [es[i].key], es[i].value)
    case Sequence(_, xs) => forall i :: 0 <= i < |xs| ==> AllDefault(path, xs[i])
    case _ => false
  }

  /** Equal scalars, sequences agreeing element by element (null for an empty one), and of each new
      mapping entry either an agreeing value or, if all of it is default, none. */
  predicate Agrees(d: Node, s: Node, path: Path)
    decreases s
  {
    match s
    case Scalar(_, _) => d == s
    case Sequence(_, xs) =>
      || (d.Scalar? && d.tag == "!!null" && xs == [])
      || (d.Sequence? && |d.elements| == |xs| && forall i :: 0 <= i < |xs| ==> Agrees(d.elements[i], xs[i], path))
    case Mapping(_, es) =>
      d.Mapping? && forall i :: 0 <= i < |es| ==> AgreesAt(d.entries, es[i], path)
    case Document(_) => d == s
    case Unset => true
  }

  predicate AgreesAt(d: seq<Entry>, e: Entry, path: Path)
    decreases e
  {
    var v := ValueAt(d, e.key);
    if v.Some? then Agrees(v.value, e.value, path + [e.key]) else AllDefault(path + [e.key], e.value)
  }

  // ----- dropped values are defaults -----

  lemma {:induction false} ZeroIsDefault(path: Path, n: Node)
    requires IsZero(n)
    ensures AllDefault(path, n)
    decreases n
  {
    match n
    case Mapping(_, es) =>
      forall i | 0 <= i < |es| ensures AllDefault(path + [es[i].key], es[i].value) {
        ZeroIsDefault(path + [es[i].key], es[i].value);
      }
    case Sequence(_, xs) =>
      forall i | 0 <= i < |xs| ensures AllDefault(path, xs[i]) {
        ZeroIsDefault(path, xs[i]);
      }
    case Scalar(tag, value) => LeafExactly(path, tag, value);
    case _ =>
  }

  lemma KnownIsDefault(path: Path, n: Node)
    requires IsKnownDefault(path, n)
    ensures AllDefault(path, n)
  {
    if n.Scalar? {
      LeafExactly(path, n.tag, n.value);
    } else {
      ZeroIsDefault(path, n);
    }
  }

  /** The entry of the pruned mapping for the last entry that stays. */
  lemma {:induction false} PrunedEntryStays(path: Path, n: Node, k: nat, i: nat)
    requires n.Mapping? && i < k <= |n.entries| && Stays(path, n.entries[i])
    ensures Entry(n.entries[i].key, Pruned(path + [n.entries[i].key], n.entries[i].value)) in PrunedEntries(path, n, k)
    decreases k
  {
    if i < k - 1 { PrunedEntryStays(path, n, k - 1, i); }
  }

  /** If what is left after pruning is a default, all of it was. */
  lemma {:induction false} DroppedIsDefault(path: Path, n: Node)
    requires IsKnownDefault(path, Pruned(path, n))
    ensures AllDefault(path, n)
    decreases n, 1
  {
    match n
    case Mapping(_, es) =>
      forall i | 0 <= i < |es| ensures AllDefault(path + [es[i].key], es[i].value) {
        if Stays(path, es[i]) {
          PrunedEntryStays(path, n, |es|, i);
          var below := path + [es[i].key];
          assert IsZero(Entry(es[i].key, Pruned(below, es[i].value)).value);
          DroppedIsDefault(below, es[i].value);
        } else {
          DroppedEntryIsDefault(path, es[i]);
        }
      }
    case Sequence(_, xs) =>
      forall i | 0 <= i < |xs| ensures AllDefault(path, xs[i]) {
        assert IsZero(Pruned(path, n).elements[i]);
        DroppedIsDefault(path, xs[i]);
      }
    case _ => KnownIsDefault(path, n);
  }

  lemma {:induction false} DroppedEntryIsDefault(path: Path, e: Entry)
    requires !Stays(path, e)
    ensures AllDefault(path + [e.key], e.value)
    decreases e, 0
  {
    var below := path + [e.key];
    if IsKnownDefault(below, e.value) {
      KnownIsDefault(below, e.value);
    } else {
      assert IsZero(Pruned(below, e.value));
      DroppedIsDefault(below, e.value);
    }
  }

  // ----- looking up keys -----

  lemma FindUnique(es: seq<Entry>, i: nat)
    requires UniqueKeys(es) && i < |es|
    ensures FindKey(es, es[i].key) == Some(i)
  {
    assert FindKey(es, es[i].key).Some?;
  }

  lemma ValueOneMore(es: seq<Entry>, e: Entry, key: string)
    ensures ValueAt(es + [e], key) ==
      if ValueAt(es, key).Some? then ValueAt(es, key) else if e.key == key then Some(e.value) else None
  {
    assert (es + [e])[..|es|] == es;
  }

  /** What remains under a key of the new mapping when it is pruned. */
  function PrunedValue(path: Path, e: Entry): Option<Node> {
    if Stays(path, e) then Some(Pruned(path + [e.key], e.value)) else None
  }

  lemma {:induction false} PrunedNoKey(path: Path, n: Node, k: nat, key: string)
    requires n.Mapping? && k <= |n.entries| && forall i :: 0 <= i < k ==> n.entries[i].key != key
    ensures ValueAt(PrunedEntries(path, n, k), key) == None
    decreases k
  {
    if k == 0 {
    } else {
      PrunedNoKey(path, n, k - 1, key);
      var e := n.entries[k - 1];
      ValueOneMore(PrunedEntries(path, n, k - 1), Entry(e.key, Pruned(path + [e.key], e.value)), key);
    }
  }

  lemma {:induction false} PrunedLookup(path: Path, n: Node, k: nat, i: nat)
    requires n.Mapping? && i < k <= |n.entries| && UniqueKeys(n.entries)
    ensures ValueAt(PrunedEntries(path, n, k), n.entries[i].key) == PrunedValue(path, n.entries[i])
    decreases k
  {
    var e := n.entries[k - 1];
    if i < k - 1 {
      PrunedLookup(path, n, k - 1, i);
    } else {
      PrunedNoKey(path, n, k - 1, e.key);
    }
    ValueOneMore(PrunedEntries(path, n, k - 1), Entry(e.key, Pruned(path + [e.key], e.value)), n.entries[i].key);
  }

  lemma {:induction false} KeptLookup(dst: seq<Entry>, src: seq<Entry>, k: nat, key: string)
    requires k <= |dst|
    ensures ValueAt(KeptEntries(dst, src, k), key) == if Keeps(src, key) then ValueAt(dst[..k], key) else None
    decreases k
  {
    hide Keeps, ValueAt;
    if k == 0 {
      NoValue(key);
      assert dst[..0] == [];
    } else {
      var kept, last := KeptEntries(dst, src, k - 1), dst[k - 1];
      KeptLookup(dst, src, k - 1, key);
      assert dst[..k] == dst[..k - 1] + [last];
      ValueOneMore(dst[..k - 1], last, key);
      if Keeps(src, last.key) {
        ValueOneMore(kept, last, key);
      }
    }
  }

  lemma NoValue(key: string)
    ensures ValueAt([], key) == None
  {
  }

  /** What a merged entry leaves under its key. */
  function MergedValue(v: Option<Node>, e: Entry, path: Path): Option<Node> {
    var below := path + [e.key];
    if v.Some? then Some(Merged(v.value, e.value, below))
    else if IsKnownDefault(below, Pruned(below, e.value)) then None
    else Some(Pruned(below, e.value))
  }

  lemma ValueReplaced(es: seq<Entry>, e: Entry, key: string)
    requires FindKey(es, e.key).Some?
    ensures ValueAt(es[FindKey(es, e.key).value := e], key) == if key == e.key then Some(e.value) else ValueAt(es, key)
  {
    var at := FindKey(es, e.key).value;
    var es' := es[at := e];
    var r, r' := FindKey(es, key), FindKey(es', key);
    assert forall i :: 0 <= i < |es| ==> es'[i].key == es[i].key;
    if r.Some? {
      assert es'[r.value].key == key;
    }
    if r'.Some? {
      assert es[r'.value].key == key;
    }
    assert r == r';
  }

  lemma MergedEntryLookup(dst: seq<Entry>, e: Entry, path: Path, key: string)
    ensures ValueAt(MergedEntry(dst, e, path), key) ==
      if key == e.key then MergedValue(ValueAt(dst, key), e, path) else ValueAt(dst, key)
  {
    var at, below := FindKey(dst, e.key), path + [e.key];
    if at.Some? {
      ValueReplaced(dst, Entry(e.key, Merged(dst[at.value].value, e.value, below)), key);
    } else {
      ValueOneMore(dst, Entry(e.key, Pruned(below, e.value)), key);
    }
  }

  lemma {:induction false} MergedElsewhere(dst: seq<Entry>, src: Node, path: Path, k: nat, key: string)
    requires src.Mapping? && k <= |src.entries| && forall i :: 0 <= i < k ==> src.entries[i].key != key
    ensures ValueAt(MergedEntries(dst, src, path, k), key) == ValueAt(dst, key)
    decreases k
  {
    if k == 0 {
    } else {
      MergedElsewhere(dst, src, path, k - 1, key);
      MergedEntryLookup(MergedEntries(dst, src, path, k - 1), src.entries[k - 1], path, key);
    }
  }

  lemma {:induction false} MergedLookup(dst: seq<Entry>, src: Node, path: Path, k: nat, i: nat)
    requires src.Mapping? && i < k <= |src.entries| && UniqueKeys(src.entries)
    ensures ValueAt(MergedEntries(dst, src, path, k), src.entries[i].key) ==
      MergedValue(ValueAt(dst, src.entries[i].key), src.entries[i], path)
    decreases k
  {
    var e := src.entries[k - 1];
    if i < k - 1 {
      MergedLookup(dst, src, path, k - 1, i);
    } else {
      MergedElsewhere(dst, src, path, k - 1, e.key);
    }
    MergedEntryLookup(MergedEntries(dst, src, path, k - 1), e, path, src.entries[i].key);
  }

  // ----- agreement -----

  lemma {:induction false} SelfAgrees(n: Node, path: Path)
    requires Unique(n)
    ensures Agrees(n, n, path)
    decreases n
  {
    match n
    case Mapping(_, es) =>
      forall i | 0 <= i < |es| ensures AgreesAt(es, es[i], path) {
        FindUnique(es, i);
        SelfAgrees(es[i].value, path + [es[i].key]);
      }
    case Sequence(_, xs) =>
      forall i | 0 <= i < |xs| ensures Agrees(xs[i], xs[i], path) {
        SelfAgrees(xs[i], path);
      }
    case _ =>
  }

  lemma {:induction false} PrunedAgrees(n: Node, path: Path)
    requires Unique(n)
    ensures Agrees(Pruned(path, n), n, path)
    decreases n
  {
    match n
    case Mapping(_, es) =>
      forall i | 0 <= i < |es| ensures AgreesAt(PrunedEntries(path, n, |es|), es[i], path) {
        PrunedLookup(path, n, |es|, i);
        if Stays(path, es[i]) {
          PrunedAgrees(es[i].value, path + [es[i].key]);
        } else {
          DroppedEntryIsDefault(path, es[i]);
        }
      }
    case Sequence(_, xs) =>
      forall i | 0 <= i < |xs| ensures Agrees(Pruned(path, n).elements[i], xs[i], path) {
        PrunedAgrees(xs[i], path);
      }
    case _ =>
  }

  /** In mappings that are elements of sequences, blank keys hold only defaults. */
  predicate BlanksDefault(n: Node, path: Path)
    decreases n
  {
    match n
    case Mapping(_, es) => forall i :: 0 <= i < |es| ==> BlanksDefault(es[i].value, path + [es[i].key])
    case Sequence(_, xs) => forall i :: 0 <= i < |xs| ==> BlanksDefault(xs[i], path) && BlankEntriesDefault(xs[i], path)
    case _ => true
  }

  predicate BlankEntriesDefault(n: Node, path: Path) {
    n.Mapping? ==> forall i :: 0 <= i < |n.entries| && TrimSpace(n.entries[i].key) == "" ==>
      AllDefault(path + [n.entries[i].key], n.entries[i].value)
  }

  /** The merged tree agrees with the new configuration, whatever the old file held. */
  lemma {:induction false} MergeAgrees(dst: Node, src: Node, path: Path)
    requires Unique(src) && BlanksDefault(src, path)
    ensures Agrees(Merged(dst, src, path), src, path)
    decreases src, 1
  {
    match src
    case Mapping(_, es) =>
      var base := if dst.Mapping? then dst else src;
      MappingAgrees(base.entries, src, path);
    case Sequence(_, xs) =>
      if !(dst.Scalar? && dst.tag == "!!null" && xs == []) {
        var original := if dst.Sequence? then dst.elements else [];
        forall i | 0 <= i < |xs| ensures Agrees(MergedElements(original, src, path)[i], xs[i], path) {
          if original == [] {
            SelfAgrees(xs[i], path);
          } else {
            ElementAgrees(original, Picks(original, xs, |xs|)[i], xs[i], path);
          }
        }
      }
    case _ =>
  }

  lemma {:induction false} MappingAgrees(dst: seq<Entry>, src: Node, path: Path)
    requires src.Mapping? && Unique(src) && BlanksDefault(src, path)
    ensures forall i :: 0 <= i < |src.entries| ==>
      AgreesAt(MergedEntries(dst, src, path, |src.entries|), src.entries[i], path)
    decreases src, 0
  {
    var es := src.entries;
    forall i | 0 <= i < |es| ensures AgreesAt(MergedEntries(dst, src, path, |es|), es[i], path) {
      MergedLookup(dst, src, path, |es|, i);
      var v, below := ValueAt(dst, es[i].key), path + [es[i].key];
      if v.Some? {
        MergeAgrees(v.value, es[i].value, below);
      } else if IsKnownDefault(below, Pruned(below, es[i].value)) {
        DroppedIsDefault(below, es[i].value);
      } else {
        PrunedAgrees(es[i].value, below);
      }
    }
  }

  lemma {:induction false} ElementAgrees(original: seq<Node>, pick: Option<nat>, x: Node, path: Path)
    requires pick.Some? ==> pick.value < |original|
    requires Unique(x) && BlanksDefault(x, path) && BlankEntriesDefault(x, path)
    ensures Agrees(MergedElement(original, pick, x, path), x, path)
    decreases x, 2
  {
    if pick.None? {
      SelfAgrees(x, path);
    } else {
      MergeAgrees(original[pick.value], x, path);
      PruneKeepsAgreement(Merged(original[pick.value], x, path), x, path);
    }
  }

  lemma PruneKeepsAgreement(d: Node, x: Node, path: Path)
    requires Agrees(d, x, path) && BlankEntriesDefault(x, path)
    ensures Agrees(PruneMissing(d, x), x, path)
  {
    if x.Mapping? {
      forall i | 0 <= i < |x.entries| ensures AgreesAt(PruneMissing(d, x).entries, x.entries[i], path) {
        KeptLookup(d.entries, x.entries, |d.entries|, x.entries[i].key);
        assert d.entries[..|d.entries|] == d.entries;
        assert AgreesAt(d.entries, x.entries[i], path);
      }
    }
  }

  // ----- the condition is exact -----

  lemma {:induction false} DefaultIsBlanksDefault(n: Node, path: Path)
    requires AllDefault(path, n)
    ensures BlanksDefault(n, path)
    decreases n
  {
    match n
    case Mapping(_, es) =>
      forall i | 0 <= i < |es| ensures BlanksDefault(es[i].value, path + [es[i].key]) {
        DefaultIsBlanksDefault(es[i].value, path + [es[i].key]);
      }
    case Sequence(_, xs) =>
      forall i | 0 <= i < |xs| ensures BlanksDefault(xs[i], path) && BlankEntriesDefault(xs[i], path) {
        assert AllDefault(path, xs[i]);
        DefaultIsBlanksDefault(xs[i], path);
      }
    case _ =>
  }

  lemma {:induction false} EqualToItself(n: Node)
    ensures StructurallyEqual(n, n)
    decreases n
  {
    match n
    case Mapping(_, es) =>
      forall i | 0 <= i < |es| ensures StructurallyEqual(es[i].value, es[i].value) {
        EqualToItself(es[i].value);
      }
    case Sequence(_, xs) =>
      forall i | 0 <= i < |xs| ensures StructurallyEqual(xs[i], xs[i]) {
        EqualToItself(xs[i]);
      }
    case _ =>
  }

  /** Merged with itself, a sequence continues every element where it stands. */
  lemma {:induction false} SelfPicks(xs: seq<Node>, k: nat)
    requires k <= |xs|
    ensures forall i :: 0 <= i < k ==> Picks(xs, xs, k)[i] == Some(i)
    decreases k
  {
    hide Match;
    if k == 0 {
    } else {
      SelfPicks(xs, k - 1);
      SelfMatch(xs, Picks(xs, xs, k - 1), k - 1);
    }
  }

  lemma SelfMatch(xs: seq<Node>, before: seq<Option<nat>>, k: nat)
    requires k < |xs| && |before| == k && forall i :: 0 <= i < k ==> before[i] == Some(i)
    ensures Match(xs, Used(before), xs[k]) == Some(k)
  {
    forall i | 0 <= i < k ensures i in Used(before) {
      assert before[i].Some? && before[i].value == i;
    }
    assert k !in Used(before);
    EqualToItself(xs[k]);
  }

  /** A blank key that holds more than defaults is lost when a tree is merged with itself. */
  lemma {:induction false} BlankKeyLost(n: Node, path: Path)
    requires Unique(n) && !BlanksDefault(n, path)
    ensures !Agrees(Merged(n, n, path), n, path)
    decreases n, 1
  {
    match n
    case Mapping(_, es) =>
      var i :| 0 <= i < |es| && !BlanksDefault(es[i].value, path + [es[i].key]);
      BlankBelow(n, path, i);
    case Sequence(_, xs) =>
      var i :| 0 <= i < |xs| && !(BlanksDefault(xs[i], path) && BlankEntriesDefault(xs[i], path));
      SelfPicks(xs, |xs|);
      assert MergedElements(xs, n, path)[i] == PruneMissing(Merged(xs[i], xs[i], path), xs[i]);
      BlankElement(xs[i], path);
    case _ =>
  }

  lemma {:induction false} BlankBelow(n: Node, path: Path, i: nat)
    requires n.Mapping? && Unique(n) && i < |n.entries| && !BlanksDefault(n.entries[i].value, path + [n.entries[i].key])
    ensures !AgreesAt(MergedEntries(n.entries, n, path, |n.entries|), n.entries[i], path)
    decreases n, 0
  {
    MergedLookup(n.entries, n, path, |n.entries|, i);
    FindUnique(n.entries, i);
    BlankKeyLost(n.entries[i].value, path + [n.entries[i].key]);
  }

  lemma BlankEntryPruned(d: Node, x: Node, path: Path, i: nat)
    requires d.Mapping? && x.Mapping? && i < |x.entries| && TrimSpace(x.entries[i].key) == ""
    requires !AllDefault(path + [x.entries[i].key], x.entries[i].value)
    ensures !Agrees(PruneMissing(d, x), x, path)
  {
    KeptLookup(d.entries, x.entries, |d.entries|, x.entries[i].key);
    assert !AgreesAt(PruneMissing(d, x).entries, x.entries[i], path);
  }

  lemma PruneKeepsDisagreement(d: Node, x: Node, path: Path, i: nat)
    requires d.Mapping? && x.Mapping? && i < |x.entries| && TrimSpace(x.entries[i].key) != ""
    requires !AgreesAt(d.entries, x.entries[i], path)
    ensures !Agrees(PruneMissing(d, x), x, path)
  {
    KeptLookup(d.entries, x.entries, |d.entries|, x.entries[i].key);
    assert d.entries[..|d.entries|] == d.entries;
    assert !AgreesAt(PruneMissing(d, x).entries, x.entries[i], path);
  }

  lemma MergedIsMapping(x: Node, path: Path)
    requires x.Mapping?
    ensures Merged(x, x, path) == x.(entries := MergedEntries(x.entries, x, path, |x.entries|))
  {
  }

  lemma {:induction false} BlankElement(x: Node, path: Path)
    requires Unique(x) && !(BlanksDefault(x, path) && BlankEntriesDefault(x, path))
    ensures !Agrees(PruneMissing(Merged(x, x, path), x), x, path)
    decreases x, 2
  {
    if !x.Mapping? {
      BlankKeyLost(x, path);
    } else if !BlankEntriesDefault(x, path) {
      MergedIsMapping(x, path);
      var i :| 0 <= i < |x.entries| && TrimSpace(x.entries[i].key) == "" &&
        !AllDefault(path + [x.entries[i].key], x.entries[i].value);
      BlankEntryPruned(Merged(x, x, path), x, path, i);
    } else {
      BlankEntryBelow(x, path);
    }
  }

  lemma {:induction false} BlankEntryBelow(x: Node, path: Path)
    requires x.Mapping? && Unique(x) && !BlanksDefault(x, path) && BlankEntriesDefault(x, path)
    ensures !Agrees(PruneMissing(Merged(x, x, path), x), x, path)
    decreases x, 1
  {
    MergedIsMapping(x, path);
    var i :| 0 <= i < |x.entries| && !BlanksDefault(x.entries[i].value, path + [x.entries[i].key]);
    if TrimSpace(x.entries[i].key) == "" {
      DefaultIsBlanksDefault(x.entries[i].value, path + [x.entries[i].key]);
    }
    BlankBelow(x, path, i);
    PruneKeepsDisagreement(Merged(x, x, path), x, path, i);
  }

  /** A configuration with unique keys survives the merge into every old file exactly when, in mappings
      that are elements of sequences, blank keys hold only defaults. */
  lemma MergeAgreesExactly(src: Node, path: Path)
    requires Unique(src)
    ensures (forall dst :: Agrees(Merged(dst, src, path), src, path)) <==> BlanksDefault(src, path)
  {
    if BlanksDefault(src, path) {
      forall dst ensures Agrees(Merged(dst, src, path), src, path) {
        MergeAgrees(dst, src, path);
      }
    } else {
      BlankKeyLost(src, path);
    }
  }

  // ----- what the result keeps of the old file -----

  /** What the first k entries of the new configuration add to the old file: keys it lacks, with pruned
      values that are no defaults, in their order. */
  function Added(dst: seq<Entry>, src: seq<Entry>, path: Path, k: nat): seq<Entry>
    requires k <= |src|
  {
    if k == 0 then []
    else
      var before, e := Added(dst, src, path, k - 1), src[k - 1];
      var value := Pruned(path + [e.key], e.value);
      if FindKey(dst, e.key).None? && !IsKnownDefault(path + [e.key], value)
      then before + [Entry(e.key, value)] else before
  }

  /** The old keys stay where they are, old entries that the new configuration does not mention stay as
      they are, and exactly the entries of `Added` follow. */
  ghost predicate Extended(dst: seq<Entry>, merged: seq<Entry>, src: seq<Entry>, path: Path, k: nat)
    requires k <= |src|
  {
    && |dst| <= |merged|
    && (forall i :: 0 <= i < |dst| ==> merged[i].key == dst[i].key)
    && (forall i :: 0 <= i < |dst| && (forall j :: 0 <= j < k ==> src[j].key != dst[i].key) ==> merged[i] == dst[i])
    && merged[|dst|..] == Added(dst, src, path, k)
  }

  lemma {:induction false} OldOrderKept(dst: seq<Entry>, src: Node, path: Path, k: nat)
    requires src.Mapping? && k <= |src.entries| && UniqueKeys(src.entries)
    ensures Extended(dst, MergedEntries(dst, src, path, k), src.entries, path, k)
    decreases k
  {
    if k == 0 {
    } else {
      OldOrderKept(dst, src, path, k - 1);
      MergedElsewhere(dst, src, path, k - 1, src.entries[k - 1].key);
      OneMoreEntry(dst, MergedEntries(dst, src, path, k - 1), src.entries, path, k);
    }
  }

  lemma OneMoreEntry(dst: seq<Entry>, merged: seq<Entry>, src: seq<Entry>, path: Path, k: nat)
    requires 0 < k <= |src| && Extended(dst, merged, src, path, k - 1)
    requires ValueAt(merged, src[k - 1].key) == ValueAt(dst, src[k - 1].key)
    ensures Extended(dst, MergedEntry(merged, src[k - 1], path), src, path, k)
  {
    var e := src[k - 1];
    var merged', at := MergedEntry(merged, e, path), FindKey(dst, e.key);
    if at.Some? {
      assert merged[at.value].key == e.key;
      var there := FindKey(merged, e.key).value;
      assert there <= at.value;
      assert merged'[|dst|..] == merged[|dst|..];
    }
  }

  // ----- no defaults are written -----

  /** Below two keys pruning makes nothing zero that was not. */
  lemma {:induction false} ZeroBeforePruning(path: Path, n: Node)
    requires |path| >= 2 && IsZero(Pruned(path, n))
    ensures IsZero(n)
    decreases n, 1
  {
    match n
    case Mapping(_, es) =>
      forall i | 0 <= i < |es| ensures IsZero(es[i].value) {
        if Stays(path, es[i]) {
          PrunedEntryStays(path, n, |es|, i);
          var below := path + [es[i].key];
          assert IsZero(Entry(es[i].key, Pruned(below, es[i].value)).value);
          ZeroBeforePruning(below, es[i].value);
        } else {
          DroppedEntryIsZero(path, es[i]);
        }
      }
    case Sequence(_, xs) =>
      forall i | 0 <= i < |xs| ensures IsZero(xs[i]) {
        assert IsZero(Pruned(path, n).elements[i]);
        ZeroBeforePruning(path, xs[i]);
      }
    case _ =>
  }

  lemma {:induction false} DroppedEntryIsZero(path: Path, e: Entry)
    requires |path| >= 2 && !Stays(path, e)
    ensures IsZero(e.value)
    decreases e, 0
  {
    var below := path + [e.key];
    if IsKnownDefault(below, e.value) {
      if e.value.Scalar? {
        LeafExactly(below, e.value.tag, e.value.value);
        DeepDefaultIsZero(below, e.value.tag, e.value.value);
        ZeroExactly(e.value);
      }
    } else {
      ZeroBeforePruning(below, e.value);
    }
  }

  /** No mapping in the tree holds a default or an empty collection. */
  predicate FreeOfDefaults(path: Path, n: Node)
    decreases n
  {
    match n
    case Mapping(_, es) =>
      forall i :: 0 <= i < |es| ==> EntryMatters(path, es[i]) && FreeOfDefaults(path + [es[i].key], es[i].value)
    case Sequence(_, xs) => forall i :: 0 <= i < |xs| ==> FreeOfDefaults(path, xs[i])
    case _ => true
  }

  predicate EntryMatters(path: Path, e: Entry) {
    match e.value
    case Scalar(tag, value) => !DefaultLeaf(path + [e.key], tag, value)
    case Mapping(_, es) => es != [] && !AllZero(e.value)
    case Sequence(_, xs) => xs != [] && !AllZero(e.value)
    case _ => true
  }

  lemma MattersExactly(path: Path, e: Entry)
    ensures EntryMatters(path, e) <==> !IsKnownDefault(path + [e.key], e.value) && !IsEmptyCollection(e.value)
  {
    ZeroExactly(e.value);
    if e.value.Scalar? { LeafExactly(path + [e.key], e.value.tag, e.value.value); }
  }

  /** What is added under a new key is free of defaults at every depth. */
  lemma {:induction false} PrunedFree(path: Path, n: Node)
    requires path != []
    ensures FreeOfDefaults(path, Pruned(path, n))
    decreases n, 1
  {
    match n
    case Mapping(_, es) => PrunedEntriesFree(path, n, |es|);
    case Sequence(_, xs) =>
      forall i | 0 <= i < |xs| ensures FreeOfDefaults(path, Pruned(path, n).elements[i]) {
        PrunedFree(path, xs[i]);
      }
    case _ =>
  }

  lemma {:induction false} PrunedEntriesFree(path: Path, n: Node, k: nat)
    requires path != [] && n.Mapping? && k <= |n.entries|
    ensures forall i :: 0 <= i < |PrunedEntries(path, n, k)| ==>
      var e := PrunedEntries(path, n, k)[i]; EntryMatters(path, e) && FreeOfDefaults(path + [e.key], e.value)
    decreases n, 0, k
  {
    if k == 0 {
    } else {
      PrunedEntriesFree(path, n, k - 1);
      var e := n.entries[k - 1];
      if Stays(path, e) {
        var below := path + [e.key];
        PrunedFree(below, e.value);
        MattersExactly(path, Entry(e.key, Pruned(below, e.value)));
        if IsZero(Pruned(below, e.value)) {
          ZeroBeforePruning(below, e.value);
          assert false;
        }
      }
    }
  }

  // ----- what becomes of a new key, exactly -----

  predicate Lacks(dst: seq<Entry>, key: string) {
    forall i :: 0 <= i < |dst| ==> dst[i].key != key
  }

  lemma NewValue(dst: seq<Entry>, src: Node, path: Path, i: nat)
    requires src.Mapping? && UniqueKeys(src.entries) && i < |src.entries| && Lacks(dst, src.entries[i].key)
    ensures var e := src.entries[i];
      var below := path + [e.key];
      ValueAt(MergedEntries(dst, src, path, |src.entries|), e.key) ==
        if IsKnownDefault(below, Pruned(below, e.value)) then None else Some(Pruned(below, e.value))
  {
    MergedLookup(dst, src, path, |src.entries|, i);
  }

  /** A scalar under a key that the old mapping lacks is written, as it is, unless it is one of the
      written-out defaults. */
  lemma NewScalarKept(dst: seq<Entry>, src: Node, path: Path, i: nat)
    requires src.Mapping? && UniqueKeys(src.entries) && i < |src.entries| && Lacks(dst, src.entries[i].key)
    requires src.entries[i].value.Scalar?
    ensures var e := src.entries[i];
      ValueAt(MergedEntries(dst, src, path, |src.entries|), e.key) ==
        if DefaultLeaf(path + [e.key], e.value.tag, e.value.value) then None else Some(e.value)
  {
    var e := src.entries[i];
    NewValue(dst, src, path, i);
    LeafExactly(path + [e.key], e.value.tag, e.value.value);
  }

  /** A new scalar replaces what stood under its key, or is added unless it is a written-out default. */
  predicate ScalarTaken(dst: seq<Entry>, e: Entry, path: Path, merged: seq<Entry>)
    requires e.value.Scalar?
  {
    ValueAt(merged, e.key) ==
      if Lacks(dst, e.key) && DefaultLeaf(path + [e.key], e.value.tag, e.value.value) then None else Some(e.value)
  }

  lemma ScalarsTaken(dst: seq<Entry>, src: Node, path: Path)
    requires src.Mapping? && UniqueKeys(src.entries)
    ensures forall i {:trigger src.entries[i]} :: 0 <= i < |src.entries| && src.entries[i].value.Scalar? ==>
      ScalarTaken(dst, src.entries[i], path, MergedEntries(dst, src, path, |src.entries|))
  {
    forall i | 0 <= i < |src.entries| && src.entries[i].value.Scalar?
      ensures ScalarTaken(dst, src.entries[i], path, MergedEntries(dst, src, path, |src.entries|))
    {
      if Lacks(dst, src.entries[i].key) {
        NewScalarKept(dst, src, path, i);
      } else {
        MergedLookup(dst, src, path, |src.entries|, i);
      }
    }
  }

  lemma {:induction false} ZeroAfterPruning(path: Path, n: Node)
    requires IsZero(n)
    ensures IsZero(Pruned(path, n))
    decreases n
  {
    match n
    case Mapping(_, es) => NothingStays(path, n, |es|);
    case Sequence(_, xs) =>
      forall i | 0 <= i < |xs| ensures IsZero(Pruned(path, n).elements[i]) {
        ZeroAfterPruning(path, xs[i]);
      }
    case _ =>
  }

  lemma {:induction false} NothingStays(path: Path, n: Node, k: nat)
    requires n.Mapping? && IsZero(n) && k <= |n.entries|
    ensures PrunedEntries(path, n, k) == []
    decreases k
  {
    if k == 0 {
    } else {
      NothingStays(path, n, k - 1);
      assert IsZero(n.entries[k - 1].value);
    }
  }

  /** A value all of whose leaves are zero is not written under a new key. */
  lemma NewZeroDropped(dst: seq<Entry>, src: Node, path: Path, i: nat)
    requires src.Mapping? && UniqueKeys(src.entries) && i < |src.entries| && Lacks(dst, src.entries[i].key)
    requires AllZero(src.entries[i].value)
    ensures ValueAt(MergedEntries(dst, src, path, |src.entries|), src.entries[i].key) == None
  {
    var e := src.entries[i];
    NewValue(dst, src, path, i);
    ZeroExactly(e.value);
    ZeroAfterPruning(path + [e.key], e.value);
  }

  /** An old null stays in the place of an empty new sequence; otherwise a new sequence makes a sequence. */
  lemma NullKept(dst: Node, src: Node, path: Path)
    requires src.Sequence?
    ensures dst.Scalar? && dst.tag == "!!null" && src.elements == [] ==> Merged(dst, src, path) == dst
    ensures !(dst.Scalar? && dst.tag == "!!null" && src.elements == []) ==>
      Merged(dst, src, path).Sequence? && |Merged(dst, src, path).elements| == |src.elements|
  {
  }

  // ----- the excepted cases exist -----

  function One(key: string, value: string): Node {
    Mapping("!!map", [Entry(key, Scalar("!!int", value))])
  }

  /** A sequence element with a blank key that holds the number 1: merged with itself the key is lost. */
  lemma BlankKeyHappens()
    ensures var n := Sequence("!!seq", [One(" ", "1")]);
      Unique(n) && !Agrees(Merged(n, n, []), n, [])
  {
    var x := One(" ", "1");
    var n := Sequence("!!seq", [x]);
    OneBlank(x);
    assert n.elements[0] == x;
    hide BlankEntriesDefault, TrimSpace;
    BlankKeyLost(n, []);
  }

  lemma OneBlank(x: Node)
    requires x == One(" ", "1")
    ensures Unique(x) && !BlankEntriesDefault(x, [])
  {
    TrimBlank();
    assert x.entries[0].key == " " && x.entries[0].value == Scalar("!!int", "1");
    assert !AllDefault([] + [" "], Scalar("!!int", "1"));
  }

  /** Elements of sequences are no entries: a new sequence of mappings keeps an element of which pruning
      has left nothing. */
  lemma EmptyElementStays()
    ensures var n := Sequence("!!seq", [One("a", "0"), One("b", "1")]);
      !IsKnownDefault(["k"], Pruned(["k"], n)) &&
      Pruned(["k"], n) == Sequence("!!seq", [Mapping("!!map", []), One("b", "1")])
  {
    var zero, one := One("a", "0"), One("b", "1");
    var n := Sequence("!!seq", [zero, one]);
    OneStays(["k"], "a", "0");
    OneStays(["k"], "b", "1");
    PrunedPair(["k"], zero, one);
    NotAllZero(Mapping("!!map", []), one);
    hide Pruned, IsZero;
  }

  lemma NotAllZero(a: Node, b: Node)
    requires b == One("b", "1")
    ensures !IsZero(Sequence("!!seq", [a, b]))
  {
    ZeroExactly(Sequence("!!seq", [a, b]));
    assert b.entries[0].value == Scalar("!!int", "1") && !AllZero(b.entries[0].value);
    assert Sequence("!!seq", [a, b]).elements[1] == b && !AllZero(b);
  }

  lemma PrunedPair(path: Path, a: Node, b: Node)
    ensures Pruned(path, Sequence("!!seq", [a, b])) == Sequence("!!seq", [Pruned(path, a), Pruned(path, b)])
  {
    var n := Sequence("!!seq", [a, b]);
    assert n.elements[0] == a && n.elements[1] == b;
    assert Pruned(path, n).elements == [Pruned(path, a), Pruned(path, b)];
  }

  lemma OneStays(path: Path, key: string, value: string)
    requires value == "0" || value == "1"
    requires path == ["k"]
    ensures Pruned(path, One(key, value)) == if value == "0" then Mapping("!!map", []) else One(key, value)
  {
    var n := One(key, value);
    var e := n.entries[0];
    assert PrunedEntries(path, n, 0) == [];
    assert Pruned(path + [key], e.value) == e.value;
    LeafExactly(path + [key], "!!int", value);
    assert Stays(path, e) <==> value == "1";
    assert PrunedEntries(path, n, 1) == if Stays(path, e) then [] + [e] else [];
  }
}
