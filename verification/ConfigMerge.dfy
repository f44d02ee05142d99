/** The merge as the program runs it: loops over entries and elements, one after the other. */
module ConfigMerge {
  import opened Collections
  import opened Text
  import opened Yaml
  import opened YamlMerge

  method FindMapKeyIndex(es: seq<Entry>, key: string) returns (idx: int)
    ensures idx == if FindKey(es, key).Some? then FindKey(es, key).value else -1
  {
    for i := 0 to |es|
      invariant forall j :: 0 <= j < i ==> es[j].key != key
    {
      if es[i].key == key {
        return i;
      }
    }
    return -1;
  }

  lemma DropFirst<T>(kept: seq<T>, rest: seq<T>)
    requires rest != []
    ensures (kept + rest)[..|kept|] + (kept + rest)[|kept| + 1..] == kept + rest[1..]
    ensures kept + rest == kept + [rest[0]] + rest[1..]
    ensures (kept + rest)[|kept|] == rest[0]
  {
  }

  /** Deletes, in place, the entries whose trimmed key the new mapping lacks. */
  method PruneMissingMapKeys(dst: Node, src: Node) returns (r: Node)
    ensures r == PruneMissing(dst, src)
  {
    if !dst.Mapping? || !src.Mapping? {
      return dst;
    }
    var keep := KeepSet(src.entries);
    var entries := dst.entries;
    ghost var seen, kept := 0, [];
    var i := 0;
    while i < |entries|
      invariant seen <= |dst.entries| && kept == KeptEntries(dst.entries, src.entries, seen)
      invariant entries == kept + dst.entries[seen..] && i == |kept|
      decreases |entries| - i
    {
      ghost var rest := dst.entries[seen..];
      DropFirst(kept, rest);
      assert rest[1..] == dst.entries[seen + 1..];
      if TrimSpace(entries[i].key) !in keep {
        entries := entries[..i] + entries[i + 1..];
      } else {
        kept := kept + [rest[0]];
        i := i + 1;
      }
      seen := seen + 1;
    }
    return dst.(entries := entries);
  }

  method KeepSet(src: seq<Entry>) returns (keep: set<string>)
    ensures forall key :: TrimSpace(key) in keep <==> Keeps(src, key)
  {
    keep := {};
    for i := 0 to |src|
      invariant forall t :: t in keep <==> t != "" && exists j :: 0 <= j < i && TrimSpace(src[j].key) == t
    {
      if TrimSpace(src[i].key) != "" {
        keep := keep + {TrimSpace(src[i].key)};
      }
    }
  }

  /** Filters default-valued entries out of a new node and all below it. */
  method PruneKnownDefaultsInNewNode(path: Path, node: Node) returns (r: Node)
    ensures r == Pruned(path, node)
    decreases node
  {
    match node {
      case Mapping(tag, es) =>
        var filtered: seq<Entry> := [];
        for i := 0 to |es|
          invariant filtered == PrunedEntries(path, node, i)
        {
          var below := path + [es[i].key];
          if !IsKnownDefault(below, es[i].value) {
            var value := PruneKnownDefaultsInNewNode(below, es[i].value);
            if !IsEmptyCollection(value) {
              filtered := filtered + [Entry(es[i].key, value)];
            }
          }
        }
        return Mapping(tag, filtered);
      case Sequence(tag, xs) =>
        var children: seq<Node> := [];
        for i := 0 to |xs|
          invariant |children| == i && forall j :: 0 <= j < i ==> children[j] == Pruned(path, xs[j])
        {
          var child := PruneKnownDefaultsInNewNode(path, xs[i]);
          children := children + [child];
        }
        return Sequence(tag, children);
      case _ =>
        return node;
    }
  }

  function Taken(used: seq<bool>): set<nat> {
    set i: nat | i < |used| && used[i]
  }

  method MatchByIdentity(original: seq<Node>, used: seq<bool>, target: Node) returns (idx: Option<nat>)
    requires |used| == |original|
    ensures idx == FirstSame(original, Taken(used), target, 0)
  {
    hide SameElement;
    for i := 0 to |original|
      invariant forall j :: 0 <= j < i ==> j in Taken(used) || !SameElement(original[j], target)
    {
      if !used[i] && SameElement(original[i], target) {
        return Some(i);
      }
    }
    return None;
  }

  method MatchByStructure(original: seq<Node>, used: seq<bool>, target: Node) returns (idx: Option<nat>)
    requires |used| == |original|
    ensures idx == FirstEqual(original, Taken(used), target, 0)
  {
    hide StructurallyEqual;
    for i := 0 to |original|
      invariant forall j :: 0 <= j < i ==> j in Taken(used) || !StructurallyEqual(original[j], target)
    {
      if !used[i] && StructurallyEqual(original[i], target) {
        return Some(i);
      }
    }
    return None;
  }

  /** The first unused old element with the new one's identity or value, else the first that is equal. */
  method MatchSequenceElement(original: seq<Node>, used: seq<bool>, target: Node) returns (idx: Option<nat>)
    requires |used| == |original|
    ensures idx == Match(original, Taken(used), target)
  {
    idx := MatchByIdentity(original, used, target);
    if idx == None {
      idx := MatchByStructure(original, used, target);
    }
  }

  /** For each new element the old one it continues; the old elements as they are if either side is empty. */
  method ReorderSequenceForMerge(original: seq<Node>, target: seq<Node>) returns (ordered: seq<Option<Node>>)
    ensures original == [] || target == [] ==>
      ordered == seq(|original|, i requires 0 <= i < |original| => Some(original[i]))
    ensures original != [] && target != [] ==>
      var picks := Picks(original, target, |target|);
      && |ordered| == |target|
      && forall i :: 0 <= i < |target| ==> ordered[i] == if picks[i].Some? then Some(original[picks[i].value]) else None
  {
    if original == [] || target == [] {
      return seq(|original|, i requires 0 <= i < |original| => Some(original[i]));
    }
    ordered := [];
    var used := seq(|original|, _ => false);
    ghost var picks: seq<Option<nat>> := [];
    for k := 0 to |target|
      invariant picks == Picks(original, target, k)
      invariant |used| == |original| && forall i :: 0 <= i < |used| ==> (used[i] <==> i in Used(picks))
      invariant |ordered| == k
      invariant forall i :: 0 <= i < k ==> ordered[i] == if picks[i].Some? then Some(original[picks[i].value]) else None
    {
      assert Taken(used) == Used(picks);
      var idx := MatchSequenceElement(original, used, target[k]);
      UsedOneMore(picks, idx);
      if idx.Some? {
        ordered := ordered + [Some(original[idx.value])];
        used := used[idx.value := true];
      } else {
        ordered := ordered + [None];
      }
      picks := picks + [idx];
    }
  }

  lemma UsedOneMore(picks: seq<Option<nat>>, idx: Option<nat>)
    ensures Used(picks + [idx]) == Used(picks) + if idx.Some? then {idx.value} else {}
  {
    var picks' := picks + [idx];
    forall i | i in Used(picks) ensures i in Used(picks') {
      var j :| 0 <= j < |picks| && picks[j].Some? && picks[j].value == i;
      assert picks'[j] == picks[j];
    }
    if idx.Some? { assert picks'[|picks|] == idx; }
  }

  method MergeMappingPreserve(dst: Node, src: Node, path: Path) returns (r: Node)
    ensures r == MergedMapping(dst, src, path)
    ensures dst.Mapping? && src.Mapping? ==> r.Mapping?
    ensures dst.Mapping? && src.Mapping? && UniqueKeys(src.entries) ==>
      forall i {:trigger src.entries[i]} :: 0 <= i < |src.entries| && src.entries[i].value.Scalar? ==>
        ScalarTaken(dst.entries, src.entries[i], path, r.entries)
    decreases src, 3
  {
    if !dst.Mapping? || !src.Mapping? {
      return src;
    }
    var entries := dst.entries;
    if UniqueKeys(src.entries) { ScalarsTaken(dst.entries, src, path); }
    for k := 0 to |src.entries|
      invariant entries == MergedEntries(dst.entries, src, path, k)
    {
      var e := src.entries[k];
      var childPath := path + [e.key];
      var idx := FindMapKeyIndex(entries, e.key);
      if idx >= 0 {
        var merged := MergeNodePreserve(entries[idx].value, e.value, childPath);
        entries := entries[idx := Entry(entries[idx].key, merged)];
      } else {
        var candidate := PruneKnownDefaultsInNewNode(childPath, e.value);
        if !IsKnownDefault(childPath, candidate) {
          entries := entries + [Entry(e.key, candidate)];
        }
      }
    }
    return dst.(entries := entries);
  }

  method MergeNodePreserve(dst: Node, src: Node, path: Path) returns (r: Node)
    ensures r == Merged(dst, src, path)
    decreases src, 4
  {
    match src {
      case Mapping(_, _) =>
        r := MergeMappingPreserve(if dst.Mapping? then dst else src, src, path);
      case Sequence(_, _) =>
        if dst.Scalar? && dst.tag == "!!null" && src.elements == [] {
          return dst;
        }
        var base := if dst.Sequence? then dst else Sequence("!!seq", []);
        var elements := MergeElements(base.elements, src, path);
        r := base.(elements := elements);
      case Scalar(_, _) => r := src;
      case Document(_) => r := src;
      case Unset => r := dst;
    }
  }

  /** Updates the reordered elements, fills the gaps, appends what is missing and drops what is left over. */
  method MergeElements(original: seq<Node>, src: Node, path: Path) returns (r: seq<Node>)
    requires src.Sequence?
    ensures r == MergedElements(original, src, path)
    decreases src, 3
  {
    var xs := src.elements;
    var ordered := ReorderSequenceForMerge(original, xs);
    var min := if |xs| < |ordered| then |xs| else |ordered|;
    r := [];
    for i := 0 to min
      invariant |r| == i && forall j :: 0 <= j < i ==> r[j] == MergedElements(original, src, path)[j]
    {
      if ordered[i].None? {
        r := r + [xs[i]];
      } else {
        var merged := MergeNodePreserve(ordered[i].value, xs[i], path);
        merged := PruneMissingMapKeys(merged, xs[i]);
        r := r + [merged];
      }
    }
    for i := min to |xs|
      invariant |r| == i && forall j :: 0 <= j < i ==> r[j] == MergedElements(original, src, path)[j]
    {
      r := r + [xs[i]];
    }
  }
}
