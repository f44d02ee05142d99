/** The scalars that count as defaults, written out. */
module YamlDefaults {
  import opened Yaml

  /** The zero values of the YAML core schema's scalars. */
  predicate ZeroValue(tag: string, value: string) {
    || (tag, value) == ("!!bool", "false")
    || (tag, value) == ("!!int", "0") || (tag, value) == ("!!int", "0.0")
    || (tag, value) == ("!!float", "0") || (tag, value) == ("!!float", "0.0")
    || (tag, value) == ("!!str", "")
    || tag == "!!null"
  }

  /** The path is two keys in a row, or one key that is spelt with a dot. */
  predicate Dotted(path: Path, a: string, b: string) {
    path == [a, b] || path == [a + "." + b]
  }

  /** The four settings whose defaults are not zero. */
  predicate BuiltIn(path: Path, tag: string, value: string) {
    || (Dotted(path, "pprof", "addr") && tag == "!!str" && value == "127.0.0.1:8316")
    || (Dotted(path, "remote-management", "panel-github-repository") && tag == "!!str" &&
        value == "https://github.com/router-for-me/Cli-Proxy-API-Management-Center")
    || (Dotted(path, "routing", "strategy") && tag == "!!str" && value == "round-robin")
    || (path == ["error-logs-max-files"] && tag == "!!int" && value == "10")
  }

  predicate DefaultLeaf(path: Path, tag: string, value: string) {
    ZeroValue(tag, value) || BuiltIn(path, tag, value)
  }

  lemma JoinTwoDots(path: Path)
    requires |path| >= 3
    ensures var full, i, j := Join(path), |path[0]|, |path[0]| + 1 + |path[1]|;
      i < j < |full| && full[i] == '.' && full[j] == '.'
  {
    var rest := path[1..];
    assert Join(path) == path[0] + "." + Join(rest);
    assert Join(rest) == rest[0] + "." + Join(rest[1..]);
  }

  lemma OnlyDot(x: string, y: string)
    requires '.' !in x && '.' !in y
    ensures forall k :: 0 <= k < |x + "." + y| ==> ((x + "." + y)[k] == '.' <==> k == |x|)
  {
  }

  /** Joined by dots, only two paths read as x.y. */
  lemma JoinDotted(path: Path, x: string, y: string)
    requires '.' !in x && '.' !in y
    ensures Join(path) == x + "." + y <==> Dotted(path, x, y)
  {
    var full := x + "." + y;
    OnlyDot(x, y);
    if |path| == 2 {
      var a, b := path[0], path[1];
      assert Join(path) == a + "." + b && Join(path)[|a|] == '.';
      assert a == Join(path)[..|a|] && b == Join(path)[|a| + 1..];
      assert x == full[..|x|] && y == full[|x| + 1..];
    } else if |path| >= 3 {
      JoinTwoDots(path);
    }
  }

  lemma JoinPlain(path: Path, x: string)
    requires '.' !in x && x != ""
    ensures Join(path) == x <==> path == [x]
  {
    if |path| >= 2 {
      assert Join(path) == path[0] + "." + Join(path[1..]);
      assert Join(path)[|path[0]|] == '.';
    }
  }

  lemma DotFree()
    ensures '.' !in "pprof" && '.' !in "addr" && '.' !in "routing" && '.' !in "strategy"
    ensures "pprof" + "." + "addr" == "pprof.addr" && "routing" + "." + "strategy" == "routing.strategy"
  {
  }

  lemma LongDotFree()
    ensures '.' !in "remote-management" && '.' !in "panel-github-repository"
    ensures "remote-management" + "." + "panel-github-repository" == "remote-management.panel-github-repository"
  {
  }

  lemma PlainDotFree()
    ensures '.' !in "error-logs-max-files"
  {
  }

  /** A scalar is a default where it stands exactly if it is one of those above. */
  lemma LeafExactly(path: Path, tag: string, value: string)
    ensures IsKnownDefault(path, Scalar(tag, value)) <==> DefaultLeaf(path, tag, value)
  {
    DotFree();
    LongDotFree();
    PlainDotFree();
    JoinDotted(path, "pprof", "addr");
    JoinDotted(path, "remote-management", "panel-github-repository");
    JoinDotted(path, "routing", "strategy");
    JoinPlain(path, "error-logs-max-files");
    assert ZeroScalar(tag, value) <==> ZeroValue(tag, value);
    hide Join, Dotted;
  }

  /** A default value below two keys is zero: the longest known paths have two keys. */
  lemma DeepDefaultIsZero(path: Path, tag: string, value: string)
    requires |path| >= 3
    ensures DefaultLeaf(path, tag, value) <==> ZeroValue(tag, value)
  {
  }

  /** All leaves are zero. */
  predicate AllZero(n: Node) {
    match n
    case Scalar(tag, value) => ZeroValue(tag, value)
    case Mapping(_, es) => forall i :: 0 <= i < |es| ==> AllZero(es[i].value)
    case Sequence(_, xs) => forall i :: 0 <= i < |xs| ==> AllZero(xs[i])
    case _ => false
  }

  lemma {:induction false} ZeroExactly(n: Node)
    ensures IsZero(n) <==> AllZero(n)
  {
    match n
    case Mapping(_, es) =>
      forall i | 0 <= i < |es| ensures IsZero(es[i].value) <==> AllZero(es[i].value) {
        ZeroExactly(es[i].value);
      }
    case Sequence(_, xs) =>
      forall i | 0 <= i < |xs| ensures IsZero(xs[i]) <==> AllZero(xs[i]) {
        ZeroExactly(xs[i]);
      }
    case _ =>
  }
}
