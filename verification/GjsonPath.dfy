/** Paths of object keys in gjson syntax: escaping, joining, splitting and unescaping. */
module GjsonPath {

  predicate Special(c: char) {
    c == '.' || c == '*' || c == '?'
  }

  /** A backslash before each dot, star and question mark; backslashes themselves are not escaped. */
  function Escape(key: string): string {
    if key == [] then [] else EscapeChar(key[0]) + Escape(key[1..])
  }

  function EscapeChar(c: char): string {
    if Special(c) then ['\\', c] else [c]
  }

  /** Drop each backslash that has a character after it, keeping that character. */
  function Unescape(s: string): string {
    if s == [] then []
    else if s[0] == '\\' && |s| > 1 then [s[1]] + Unescape(s[2..])
    else [s[0]] + Unescape(s[1..])
  }

  function JoinPath(base: string, suffix: string): string {
    if base == [] then suffix else base + ['.'] + suffix
  }

  /** The path to the last key, built key by key as the tree is walked. */
  function PathOf(keys: seq<string>): string {
    if keys == [] then [] else JoinPath(PathOf(keys[..|keys| - 1]), Escape(keys[|keys| - 1]))
  }

  /** The parts of s between its unescaped dots; the first one starts with b. */
  function Parts(b: string, s: string): (r: seq<string>)
    ensures r != []
    decreases |s|
  {
    if s == [] then [b]
    else if s[0] == '\\' && |s| > 1 then Parts(b + s[..2], s[2..])
    else if s[0] == '.' then [b] + Parts([], s[1..])
    else Parts(b + [s[0]], s[1..])
  }

  function Split(path: string): seq<string> {
    if path == [] then [] else Parts([], path)
  }

  method UnescapeGJSONPathKey(key: string) returns (out: string)
    ensures out == Unescape(key)
  {
    out := [];
    var i := 0;
    while i < |key|
      invariant 0 <= i <= |key|
      invariant out + Unescape(key[i..]) == Unescape(key)
    {
      UnescapeOne(key, i, out);
      if key[i] == '\\' && i + 1 < |key| {
        i := i + 1;
        out := out + [key[i]];
      } else {
        out := out + [key[i]];
      }
      i := i + 1;
    }
  }

  lemma UnescapeOne(key: string, i: nat, out: string)
    requires i < |key|
    ensures out + Unescape(key[i..]) ==
      if key[i] == '\\' && i + 1 < |key| then out + [key[i + 1]] + Unescape(key[i + 2..])
      else out + [key[i]] + Unescape(key[i + 1..])
  {
    assert key[i..][1..] == key[i + 1..];
    if i + 1 < |key| { assert key[i..][2..] == key[i + 2..]; }
  }

  method SplitGJSONPath(path: string) returns (parts: seq<string>)
    ensures parts == Split(path)
  {
    if path == [] {
      return [];
    }
    parts := [];
    var b: string := [];
    var i := 0;
    assert path[0..] == path;
    while i < |path|
      invariant 0 <= i <= |path|
      invariant parts + Parts(b, path[i..]) == Parts([], path)
    {
      var c := path[i];
      if c == '\\' && i + 1 < |path| {
        assert path[i..][2..] == path[i + 2..] && path[i..][..2] == ['\\', path[i + 1]];
        assert b + ['\\', path[i + 1]] == b + ['\\'] + [path[i + 1]];
        b := b + ['\\'];
        i := i + 1;
        b := b + [path[i]];
      } else {
        assert path[i..][1..] == path[i + 1..];
        if c == '.' {
          parts := parts + [b];
          b := [];
        } else {
          b := b + [c];
        }
      }
      i := i + 1;
    }
    parts := parts + [b];
  }

  // ----- one key -----

  /** Every backslash of the key is its last character or stands before a dot, star or question mark. */
  predicate Recoverable(key: string) {
    forall i :: 0 <= i < |key| && key[i] == '\\' ==> i == |key| - 1 || key[i + 1] in {'.', '*', '?'}
  }

  /** Read from the left, a backslash and the character after it together, no dot, star or question mark
      stands alone, and neither does a backslash. */
  predicate Guarded(s: string) {
    s == [] || if s[0] == '\\' then |s| > 1 && Guarded(s[2..]) else s[0] !in {'.', '*', '?'} && Guarded(s[1..])
  }

  /** The escape of a key without backslashes is a path of one plain step. */
  lemma {:induction false} EscapeGuards(key: string)
    requires '\\' !in key
    ensures Guarded(Escape(key))
  {
    if key == [] {
    } else {
      EscapeGuards(key[1..]);
      var e := Escape(key);
      assert key[0] in key && forall c :: c in key[1..] ==> c in key;
      if Special(key[0]) {
        assert e[2..] == Escape(key[1..]);
      } else {
        assert e[1..] == Escape(key[1..]);
      }
    }
  }

  /** Unescaping gives the key back exactly when it is recoverable. */
  lemma {:induction false} UnescapeEscape(key: string)
    ensures Unescape(Escape(key)) == key <==> Recoverable(key)
    decreases |key|
  {
    if key != [] && key[0] == '\\' && |key| > 1 {
      var c, t := key[1], key[2..];
      UnescapePair(c, t);
      assert key == ['\\', c] + t;
      if Special(c) {
        UnescapeEscape(t);
        RecoverableTail(key, 2);
      } else {
        Shrinks(t);
        assert key[0] == '\\' && !Special(key[0 + 1]);
      }
    } else if key != [] {
      var t := key[1..];
      UnescapeEscape(t);
      UnescapeChar(key[0], t);
      assert key == [key[0]] + t;
      if key[0] != '\\' {
        RecoverableTail(key, 1);
      }
    }
  }

  lemma RecoverableTail(key: string, k: nat)
    requires k <= |key| && forall i :: 0 <= i < k && key[i] == '\\' ==> i + 1 < |key| && Special(key[i + 1])
    ensures Recoverable(key) <==> Recoverable(key[k..])
  {
    if Recoverable(key[k..]) {
      forall i | 0 <= i < |key| && key[i] == '\\' ensures i == |key| - 1 || Special(key[i + 1]) {
        if i >= k { assert key[k..][i - k] == '\\'; }
      }
    }
    if Recoverable(key) {
      forall i | 0 <= i < |key[k..]| && key[k..][i] == '\\' ensures i == |key[k..]| - 1 || Special(key[k..][i + 1]) {
        assert key[k + i] == '\\';
      }
    }
  }

  /** Escaping and unescaping never makes a key longer. */
  lemma {:induction false} Shrinks(key: string)
    ensures |Unescape(Escape(key))| <= |key|
    decreases |key|
  {
    if key == [] {
    } else {
      if key[0] == '\\' && |key| > 1 {
        Shrinks(key[2..]);
        UnescapePair(key[1], key[2..]);
        assert key == ['\\', key[1]] + key[2..];
      } else {
        Shrinks(key[1..]);
        UnescapeChar(key[0], key[1..]);
        assert key == [key[0]] + key[1..];
      }
    }
  }

  lemma UnescapeEscaped(c: char, s: string)
    ensures Unescape(['\\', c] + s) == [c] + Unescape(s)
  {
    assert (['\\', c] + s)[2..] == s;
  }

  lemma UnescapePlain(c: char, s: string)
    requires c != '\\'
    ensures Unescape([c] + s) == [c] + Unescape(s)
  {
    assert ([c] + s)[1..] == s;
  }

  /** A leading backslash and the character after it: both survive if that one is special, else it alone. */
  lemma UnescapePair(c: char, t: string)
    ensures Unescape(Escape(['\\', c] + t)) == (if Special(c) then ['\\', c] else [c]) + Unescape(Escape(t))
  {
    TwoEscapes('\\', c, t);
    hide Escape, Unescape;
    if Special(c) {
      assert ['\\'] + EscapeChar(c) + Escape(t) == ['\\', '\\'] + ([c] + Escape(t));
      UnescapeEscaped('\\', [c] + Escape(t));
      UnescapePlain(c, Escape(t));
    } else {
      assert ['\\'] + EscapeChar(c) + Escape(t) == ['\\', c] + Escape(t);
      UnescapeEscaped(c, Escape(t));
    }
  }

  lemma UnescapeChar(c: char, t: string)
    requires c != '\\' || t == []
    ensures Unescape(Escape([c] + t)) == [c] + Unescape(Escape(t))
  {
    var key := [c] + t;
    assert key[1..] == t;
    assert Escape(key) == EscapeChar(c) + Escape(t);
    assert Escape(key)[|EscapeChar(c)|..] == Escape(t);
  }

  // ----- lists of keys -----

  /** Reading an escaped key from its start, no dot is met outside an escape; `last` allows a final
      lone backslash. */
  predicate Unbroken(key: string, last: bool)
    decreases |key|
  {
    key == [] ||
    if key[0] != '\\' then Unbroken(key[1..], last)
    else if |key| == 1 then last
    else key[1] != '.' && Unbroken(key[2..], last)
  }

  predicate Splittable(keys: seq<string>) {
    (keys == [] || keys[0] != []) &&
    forall i :: 0 <= i < |keys| ==> Unbroken(keys[i], i == |keys| - 1)
  }

  function EscapeAll(keys: seq<string>): seq<string> {
    seq(|keys|, i requires 0 <= i < |keys| => Escape(keys[i]))
  }

  /** The parts of an unbroken key followed by a dot: the key whole, then the rest. */
  lemma {:induction false} PartsUnbroken(b: string, key: string, rest: string)
    requires Unbroken(key, false)
    ensures Parts(b, Escape(key) + (['.'] + rest)) == [b + Escape(key)] + Parts([], rest)
    decreases |key|
  {
    var s := Escape(key) + (['.'] + rest);
    if key == [] {
      assert s == ['.'] + rest && s[1..] == rest;
      assert b + [] == b;
    } else {
      var (o, t) := Chunk(key);
      ChunkEscapes(key);
      PartsUnbroken(b + o, t, rest);
      PartsChunk(b, o, Escape(t) + (['.'] + rest));
      Associative(o, Escape(t), ['.'] + rest);
      Associative(b, o, Escape(t));
    }
  }

  lemma {:induction false} PartsLast(b: string, key: string)
    requires Unbroken(key, true)
    ensures Parts(b, Escape(key)) == [b + Escape(key)]
    decreases |key|
  {
    if key == [] {
      assert b + [] == b;
    } else if key == ['\\'] {
      assert Escape(key) == ['\\'] + Escape(key[1..]) == ['\\'];
    } else {
      var (o, t) := Chunk(key);
      ChunkEscapes(key);
      PartsLast(b + o, t);
      PartsChunk(b, o, Escape(t));
      Associative(b, o, Escape(t));
    }
  }

  /** The escape of a key's first character, or of its first two if a backslash leads. */
  function Chunk(key: string): (string, string)
    requires key != [] && key != ['\\']
  {
    if key[0] == '\\' then (['\\'] + EscapeChar(key[1]), key[2..])
    else (EscapeChar(key[0]), key[1..])
  }

  lemma ChunkEscapes(key: string)
    requires key != [] && key != ['\\']
    ensures var (o, t) := Chunk(key); Escape(key) == o + Escape(t)
    ensures var (o, t) := Chunk(key);
      (|o| == 1 && o[0] != '\\' && o[0] != '.') || (|o| == 2 && o[0] == '\\') ||
      (|o| == 3 && o[0] == '\\' && o[2] == key[1] && Special(key[1]) && key[0] == '\\')
  {
    if key[0] == '\\' {
      TwoEscapes(key[0], key[1], key[2..]);
      assert key == [key[0], key[1]] + key[2..];
    }
  }

  lemma TwoEscapes(c: char, d: char, t: string)
    ensures Escape([c, d] + t) == EscapeChar(c) + EscapeChar(d) + Escape(t)
  {
    var s := [c, d] + t;
    assert s[1..][1..] == t;
    assert Escape(s) == EscapeChar(c) + (EscapeChar(d) + Escape(t));
  }

  lemma PartsChunk(b: string, o: string, s: string)
    requires (|o| == 1 && o[0] != '\\' && o[0] != '.') || (|o| == 2 && o[0] == '\\') ||
             (|o| == 3 && o[0] == '\\' && o[2] != '\\' && o[2] != '.')
    ensures Parts(b, o + s) == Parts(b + o, s)
  {
    var os := o + s;
    if |o| == 1 {
      assert os[1..] == s && o == [o[0]];
    } else {
      assert os[..2] == o[..2] && os[2..] == o[2..] + s;
      if |o| == 2 {
        assert o[..2] == o && o[2..] + s == s;
      } else {
        assert os[2..][1..] == s;
        assert b + o[..2] + [o[2]] == b + o;
      }
    }
  }

  /** A broken key: some part of it is split off before its end, or the following dot is swallowed. */
  lemma {:induction false} PartsBroken(b: string, key: string, rest: string)
    requires !Unbroken(key, false)
    ensures Parts(b, Escape(key) + (['.'] + rest))[0] != b + Escape(key)
    decreases |key|
  {
    if key == ['\\'] {
      var s := ['\\', '.'] + rest;
      assert Escape(key) == ['\\'] + Escape(key[1..]) == ['\\'];
      assert Escape(key) + (['.'] + rest) == s;
      assert s[..2] == ['\\', '.'] && s[2..] == rest;
      FirstPartGrows(b + ['\\', '.'], rest);
    } else if key[0] == '\\' && key[1] == '.' {
      var s := Escape(key) + (['.'] + rest);
      ChunkEscapes(key);
      assert s == ['\\', '\\', '.'] + (Escape(key[2..]) + (['.'] + rest));
      DotAfterPair(b, Escape(key[2..]) + (['.'] + rest));
    } else {
      var (o, t) := Chunk(key);
      ChunkEscapes(key);
      PartsBroken(b + o, t, rest);
      PartsChunk(b, o, Escape(t) + (['.'] + rest));
      assert Escape(key) + (['.'] + rest) == o + (Escape(t) + (['.'] + rest));
      assert b + o + Escape(t) == b + (o + Escape(t));
    }
  }

  lemma Associative(a: string, b: string, c: string)
    ensures a + b + c == a + (b + c)
  {
  }

  lemma DotAfterPair(b: string, t: string)
    ensures Parts(b, ['\\', '\\', '.'] + t) == [b + ['\\', '\\']] + Parts([], t)
  {
    var s := ['\\', '\\', '.'] + t;
    assert s[..2] == ['\\', '\\'] && s[2..][0] == '.' && s[2..][1..] == t;
  }

  lemma {:induction false} PartsLastBroken(b: string, key: string)
    requires !Unbroken(key, true)
    ensures Parts(b, Escape(key)) != [b + Escape(key)]
    decreases |key|
  {
    if key[0] == '\\' && key[1] == '.' {
      var s := Escape(key);
      ChunkEscapes(key);
      assert s == ['\\', '\\', '.'] + Escape(key[2..]);
      DotAfterPair(b, Escape(key[2..]));
    } else {
      var (o, t) := Chunk(key);
      ChunkEscapes(key);
      PartsLastBroken(b + o, t);
      PartsChunk(b, o, Escape(t));
      Associative(b, o, Escape(t));
    }
  }

  lemma {:induction false} FirstPartGrows(b: string, s: string)
    ensures |Parts(b, s)[0]| >= |b|
    decreases |s|
  {
    if s != [] && s[0] == '\\' && |s| > 1 {
      FirstPartGrows(b + s[..2], s[2..]);
    } else if s != [] && s[0] != '.' {
      FirstPartGrows(b + [s[0]], s[1..]);
    }
  }

  // ----- the path of a list of keys -----

  /** The escapes of the keys with dots between them. */
  function Dotted(keys: seq<string>): string
    requires keys != []
  {
    if |keys| == 1 then Escape(keys[0]) else Escape(keys[0]) + (['.'] + Dotted(keys[1..]))
  }

  lemma {:induction false} DottedSnoc(keys: seq<string>, k: string)
    requires keys != []
    ensures Dotted(keys + [k]) == Dotted(keys) + (['.'] + Escape(k))
  {
    assert (keys + [k])[1..] == keys[1..] + [k];
    if |keys| > 1 {
      DottedSnoc(keys[1..], k);
      assert Escape(keys[0]) + (['.'] + (Dotted(keys[1..]) + (['.'] + Escape(k))))
          == Escape(keys[0]) + (['.'] + Dotted(keys[1..])) + (['.'] + Escape(k));
    }
  }

  lemma {:induction false} PathIsDotted(keys: seq<string>)
    requires keys != [] && keys[0] != []
    ensures PathOf(keys) == Dotted(keys) && PathOf(keys) != []
  {
    var init, k := keys[..|keys| - 1], keys[|keys| - 1];
    assert keys == init + [k];
    if init != [] {
      PathIsDotted(init);
      DottedSnoc(init, k);
    } else {
      assert keys == [k];
    }
  }

  lemma {:induction false} PartsDotted(keys: seq<string>)
    requires keys != []
    ensures Parts([], Dotted(keys)) == EscapeAll(keys) <==>
      forall i :: 0 <= i < |keys| ==> Unbroken(keys[i], i == |keys| - 1)
  {
    if |keys| == 1 {
      assert EscapeAll(keys) == [Escape(keys[0])] == [[] + Escape(keys[0])];
      if Unbroken(keys[0], true) { PartsLast([], keys[0]); } else { PartsLastBroken([], keys[0]); }
    } else {
      var rest := keys[1..];
      PartsDotted(rest);
      assert EscapeAll(keys) == [Escape(keys[0])] + EscapeAll(rest);
      assert forall i :: 0 <= i < |rest| ==> rest[i] == keys[i + 1];
      assert [] + Escape(keys[0]) == Escape(keys[0]);
      if Unbroken(keys[0], false) {
        PartsUnbroken([], keys[0], Dotted(rest));
        assert ([Escape(keys[0])] + Parts([], Dotted(rest)))[1..] == Parts([], Dotted(rest));
        if forall i :: 0 <= i < |rest| ==> Unbroken(rest[i], i == |rest| - 1) {
          forall i | 0 <= i < |keys| ensures Unbroken(keys[i], i == |keys| - 1) {
            if i > 0 { assert Unbroken(rest[i - 1], i - 1 == |rest| - 1); }
          }
        }
      } else {
        PartsBroken([], keys[0], Dotted(rest));
      }
    }
  }

  /** An empty first key is never recovered. */
  lemma {:induction false} SplitPathNeedsFirstKey(keys: seq<string>)
    requires keys != [] && keys[0] == []
    ensures Split(PathOf(keys)) != EscapeAll(keys)
  {
    EmptyPrefix(keys);
    var n := Leading(keys);
    if n == |keys| {
      assert keys[..n] == keys;
      assert |EscapeAll(keys)| == |keys|;
    } else {
      PathAfterEmpty(keys, n);
      var s := keys[n..];
      PathIsDotted(s);
      FirstPartNonEmpty(s);
      assert EscapeAll(keys)[0] == [];
    }
  }

  /** How many of the first keys are empty. */
  function Leading(keys: seq<string>): (n: nat)
    ensures n <= |keys|
  {
    if keys == [] || keys[0] != [] then 0 else 1 + Leading(keys[1..])
  }

  lemma {:induction false} EmptyPrefix(keys: seq<string>)
    ensures PathOf(keys[..Leading(keys)]) == []
    ensures forall i :: 0 <= i < Leading(keys) ==> keys[i] == []
    ensures Leading(keys) < |keys| ==> keys[Leading(keys)] != []
  {
    if keys != [] && keys[0] == [] {
      EmptyPrefix(keys[1..]);
    }
    AllEmpty(keys[..Leading(keys)]);
  }

  lemma {:induction false} AllEmpty(keys: seq<string>)
    requires forall i :: 0 <= i < |keys| ==> keys[i] == []
    ensures PathOf(keys) == []
  {
    if keys == [] {
    } else {
      AllEmpty(keys[..|keys| - 1]);
    }
  }

  lemma {:induction false} PathAfterEmpty(keys: seq<string>, n: nat)
    requires n < |keys| && keys[n] != [] && PathOf(keys[..n]) == []
    ensures PathOf(keys) == PathOf(keys[n..])
    decreases |keys|
  {
    var init, k := keys[..|keys| - 1], keys[|keys| - 1];
    if n < |keys| - 1 {
      assert init[..n] == keys[..n];
      PathAfterEmpty(init, n);
      assert keys[n..][..|keys| - n - 1] == init[n..];
      PathIsDotted(init[n..]);
    } else {
      assert init == keys[..n] && keys[n..] == [k];
    }
  }

  /** The first part of a path whose first key is not empty is not empty. */
  lemma FirstPartNonEmpty(keys: seq<string>)
    requires keys != [] && keys[0] != []
    ensures Parts([], Dotted(keys))[0] != []
  {
    var s, c := Dotted(keys), keys[0][0];
    assert Escape(keys[0])[0] != '.';
    assert s[0] == Escape(keys[0])[0];
    if s[0] == '\\' && |s| > 1 {
      FirstPartGrows([] + s[..2], s[2..]);
    } else {
      FirstPartGrows([] + [s[0]], s[1..]);
    }
  }

  /** Splitting the path of any list of keys gives their escapes, in order, exactly when the first key
      is not empty and no key is broken. */
  lemma SplitPath(keys: seq<string>)
    ensures Split(PathOf(keys)) == EscapeAll(keys) <==> Splittable(keys)
  {
    if keys != [] {
      if keys[0] == [] {
        SplitPathNeedsFirstKey(keys);
      } else {
        PathIsDotted(keys);
        PartsDotted(keys);
      }
    }
  }

  /** Keys without backslashes, the first not empty: the path splits into the escapes and each
      unescapes to its key. */
  lemma RoundTrip(keys: seq<string>)
    requires keys == [] || keys[0] != []
    requires forall i :: 0 <= i < |keys| ==> '\\' !in keys[i]
    ensures Split(PathOf(keys)) == EscapeAll(keys)
    ensures forall i :: 0 <= i < |keys| ==> Unescape(EscapeAll(keys)[i]) == keys[i]
  {
    forall i | 0 <= i < |keys| ensures Unbroken(keys[i], i == |keys| - 1) && Unescape(Escape(keys[i])) == keys[i] {
      PlainUnbroken(keys[i], i == |keys| - 1);
      UnescapeEscape(keys[i]);
    }
    SplitPath(keys);
  }

  lemma {:induction false} PlainUnbroken(key: string, last: bool)
    requires '\\' !in key
    ensures Unbroken(key, last)
  {
    if key == [] {
    } else {
      PlainUnbroken(key[1..], last);
    }
  }

  /** A key that ends in a backslash swallows the dot before the next key. */
  lemma BackslashBeforeDot()
    ensures Split(PathOf(["a\\", "b"])) != EscapeAll(["a\\", "b"])
  {
    var key := "a\\";
    assert key[1..] == "\\";
    assert !Unbroken("\\", false);
    assert !Unbroken(key, false);
    assert ["a\\", "b"][0] == key;
    SplitPath(["a\\", "b"]);
  }
}
