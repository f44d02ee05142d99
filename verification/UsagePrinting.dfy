/** The deduplication key as it is printed, its fields separated by bars, and when that tells keys apart. */
module UsagePrinting {
  import opened UsageState
  import opened UsageMerge

  /** How moments and numbers are printed. */
  datatype Printer = Printer(moment: int -> string, number: int -> string) {
    ghost predicate Faithful() {
      && (forall i, j :: moment(i) == moment(j) ==> i == j) && (forall i, j :: number(i) == number(j) ==> i == j)
      && (forall i :: '|' !in moment(i)) && (forall i :: '|' !in number(i))
    }
  }

  function Flag(b: bool): string { if b then "true" else "false" }

  function Fields(p: Printer, k: Key): seq<string> {
    [k.api, k.model, p.moment(k.instant)] + ([k.source, k.authIndex] + Rest(p, k))
  }

  function Rest(p: Printer, k: Key): seq<string> {
    [Flag(k.failed), p.number(k.tokens.input), p.number(k.tokens.output), p.number(k.tokens.reasoning),
     p.number(k.tokens.cached), p.number(k.tokens.total)]
  }

  function Joined(fields: seq<string>): string {
    if fields == [] then [] else if |fields| == 1 then fields[0] else fields[0] + ['|'] + Joined(fields[1..])
  }

  function Printed(p: Printer, k: Key): string {
    Joined(Fields(p, k))
  }

  predicate Barless(fields: seq<string>) {
    forall i :: 0 <= i < |fields| ==> '|' !in fields[i]
  }

  function Bars(s: string): nat {
    if s == [] then 0 else Bars(s[1..]) + if s[0] == '|' then 1 else 0
  }

  lemma {:induction false} BarsConcat(s: string, t: string)
    ensures Bars(s + t) == Bars(s) + Bars(t)
  {
    if s == [] {
      assert s + t == t;
    } else {
      assert (s + t)[1..] == s[1..] + t;
      BarsConcat(s[1..], t);
    }
  }

  lemma {:induction false} NoBars(s: string)
    ensures Bars(s) == 0 <==> '|' !in s
  {
    if s == [] {
    } else {
      NoBars(s[1..]);
    }
  }

  /** Fields without bars give one bar fewer than there are fields, others give more. */
  lemma {:induction false} JoinedBars(fields: seq<string>)
    requires fields != []
    ensures Bars(Joined(fields)) >= |fields| - 1
    ensures Bars(Joined(fields)) == |fields| - 1 <==> Barless(fields)
  {
    NoBars(fields[0]);
    if |fields| > 1 {
      var rest := fields[1..];
      JoinedBars(rest);
      BarsConcat(fields[0] + ['|'], Joined(rest));
      BarsConcat(fields[0], ['|']);
      assert Bars(['|']) == 1;
      assert Barless(fields) <==> '|' !in fields[0] && Barless(rest) by {
        assert forall i :: 0 < i < |fields| ==> fields[i] == rest[i - 1];
      }
    }
  }

  lemma FirstField(a: string, s: string, b: string, t: string)
    requires '|' !in a && '|' !in b && a + ['|'] + s == b + ['|'] + t
    ensures a == b && s == t
  {
    var x, y := a + ['|'] + s, b + ['|'] + t;
    assert x[|a|] == '|' && y[|b|] == '|';
    assert (forall i :: 0 <= i < |a| ==> x[i] == a[i]) && (forall i :: 0 <= i < |b| ==> y[i] == b[i]);
    assert a == x[..|a|] && b == y[..|b|] && s == x[|a| + 1..] && t == y[|b| + 1..];
  }

  lemma {:induction false} JoinedInjective(xs: seq<string>, ys: seq<string>)
    requires |xs| == |ys| && Barless(xs) && Barless(ys) && Joined(xs) == Joined(ys)
    ensures xs == ys
    decreases |xs|
  {
    if |xs| > 1 {
      FirstField(xs[0], Joined(xs[1..]), ys[0], Joined(ys[1..]));
      JoinedInjective(xs[1..], ys[1..]);
      assert xs == [xs[0]] + xs[1..] && ys == [ys[0]] + ys[1..];
    }
  }

  lemma BarlessFields(p: Printer, k: Key)
    requires p.Faithful()
    ensures Barless(Fields(p, k)) <==> '|' !in k.api && '|' !in k.model && '|' !in k.source && '|' !in k.authIndex
  {
    var fields := Fields(p, k);
    assert fields[0] == k.api && fields[1] == k.model && fields[3] == k.source && fields[4] == k.authIndex;
    assert '|' !in "true" && '|' !in "false";
  }

  lemma FieldsInjective(p: Printer, k: Key, l: Key)
    requires p.Faithful() && Fields(p, k) == Fields(p, l)
    ensures k == l
  {
    var x, y := Fields(p, k), Fields(p, l);
    assert x[0] == y[0] && x[1] == y[1] && x[2] == y[2] && x[3] == y[3] && x[4] == y[4] && x[5] == y[5];
    assert x[6] == y[6] && x[7] == y[7] && x[8] == y[8] && x[9] == y[9] && x[10] == y[10];
    assert "true"[0] != "false"[0];
  }

  /** Another key that is printed alike, by moving a bar from one field to the next. */
  function Shifted(k: Key): Key {
    if '|' in k.api then
      var i := BarAt(k.api); k.(api := k.api[..i], model := k.api[i + 1..] + ['|'] + k.model)
    else if '|' in k.model then
      var i := BarAt(k.model); k.(api := k.api + ['|'] + k.model[..i], model := k.model[i + 1..])
    else if '|' in k.source then
      var i := BarAt(k.source); k.(source := k.source[..i], authIndex := k.source[i + 1..] + ['|'] + k.authIndex)
    else if '|' in k.authIndex then
      var i := BarAt(k.authIndex); k.(source := k.source + ['|'] + k.authIndex[..i], authIndex := k.authIndex[i + 1..])
    else k
  }

  function BarAt(s: string): (i: nat)
    requires '|' in s
    ensures i < |s| && s[i] == '|'
  {
    if s[0] == '|' then 0 else 1 + BarAt(s[1..])
  }

  lemma BarSplits(s: string, i: nat)
    requires i < |s| && s[i] == '|'
    ensures s[..i] + ['|'] + s[i + 1..] == s
    ensures |s[..i]| < |s| && |s[i + 1..]| < |s|
  {
  }

  lemma JoinedPair(a: string, b: string)
    ensures Joined([a, b]) == a + ['|'] + b
  {
    assert [a, b][1..] == [b];
  }

  lemma TwoFields(a: string, b: string, c: string, d: string, rest: seq<string>)
    requires a + ['|'] + b == c + ['|'] + d
    ensures Joined([a, b] + rest) == Joined([c, d] + rest)
  {
    var xs, ys := [a, b] + rest, [c, d] + rest;
    assert xs[1..] == [b] + rest && ys[1..] == [d] + rest && ([b] + rest)[1..] == rest && ([d] + rest)[1..] == rest;
    if rest == [] {
      assert xs == [a, b] && ys == [c, d];
      JoinedPair(a, b);
      JoinedPair(c, d);
    } else {
      var r := Joined(rest);
      assert Joined(xs) == a + ['|'] + (b + ['|'] + r) && Joined(ys) == c + ['|'] + (d + ['|'] + r);
      assert Joined(xs) == (a + ['|'] + b) + (['|'] + r) && Joined(ys) == (c + ['|'] + d) + (['|'] + r);
    }
  }

  lemma {:induction false} SamePrefix(front: seq<string>, xs: seq<string>, ys: seq<string>)
    requires xs != [] && ys != [] && Joined(xs) == Joined(ys)
    ensures Joined(front + xs) == Joined(front + ys)
    decreases |front|
  {
    if front == [] {
      assert front + xs == xs && front + ys == ys;
    } else {
      SamePrefix(front[1..], xs, ys);
      assert (front + xs)[1..] == front[1..] + xs && (front + ys)[1..] == front[1..] + ys;
    }
  }

  lemma ShiftedPrints(p: Printer, k: Key)
    requires '|' in k.api || '|' in k.model || '|' in k.source || '|' in k.authIndex
    ensures Printed(p, Shifted(k)) == Printed(p, k) && Shifted(k) != k
  {
    var l := Shifted(k);
    if '|' in k.api || '|' in k.model {
      ShiftedNames(k);
      NamesPrint(p, k, l);
    } else {
      ShiftedSources(k);
      SourcesPrint(p, k, l);
    }
  }

  lemma NamesPrint(p: Printer, k: Key, l: Key)
    requires l == k.(api := l.api, model := l.model) && k.api + ['|'] + k.model == l.api + ['|'] + l.model
    ensures Printed(p, l) == Printed(p, k)
  {
    hide Joined, Rest;
    var rest := [p.moment(k.instant)] + ([k.source, k.authIndex] + Rest(p, k));
    assert Rest(p, l) == Rest(p, k) by { SameRest(p, k, l); }
    TwoFields(k.api, k.model, l.api, l.model, rest);
    assert Fields(p, k) == [k.api, k.model] + rest && Fields(p, l) == [l.api, l.model] + rest;
  }

  lemma SameRest(p: Printer, k: Key, l: Key)
    requires l.failed == k.failed && l.tokens == k.tokens
    ensures Rest(p, l) == Rest(p, k)
  {
  }

  lemma SourcesPrint(p: Printer, k: Key, l: Key)
    requires l == k.(source := l.source, authIndex := l.authIndex)
    requires k.source + ['|'] + k.authIndex == l.source + ['|'] + l.authIndex
    ensures Printed(p, l) == Printed(p, k)
  {
    hide Joined, Rest;
    assert Rest(p, l) == Rest(p, k) by { SameRest(p, k, l); }
    TwoFields(k.source, k.authIndex, l.source, l.authIndex, Rest(p, k));
    SamePrefix([k.api, k.model, p.moment(k.instant)], [k.source, k.authIndex] + Rest(p, k),
      [l.source, l.authIndex] + Rest(p, k));
  }

  lemma ShiftedNames(k: Key)
    requires '|' in k.api || '|' in k.model
    ensures var l := Shifted(k);
      l != k && l == k.(api := l.api, model := l.model) && k.api + ['|'] + k.model == l.api + ['|'] + l.model
  {
    if '|' in k.api {
      var i := BarAt(k.api);
      BarSplits(k.api, i);
      assert k.api[..i] + ['|'] + (k.api[i + 1..] + ['|'] + k.model) ==
        (k.api[..i] + ['|'] + k.api[i + 1..]) + ['|'] + k.model;
    } else {
      var i := BarAt(k.model);
      BarSplits(k.model, i);
      assert k.api + ['|'] + k.model[..i] + ['|'] + k.model[i + 1..] ==
        k.api + ['|'] + (k.model[..i] + ['|'] + k.model[i + 1..]);
    }
  }

  lemma ShiftedSources(k: Key)
    requires '|' !in k.api && '|' !in k.model && ('|' in k.source || '|' in k.authIndex)
    ensures var l := Shifted(k);
      && l != k && l == k.(source := l.source, authIndex := l.authIndex)
      && k.source + ['|'] + k.authIndex == l.source + ['|'] + l.authIndex
  {
    if '|' in k.source {
      var i := BarAt(k.source);
      BarSplits(k.source, i);
      assert k.source[..i] + ['|'] + (k.source[i + 1..] + ['|'] + k.authIndex) ==
        (k.source[..i] + ['|'] + k.source[i + 1..]) + ['|'] + k.authIndex;
    } else {
      var i := BarAt(k.authIndex);
      BarSplits(k.authIndex, i);
      assert k.source + ['|'] + k.authIndex[..i] + ['|'] + k.authIndex[i + 1..] ==
        k.source + ['|'] + (k.authIndex[..i] + ['|'] + k.authIndex[i + 1..]);
    }
  }

  /** The printed key stands for this key alone exactly if none of its names contains a bar. */
  lemma PrintedExactly(p: Printer, k: Key)
    requires p.Faithful()
    ensures (forall l :: Printed(p, l) == Printed(p, k) ==> l == k) <==>
      '|' !in k.api && '|' !in k.model && '|' !in k.source && '|' !in k.authIndex
  {
    BarlessFields(p, k);
    if Barless(Fields(p, k)) {
      forall l | Printed(p, l) == Printed(p, k) ensures l == k {
        JoinedBars(Fields(p, k));
        JoinedBars(Fields(p, l));
        JoinedInjective(Fields(p, l), Fields(p, k));
        FieldsInjective(p, l, k);
      }
    } else {
      ShiftedPrints(p, k);
    }
  }
}
