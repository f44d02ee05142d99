/** The string helpers of Go's standard library that the modelled code relies on. */
module Text {

  /** unicode.IsSpace, the white space that strings.TrimSpace removes. */
  predicate IsSpace(c: char) {
    '\t' <= c <= '\r' || c == ' ' || c == '\U{85}' || c == '\U{A0}' || c == '\U{1680}' ||
    '\U{2000}' <= c <= '\U{200A}' || c == '\U{2028}' || c == '\U{2029}' || c == '\U{202F}' ||
    c == '\U{205F}' || c == '\U{3000}'
  }

  function TrimLeft(s: string): string {
    if s != [] && IsSpace(s[0]) then TrimLeft(s[1..]) else s
  }

  function TrimRight(s: string): string {
    if s != [] && IsSpace(s[|s| - 1]) then TrimRight(s[..|s| - 1]) else s
  }

  function TrimSpace(s: string): string {
    TrimRight(TrimLeft(s))
  }

  /** Lower-casing of the ASCII letters; other characters are left alone. */
  function LowerChar(c: char): char {
    if 'A' <= c <= 'Z' then c + 32 as char else c
  }

  function ToLower(s: string): (r: string)
    ensures |r| == |s|
  {
    if s == [] then [] else [LowerChar(s[0])] + ToLower(s[1..])
  }

  /** The bytes of a character in UTF-8, section 3 of RFC 3629. */
  function Width(c: char): nat {
    if (c as int) < 0x80 then 1 else if (c as int) < 0x800 then 2 else if (c as int) < 0x10000 then 3 else 4
  }

  /** What Go's len gives for a string. */
  function ByteLength(s: string): nat {
    if s == [] then 0 else Width(s[0]) + ByteLength(s[1..])
  }

  predicate EqualFold(a: string, b: string) {
    ToLower(a) == ToLower(b)
  }

  predicate Contains(s: string, sub: string) {
    sub <= s || (s != [] && Contains(s[1..], sub))
  }

  /** Lower-casing works on each character alone. */
  lemma {:induction false} LowerPoints(s: string)
    ensures |ToLower(s)| == |s| && forall i :: 0 <= i < |s| ==>
      ToLower(s)[i] == if 'A' <= s[i] <= 'Z' then s[i] - 'A' + 'a' else s[i]
  {
    if s == [] {
    } else {
      LowerPoints(s[1..]);
    }
  }

  lemma {:induction false} ToLowerIdempotent(s: string)
    ensures ToLower(ToLower(s)) == ToLower(s)
  {
    if s == [] {
    } else {
      ToLowerIdempotent(s[1..]);
    }
  }

  lemma {:induction false} TrimRightEnds(s: string)
    ensures TrimRight(s) <= s
    ensures TrimRight(s) == [] || !IsSpace(TrimRight(s)[|TrimRight(s)| - 1])
  {
    if s != [] && IsSpace(s[|s| - 1]) {
      TrimRightEnds(s[..|s| - 1]);
    }
  }

  lemma {:induction false} TrimLeftStart(s: string)
    ensures TrimLeft(s) == [] || !IsSpace(TrimLeft(s)[0])
  {
    if s != [] && IsSpace(s[0]) {
      TrimLeftStart(s[1..]);
    }
  }

  /** White space by its code points, as Unicode lists it. */
  lemma SpaceExactly(c: char)
    ensures IsSpace(c) <==>
      (c as int) in {0x9, 0xA, 0xB, 0xC, 0xD, 0x20, 0x85, 0xA0, 0x1680, 0x2000, 0x2001, 0x2002, 0x2003, 0x2004, 0x2005,
                     0x2006, 0x2007, 0x2008, 0x2009, 0x200A, 0x2028, 0x2029, 0x202F, 0x205F, 0x3000}
  {
  }

  predicate AllSpace(s: string) {
    forall i :: 0 <= i < |s| ==> IsSpace(s[i])
  }

  lemma {:induction false} LeftExactly(s: string)
    ensures var n := |s| - |TrimLeft(s)|; 0 <= n && TrimLeft(s) == s[n..] && AllSpace(s[..n])
  {
    if s != [] && IsSpace(s[0]) {
      LeftExactly(s[1..]);
      var n := |s| - |TrimLeft(s)|;
      assert s[1..][..n - 1] == s[1..n] && s[..n] == [s[0]] + s[1..n];
    }
  }

  lemma {:induction false} RightExactly(s: string)
    ensures var n := |TrimRight(s)|; n <= |s| && TrimRight(s) == s[..n] && AllSpace(s[n..])
  {
    if s != [] && IsSpace(s[|s| - 1]) {
      var init := s[..|s| - 1];
      RightExactly(init);
      var n := |TrimRight(s)|;
      assert init[n..] + [s[|s| - 1]] == s[n..];
    }
  }

  /** Trimming takes white space off both ends, and all of it. */
  lemma TrimExactly(s: string)
    ensures exists a, b :: AllSpace(a) && AllSpace(b) && s == a + TrimSpace(s) + b
    ensures TrimSpace(s) != [] ==> !IsSpace(TrimSpace(s)[0]) && !IsSpace(TrimSpace(s)[|TrimSpace(s)| - 1])
  {
    var l := TrimLeft(s);
    LeftExactly(s);
    RightExactly(l);
    TrimLeftStart(s);
    TrimRightEnds(l);
    var a, b := s[..|s| - |l|], l[|TrimSpace(s)|..];
    assert s == a + TrimSpace(s) + b;
  }

  /** Trimming twice is trimming once. */
  lemma TrimSpaceIdempotent(s: string)
    ensures TrimSpace(TrimSpace(s)) == TrimSpace(s)
  {
    var l := TrimLeft(s);
    TrimLeftStart(s);
    TrimRightEnds(l);
    var t := TrimRight(l);
    assert t == [] || !IsSpace(t[0]);
    assert TrimLeft(t) == t;
  }

  lemma TrimOne(c: char)
    requires !IsSpace(c)
    ensures TrimSpace([c]) == [c]
  {
  }

  /** A text without blanks at its ends stays as it is. */
  lemma TrimFixed(s: string)
    requires s != [] && !IsSpace(s[0]) && !IsSpace(s[|s| - 1])
    ensures TrimSpace(s) == s
  {
  }

  lemma TrimBlank()
    ensures TrimSpace(" ") == ""
  {
    assert " "[1..] == "" && TrimLeft("") == "";
  }

  lemma TrimLeadingBlank(c: char)
    requires !IsSpace(c)
    ensures TrimSpace([' ', c]) == [c]
  {
    assert [' ', c][1..] == [c];
    TrimOne(c);
  }
}
