/** FixJSON turns single-quoted strings into double-quoted ones. It is idempotent, leaves text
    without single-quoted strings alone, and preserves what every string literal decodes to. */
module FixJson {

  predicate IsHex(c: char) {
    '0' <= c <= '9' || 'a' <= c <= 'f' || 'A' <= c <= 'F'
  }

  /** The scanner's position: outside strings, or in one with or without a pending backslash. */
  datatype State = Outside | Double(escaped: bool) | Single(escaped: bool)

  /** One rune of input: the next position and what is written. */
  function Step(q: State, r: char): (State, string) {
    match q
    case Outside =>
      if r == '"' then (Double(false), [r])
      else if r == '\'' then (Single(false), ['"'])
      else (Outside, [r])
    case Double(escaped) =>
      (if escaped then Double(false) else if r == '\\' then Double(true)
       else if r == '"' then Outside else Double(false), [r])
    case Single(escaped) =>
      if escaped then (Single(false), if r == '\'' then [r] else ['\\', r])
      else if r == '\\' then (Single(true), [])
      else if r == '\'' then (Outside, ['"'])
      else if r == '"' then (Single(false), ['\\', '"'])
      else (Single(false), [r])
  }

  function Out(q: State, s: string): string
    decreases |s|
  {
    if s == [] then [] else Step(q, s[0]).1 + Out(Step(q, s[0]).0, s[1..])
  }

  function End(q: State, s: string): State
    decreases |s|
  {
    if s == [] then q else End(Step(q, s[0]).0, s[1..])
  }

  /** FixJSON without the look-ahead after \u: rune by rune, closing an unfinished single-quoted string. */
  function Fix(s: string): string {
    Out(Outside, s) + if End(Outside, s).Single? then ['"'] else []
  }

  lemma OneStep(q: State, input: string, i: nat)
    requires i < |input|
    ensures Out(q, input[i..]) == Step(q, input[i]).1 + Out(Step(q, input[i]).0, input[i + 1..])
    ensures End(q, input[i..]) == End(Step(q, input[i]).0, input[i + 1..])
  {
    assert input[i..][1..] == input[i + 1..];
  }

  function Position(inDouble: bool, inSingle: bool, escaped: bool): State {
    if inDouble then Double(escaped) else if inSingle then Single(escaped) else Outside
  }

  /** The rune at i follows a backslash in a single-quoted string; j is the last rune consumed. */
  method WriteEscape(input: string, i: nat, written: string) returns (out: string, j: nat)
    requires i < |input|
    requires Scanned(input, written, Single(true), i)
    ensures i <= j < |input| && Scanned(input, out, Single(false), j + 1)
  {
    var r := input[i];
    j := i;
    ScanOne(input, written, Single(true), i);
    if r in "nrtbf/\"" {
      out := written + ['\\', r];
    } else if r == '\\' {
      out := written + ['\\', '\\'];
    } else if r == '\'' {
      out := written + ['\''];
    } else if r == 'u' {
      out := written + ['\\', 'u'];
      var k := 0;
      while k < 4 && j + 1 < |input| && IsHex(input[j + 1])
        invariant i <= j < |input| && Scanned(input, out, Single(false), j + 1)
        decreases 4 - k
      {
        ScanOne(input, out, Single(false), j + 1);
        out := out + [input[j + 1]];
        j, k := j + 1, k + 1;
      }
    } else {
      out := written + ['\\', r];
    }
  }

  /** The invariant of FixJSON's loop: what is written, and what remains to be scanned from q. */
  ghost predicate Scanned(input: string, out: string, q: State, i: nat)
    requires i <= |input|
  {
    Out(Outside, input) == out + Out(q, input[i..]) && End(Outside, input) == End(q, input[i..])
  }

  lemma ScanEnds(input: string)
    ensures Scanned(input, [], Outside, 0)
    ensures forall out, q :: Scanned(input, out, q, |input|) ==> out + (if q.Single? then ['"'] else []) == Fix(input)
  {
    assert input[0..] == input && input[|input|..] == [];
  }

  lemma ScanOne(input: string, out: string, q: State, i: nat)
    requires i < |input| && Scanned(input, out, q, i)
    ensures Scanned(input, out + Step(q, input[i]).1, Step(q, input[i]).0, i + 1)
  {
    OneStep(q, input, i);
  }

  method FixJSON(input: string) returns (out: string)
    ensures out == Fix(input)
  {
    out := [];
    var inDouble, inSingle, escaped := false, false, false;
    var i := 0;
    ScanEnds(input);
    hide Scanned, Fix;
    while i < |input|
      invariant 0 <= i <= |input|
      invariant !(inDouble && inSingle) && (escaped ==> inDouble || inSingle)
      invariant Scanned(input, out, Position(inDouble, inSingle, escaped), i)
      decreases |input| - i
    {
      var r := input[i];
      assert out + [] == out;
      if inSingle && escaped {
        escaped := false;
        out, i := WriteEscape(input, i, out);
      } else {
        ScanOne(input, out, Position(inDouble, inSingle, escaped), i);
        if inDouble {
          out := out + [r];
          if escaped {
            escaped := false;
          } else if r == '\\' {
            escaped := true;
          } else if r == '"' {
            inDouble := false;
          }
        } else if inSingle {
          if r == '\\' {
            escaped := true;
          } else if r == '\'' {
            out := out + ['"'];
            inSingle := false;
          } else if r == '"' {
            out := out + ['\\', '"'];
          } else {
            out := out + [r];
          }
        } else if r == '"' {
          inDouble := true;
          out := out + [r];
        } else if r == '\'' {
          inSingle := true;
          out := out + ['"'];
        } else {
          out := out + [r];
        }
      }
      i := i + 1;
    }
    if inSingle {
      out := out + ['"'];
    }
  }

  lemma {:induction false} OutConcat(q: State, a: string, b: string)
    ensures Out(q, a + b) == Out(q, a) + Out(End(q, a), b)
    ensures End(q, a + b) == End(End(q, a), b)
    decreases |a|
  {
    hide Step;
    if a == [] {
      assert a + b == b;
    } else {
      assert (a + b)[0] == a[0] && (a + b)[1..] == a[1..] + b;
      OutConcat(Step(q, a[0]).0, a[1..], b);
    }
  }

  // ----- idempotence -----

  /** Where a scan of the output is when the scan of the input is at q. */
  function Mirror(q: State): State {
    if q.Single? then Double(false) else q
  }

  /** What one step writes is left alone by a second pass. */
  lemma StepIsStable(q: State, r: char)
    ensures var (q', o) := Step(q, r); Out(Mirror(q), o) == o && End(Mirror(q), o) == Mirror(q')
  {
    var (q', o) := Step(q, r);
    if |o| == 2 {
      OutOne(Mirror(q), o[0], o[1..]);
      OutOne(Step(Mirror(q), o[0]).0, o[1], []);
      assert o == [o[0]] + o[1..] && o[1..] == [o[1]] + [];
    } else if |o| == 1 {
      OutOne(Mirror(q), o[0], []);
      assert o == [o[0]] + [];
    }
  }

  lemma OutOne(q: State, r: char, s: string)
    ensures Out(q, [r] + s) == Step(q, r).1 + Out(Step(q, r).0, s)
    ensures End(q, [r] + s) == End(Step(q, r).0, s)
  {
    assert ([r] + s)[1..] == s;
  }

  lemma {:induction false} OutIsStable(q: State, s: string)
    ensures Out(Mirror(q), Out(q, s)) == Out(q, s)
    ensures End(Mirror(q), Out(q, s)) == Mirror(End(q, s))
    decreases |s|
  {
    if s == [] {
    } else {
      var (q', o) := Step(q, s[0]);
      StepIsStable(q, s[0]);
      OutIsStable(q', s[1..]);
      OutConcat(Mirror(q), o, Out(q', s[1..]));
    }
  }

  /** Fixing twice is fixing once, for every text. */
  lemma FixIdempotent(s: string)
    ensures Fix(Fix(s)) == Fix(s)
  {
    OutIsStable(Outside, s);
    if End(Outside, s).Single? {
      OutConcat(Outside, Out(Outside, s), ['"']);
      OutOne(Double(false), '"', []);
      assert ['"'] + [] == ['"'];
    } else {
      assert Fix(s) == Out(Outside, s);
    }
  }

  // ----- which texts are left alone -----

  /** Scanning by double quotes alone from q, every apostrophe lies inside a string. */
  predicate ApostrophesInside(inString: bool, escaped: bool, s: string)
    decreases |s|
  {
    s == [] ||
    ((s[0] == '\'' ==> inString) &&
     if !inString then ApostrophesInside(s[0] == '"', false, s[1..])
     else if escaped then ApostrophesInside(true, false, s[1..])
     else ApostrophesInside(s[0] != '"', s[0] == '\\', s[1..]))
  }

  lemma {:induction false} LeftAlone(inString: bool, escaped: bool, s: string)
    requires escaped ==> inString
    ensures var q := Position(inString, false, escaped);
      Out(q, s) + (if End(q, s).Single? then ['"'] else []) == s <==> ApostrophesInside(inString, escaped, s)
    decreases |s|
  {
    if s == [] {
    } else {
      var q := Position(inString, false, escaped);
      var (q', o) := Step(q, s[0]);
      var close := if End(q, s).Single? then ['"'] else [];
      var rest := Out(q', s[1..]) + close;
      assert Out(q, s) + close == o + rest;
      assert s == [s[0]] + s[1..];
      if s[0] == '\'' && !inString {
        assert (o + rest)[0] == '"';
      } else {
        assert o == [s[0]];
        assert o + rest == s <==> rest == s[1..] by {
          if o + rest == s { assert rest == (o + rest)[1..]; }
        }
        LeftAlone(q'.Double?, q'.Double? && q'.escaped, s[1..]);
      }
    }
  }

  /** A text is unchanged exactly when all its apostrophes lie inside double-quoted strings; in
      particular no fixed text has an apostrophe outside a string. */
  lemma FixIdentity(s: string)
    ensures Fix(s) == s <==> ApostrophesInside(false, false, s)
    ensures ApostrophesInside(false, false, Fix(s))
  {
    LeftAlone(false, false, s);
    FixIdempotent(s);
    LeftAlone(false, false, Fix(s));
  }

  // ----- meaning -----

  /** One element of a decoded string: a character, a UTF-16 code unit written \uXXXX, or an escape
      that section 7 of RFC 8259 does not define. */
  datatype Atom = Ch(c: char) | Unit(code: nat) | BadEscape(c: char)

  /** Text outside strings, or a string literal. */
  datatype Token = Text(c: char) | Str(single: bool, atoms: seq<Atom>, closed: bool)

  predicate HexPrefix(s: string, k: nat) {
    k == 0 || (s != [] && IsHex(s[0]) && HexPrefix(s[1..], k - 1))
  }

  function HexDigit(c: char): nat
    requires IsHex(c)
  {
    if c <= '9' then (c - '0') as int else if c <= 'F' then 10 + (c - 'A') as int else 10 + (c - 'a') as int
  }

  function HexValue(s: string, k: nat, acc: nat): nat
    requires HexPrefix(s, k)
  {
    if k == 0 then acc else HexValue(s[1..], k - 1, 16 * acc + HexDigit(s[0]))
  }

  const LOWER_DIGITS := "0123456789abcdef"
  const UPPER_DIGITS := "0123456789ABCDEF"

  /** The digits of section 7 of RFC 8259 with their values, in either case. */
  lemma DigitsExactly(i: nat)
    requires i < 16
    ensures IsHex(LOWER_DIGITS[i]) && HexDigit(LOWER_DIGITS[i]) == i
    ensures IsHex(UPPER_DIGITS[i]) && HexDigit(UPPER_DIGITS[i]) == i
    ensures forall c :: IsHex(c) && HexDigit(c) == i ==> c == LOWER_DIGITS[i] || c == UPPER_DIGITS[i]
  {
  }

  /** Four digits are read as one number. */
  lemma FourDigits(a: char, b: char, c: char, d: char)
    requires IsHex(a) && IsHex(b) && IsHex(c) && IsHex(d)
    ensures HexPrefix([a, b, c, d], 4)
    ensures HexValue([a, b, c, d], 4, 0) == 4096 * HexDigit(a) + 256 * HexDigit(b) + 16 * HexDigit(c) + HexDigit(d)
  {
    assert [a, b, c, d][1..] == [b, c, d] && [b, c, d][1..] == [c, d] && [c, d][1..] == [d];
    var w, x, y := HexDigit(a), HexDigit(b), HexDigit(c);
    assert HexPrefix([], 0) && HexPrefix([d], 1) && HexPrefix([c, d], 2);
    assert HexPrefix([b, c, d][1..], 2) && HexPrefix([b, c, d], 3);
    assert HexValue([d], 1, 16 * (16 * (16 * 0 + w) + x) + y) == 16 * (16 * (16 * w + x) + y) + HexDigit(d);
    assert HexValue([c, d], 2, 16 * (16 * 0 + w) + x) == HexValue([d], 1, 16 * (16 * (16 * 0 + w) + x) + y);
  }

  /** The escapes of RFC 8259, and \' in a single-quoted string. */
  function Escape(single: bool, e: char): Atom {
    match e
    case '"' => Ch('"')
    case '\\' => Ch('\\')
    case '/' => Ch('/')
    case 'b' => Ch('\U{8}')
    case 'f' => Ch('\U{C}')
    case 'n' => Ch('\n')
    case 'r' => Ch('\r')
    case 't' => Ch('\t')
    case '\'' => if single then Ch('\'') else BadEscape(e)
    case _ => BadEscape(e)
  }

  lemma {:induction false} HexPrefixLength(s: string, k: nat)
    requires HexPrefix(s, k)
    ensures |s| >= k
  {
    if k == 0 {
    } else {
      HexPrefixLength(s[1..], k - 1);
    }
  }

  /** What the text between the quotes denotes; a final lone backslash denotes nothing. */
  function Decode(single: bool, s: string): seq<Atom> {
    if s == [] then []
    else if s[0] != '\\' then [Ch(s[0])] + Decode(single, s[1..])
    else if |s| == 1 then []
    else if s[1] == 'u' && HexPrefix(s[2..], 4) then
      HexPrefixLength(s[2..], 4);
      [Unit(HexValue(s[2..], 4, 0))] + Decode(single, s[6..])
    else [Escape(single, s[1])] + Decode(single, s[2..])
  }

  /** The number of characters before the closing quote, or all of them. */
  function BodyLength(s: string, quote: char): (n: nat)
    ensures n <= |s|
  {
    if s == [] || s[0] == quote then 0
    else if s[0] == '\\' then (if |s| == 1 then 1 else 2 + BodyLength(s[2..], quote))
    else 1 + BodyLength(s[1..], quote)
  }

  /** The tokens of a text; `singles` says whether an apostrophe opens a string. */
  function Lex(s: string, singles: bool): seq<Token>
    decreases |s|
  {
    if s == [] then []
    else if s[0] == '"' || (singles && s[0] == '\'') then
      var n := BodyLength(s[1..], s[0]);
      var single := s[0] == '\'';
      if 1 + n < |s| then [Str(single, Decode(single, s[1..1 + n]), true)] + Lex(s[2 + n..], singles)
      else [Str(single, Decode(single, s[1..]), false)]
    else [Text(s[0])] + Lex(s[1..], singles)
  }

  /** A single-quoted literal becomes a double-quoted one, closed if it was not. */
  function Repaired(t: Token): Token {
    if t.Str? && t.single then Str(false, t.atoms, true) else t
  }

  function RepairedAll(ts: seq<Token>): seq<Token> {
    if ts == [] then [] else [Repaired(ts[0])] + RepairedAll(ts[1..])
  }

  lemma {:induction false} HexPassesThrough(b: string, k: nat)
    ensures HexPrefix(b, k) <==> HexPrefix(Out(Single(false), b), k)
    ensures HexPrefix(b, k) ==> |b| >= k && Out(Single(false), b) == b[..k] + Out(Single(false), b[k..])
    ensures HexPrefix(b, k) ==> forall acc :: HexValue(b, k, acc) == HexValue(Out(Single(false), b), k, acc)
  {
    if k > 0 && b != [] {
      var c := Out(Single(false), b);
      if IsHex(b[0]) {
        assert c == [b[0]] + Out(Single(false), b[1..]);
        assert c[1..] == Out(Single(false), b[1..]);
        HexPassesThrough(b[1..], k - 1);
        if HexPrefix(b, k) {
          assert b[1..][..k - 1] == b[1..k] && b[1..][k - 1..] == b[k..];
          assert [b[0]] + b[1..k] == b[..k];
        }
      } else {
        NoHexStart(b);
      }
    }
  }

  lemma NoHexStart(b: string)
    requires b != [] && !IsHex(b[0])
    ensures var c := Out(Single(false), b); c == [] || !IsHex(c[0])
  {
    if b[0] == '\\' && |b| > 1 {
      assert Out(Single(false), b) == Out(Single(true), b[1..]);
    }
  }

  /** The converted body of a single-quoted literal ends, as the body of a double-quoted one, at the
      same place. */
  lemma {:induction false} BodyEnds(b: string, rest: string)
    requires BodyLength(b, '\'') == |b|
    ensures BodyLength(Out(Single(false), b) + ['"'] + rest, '"') == |Out(Single(false), b)|
    decreases |b|
  {
    var c := Out(Single(false), b);
    if b == [] {
      assert c + ['"'] + rest == ['"'] + rest;
    } else if b[0] == '\\' && |b| == 1 {
      OneEscape(b);
      assert c + ['"'] + rest == ['"'] + rest;
    } else {
      var k := if b[0] == '\\' then 2 else 1;
      var c', o := Out(Single(false), b[k..]), OneEscapeOut(b);
      OneEscape(b);
      BodyEnds(b[k..], rest);
      assert c + ['"'] + rest == o + (c' + ['"'] + rest);
      BodySkip(o, c' + ['"'] + rest);
    }
  }

  /** What the first character, or the first escape, of a body is converted to. */
  function OneEscapeOut(b: string): string
    requires b != []
  {
    if b[0] != '\\' then (if b[0] == '"' then ['\\', '"'] else [b[0]])
    else if |b| == 1 then []
    else if b[1] == '\'' then ['\''] else ['\\', b[1]]
  }

  lemma OneEscape(b: string)
    requires b != [] && b[0] != '\''
    ensures b[0] == '\\' && |b| == 1 ==> Out(Single(false), b) == []
    ensures b[0] != '\\' ==> Out(Single(false), b) == OneEscapeOut(b) + Out(Single(false), b[1..])
    ensures b[0] == '\\' && |b| > 1 ==> Out(Single(false), b) == OneEscapeOut(b) + Out(Single(false), b[2..])
  {
    var none := Out(Single(true), []);
    assert none == [];
    hide Out;
    assert b == [b[0]] + b[1..];
    OutOne(Single(false), b[0], b[1..]);
    if b[0] == '\\' && |b| > 1 {
      assert b[1..] == [b[1]] + b[2..];
      OutOne(Single(true), b[1], b[2..]);
    } else if b[0] == '\\' {
      assert b[1..] == [];
    }
  }

  lemma BodySkip(o: string, t: string)
    requires (|o| == 1 && o[0] != '"' && o[0] != '\\') || (|o| == 2 && o[0] == '\\')
    ensures BodyLength(o + t, '"') == |o| + BodyLength(t, '"')
  {
    assert (o + t)[|o|..] == t;
  }

  /** And it denotes the same characters. */
  lemma {:induction false} BodyDenotes(b: string)
    requires BodyLength(b, '\'') == |b|
    ensures Decode(false, Out(Single(false), b)) == Decode(true, b)
    decreases |b|
  {
    if b == [] {
    } else if b[0] != '\\' {
      OneEscape(b);
      BodyDenotes(b[1..]);
      DecodeOne(OneEscapeOut(b), Out(Single(false), b[1..]));
    } else if |b| == 1 {
      OneEscape(b);
    } else {
      OneEscape(b);
      if b[1] == 'u' && HexPrefix(b[2..], 4) {
        HexPrefixLength(b[2..], 4);
        BodyTail(b[2..], 4);
        assert b[2..][4..] == b[6..];
        BodyDenotes(b[6..]);
        UnitDenotes(b);
      } else {
        BodyDenotes(b[2..]);
        EscapeDenotes(b);
      }
    }
  }

  lemma UnitDenotes(b: string)
    requires |b| >= 6 && b[0] == '\\' && b[1] == 'u' && HexPrefix(b[2..], 4)
    requires Decode(false, Out(Single(false), b[6..])) == Decode(true, b[6..])
    ensures Decode(false, Out(Single(false), b)) == Decode(true, b)
  {
    OneEscape(b);
    HexPassesThrough(b[2..], 4);
    assert b[2..][4..] == b[6..];
    DecodeUnit(Out(Single(false), b[2..]), Out(Single(false), b[6..]));
  }

  lemma EscapeDenotes(b: string)
    requires |b| >= 2 && b[0] == '\\' && !(b[1] == 'u' && HexPrefix(b[2..], 4))
    requires Decode(false, Out(Single(false), b[2..])) == Decode(true, b[2..])
    ensures Decode(false, Out(Single(false), b)) == Decode(true, b)
  {
    OneEscape(b);
    HexPassesThrough(b[2..], 4);
    EscapedDecodes(b[1], Out(Single(false), b[2..]));
  }

  lemma EscapedDecodes(e: char, t: string)
    requires !(e == 'u' && HexPrefix(t, 4))
    ensures Decode(false, (if e == '\'' then ['\''] else ['\\', e]) + t) == [Escape(true, e)] + Decode(false, t)
  {
    DecodeOne(if e == '\'' then ['\''] else ['\\', e], t);
  }

  lemma DecodeOne(o: string, t: string)
    requires (|o| == 1 && o[0] != '\\') || (|o| == 2 && o[0] == '\\' && !(o[1] == 'u' && HexPrefix(t, 4)))
    ensures Decode(false, o + t) == [if |o| == 1 then Ch(o[0]) else Escape(false, o[1])] + Decode(false, t)
  {
    assert (o + t)[|o|..] == t;
  }

  lemma DecodeUnit(c: string, d: string)
    requires HexPrefix(c, 4) && |c| >= 4 && c[4..] == d
    ensures Decode(false, ['\\', 'u'] + c) == [Unit(HexValue(c, 4, 0))] + Decode(false, d)
  {
    var s := ['\\', 'u'] + c;
    assert s[2..] == c && s[6..] == d;
  }

  lemma {:induction false} BodyTail(b: string, k: nat)
    requires BodyLength(b, '\'') == |b| && HexPrefix(b, k) && k <= |b|
    ensures BodyLength(b[k..], '\'') == |b[k..]|
  {
    if k > 0 {
      BodyTail(b[1..], k - 1);
      assert b[1..][k - 1..] == b[k..];
    } else {
      assert b[0..] == b;
    }
  }

  /** A literal's body in which every backslash escapes something and the quote is escaped. */
  predicate Whole(b: string, quote: char)
    decreases |b|
  {
    b == [] || (b[0] != quote && if b[0] == '\\' then |b| > 1 && Whole(b[2..], quote) else Whole(b[1..], quote))
  }

  /** A terminated literal has a whole body and the quote after it. */
  lemma {:induction false} BodyIsWhole(s: string, quote: char)
    requires quote != '\\'
    ensures var n := BodyLength(s, quote); n < |s| ==> s[n] == quote && Whole(s[..n], quote)
    decreases |s|
  {
    if s != [] && s[0] != quote && !(s[0] == '\\' && |s| == 1) {
      var k := if s[0] == '\\' then 2 else 1;
      BodyIsWhole(s[k..], quote);
      var n := BodyLength(s, quote);
      assert s[..n][k..] == s[k..][..n - k];
    }
  }

  lemma {:induction false} WholeBody(b: string, quote: char)
    requires Whole(b, quote)
    ensures BodyLength(b, quote) == |b|
    decreases |b|
  {
    if b == [] {
    } else {
      WholeBody(b[if b[0] == '\\' then 2 else 1..], quote);
    }
  }

  lemma {:induction false} WholeSingle(b: string)
    requires Whole(b, '\'')
    ensures End(Single(false), b) == Single(false)
    decreases |b|
  {
    if b == [] {
    } else {
      EndSkip(b);
      WholeSingle(b[if b[0] == '\\' then 2 else 1..]);
    }
  }

  lemma {:induction false} UnclosedSingle(s: string)
    requires BodyLength(s, '\'') == |s|
    ensures End(Single(false), s).Single?
    decreases |s|
  {
    if s != [] && !(s[0] == '\\' && |s| == 1) {
      EndSkip(s);
      UnclosedSingle(s[if s[0] == '\\' then 2 else 1..]);
    }
  }

  lemma EndSkip(s: string)
    requires s != [] && s[0] != '\''
    ensures s[0] != '\\' ==> End(Single(false), s) == End(Single(false), s[1..])
    ensures s[0] == '\\' && |s| > 1 ==> End(Single(false), s) == End(Single(false), s[2..])
  {
    if s[0] == '\\' && |s| > 1 {
      assert s[1..][1..] == s[2..];
    }
  }

  lemma {:induction false} WholeDouble(b: string, rest: string)
    requires Whole(b, '"')
    ensures Out(Double(false), b) == b && End(Double(false), b) == Double(false)
    ensures BodyLength(b + (['"'] + rest), '"') == |b|
    decreases |b|
  {
    if b == [] {
      assert b + (['"'] + rest) == ['"'] + rest;
    } else {
      var k := if b[0] == '\\' then 2 else 1;
      WholeDouble(b[k..], rest);
      DoubleSkip(b);
      assert b == b[..k] + b[k..];
      assert b + (['"'] + rest) == b[..k] + (b[k..] + (['"'] + rest));
      BodySkip(b[..k], b[k..] + (['"'] + rest));
    }
  }

  lemma {:induction false} UnclosedDouble(s: string)
    requires BodyLength(s, '"') == |s|
    ensures Out(Double(false), s) == s && End(Double(false), s).Double?
    decreases |s|
  {
    if s == [] {
    } else {
      if s[0] == '\\' && |s| == 1 {
        assert s[1..] == [];
      } else {
        var k := if s[0] == '\\' then 2 else 1;
        UnclosedDouble(s[k..]);
        DoubleSkip(s);
        assert s == s[..k] + s[k..];
      }
    }
  }

  lemma DoubleSkip(s: string)
    requires s != [] && s[0] != '"'
    ensures s[0] != '\\' ==>
      Out(Double(false), s) == s[..1] + Out(Double(false), s[1..]) &&
        End(Double(false), s) == End(Double(false), s[1..])
    ensures s[0] == '\\' && |s| > 1 ==>
      Out(Double(false), s) == s[..2] + Out(Double(false), s[2..]) &&
        End(Double(false), s) == End(Double(false), s[2..])
  {
    if s[0] == '\\' && |s| > 1 {
      assert s == ['\\', s[1]] + s[2..] && s[..2] == ['\\', s[1]];
      EscapedPair(s[1], s[2..]);
    } else {
      assert s == [s[0]] + s[1..] && s[..1] == [s[0]];
      OutOne(Double(false), s[0], s[1..]);
    }
  }

  lemma EscapedPair(c: char, t: string)
    ensures Out(Double(false), ['\\', c] + t) == ['\\', c] + Out(Double(false), t)
    ensures End(Double(false), ['\\', c] + t) == End(Double(false), t)
  {
    hide Out, End;
    OutOne(Double(false), '\\', [c] + t);
    OutOne(Double(true), c, t);
    assert ['\\'] + ([c] + t) == ['\\', c] + t;
  }

  /** A terminated literal and what follows it are fixed separately. */
  lemma FixTerminated(quote: char, b: string, u: string)
    requires quote == '"' || quote == '\''
    requires Whole(b, quote)
    ensures Fix([quote] + b + [quote] + u) ==
            ['"'] + (Out(if quote == '"' then Double(false) else Single(false), b) + (['"'] + Fix(u)))
  {
    hide Out, End, Whole;
    var q := if quote == '"' then Double(false) else Single(false);
    var t := b + ([quote] + u);
    if quote == '"' { WholeDouble(b, u); } else { WholeSingle(b); }
    assert [quote] + b + [quote] + u == [quote] + t;
    OutOne(Outside, quote, t);
    OutConcat(q, b, [quote] + u);
    OutOne(q, quote, u);
  }

  /** FixJSON preserves meaning: read as RFC 8259 text, its output has the tokens of the input with
      each single-quoted literal as a double-quoted one that denotes the same characters. */
  lemma {:induction false} FixPreservesMeaning(s: string)
    ensures Lex(Fix(s), false) == RepairedAll(Lex(s, true))
    decreases |s|
  {
    if s == [] {
    } else if s[0] == '\'' {
      FixSingle(s);
    } else if s[0] == '"' {
      FixDouble(s);
    } else {
      FixPreservesMeaning(s[1..]);
      OneStep(Outside, s, 0);
      assert s[0..] == s;
      assert Fix(s) == [s[0]] + Fix(s[1..]);
      assert Fix(s)[1..] == Fix(s[1..]);
    }
  }

  lemma {:induction false} FixSingle(s: string)
    requires s != [] && s[0] == '\''
    ensures Lex(Fix(s), false) == RepairedAll(Lex(s, true))
    decreases |s|, 0
  {
    var t := s[1..];
    var n := BodyLength(t, '\'');
    if n < |t| {
      FixPreservesMeaning(t[n + 1..]);
      FixTerminatedSingle(s, n);
    } else {
      FixUnclosedSingle(t);
      assert s == ['\''] + t;
      LexUnclosed(s);
    }
  }

  lemma FixTerminatedSingle(s: string, n: nat)
    requires s != [] && s[0] == '\'' && n == BodyLength(s[1..], '\'') && 1 + n < |s|
    requires Lex(Fix(s[1..][n + 1..]), false) == RepairedAll(Lex(s[1..][n + 1..], true))
    ensures Lex(Fix(s), false) == RepairedAll(Lex(s, true))
  {
    var t := s[1..];
    var b, u := t[..n], t[n + 1..];
    BodyIsWhole(t, '\'');
    FixedSingle(b, u);
    LexTerminated(s, n, b, u);
    RepairedCons(Str(true, Decode(true, b), true), Lex(u, true));
    Reassembled(s, n, '\'');
  }

  lemma Reassembled(s: string, n: nat, quote: char)
    requires s != [] && s[0] == quote && 1 + n < |s| && s[1..][n] == quote
    ensures s == [quote] + s[1..][..n] + [quote] + s[1..][n + 1..]
  {
  }

  lemma LexUnclosed(s: string)
    requires s != [] && s[0] == '\'' && BodyLength(s[1..], '\'') == |s| - 1
    ensures RepairedAll(Lex(s, true)) == [Str(false, Decode(true, s[1..]), true)]
  {
    var token := Str(true, Decode(true, s[1..]), false);
    assert Lex(s, true) == [token] + [];
    RepairedCons(token, []);
  }

  lemma RepairedCons(t: Token, ts: seq<Token>)
    ensures RepairedAll([t] + ts) == [Repaired(t)] + RepairedAll(ts)
  {
    assert ([t] + ts)[1..] == ts;
  }

  lemma FixUnclosedSingle(t: string)
    requires BodyLength(t, '\'') == |t|
    ensures Lex(Fix(['\''] + t), false) == [Str(false, Decode(true, t), true)]
  {
    var c := Out(Single(false), t);
    FixUnclosed(t);
    BodyEnds(t, []);
    BodyDenotes(t);
    assert c + ['"'] + [] == c + (['"'] + []);
    LexString(c, []);
    assert Lex([], false) == [];
  }

  lemma FixUnclosed(t: string)
    requires BodyLength(t, '\'') == |t|
    ensures Fix(['\''] + t) == ['"'] + (Out(Single(false), t) + (['"'] + []))
  {
    hide Out, End, BodyLength;
    UnclosedSingle(t);
    OutOne(Outside, '\'', t);
  }

  lemma FixedSingle(b: string, u: string)
    requires Whole(b, '\'')
    ensures Lex(Fix(['\''] + b + ['\''] + u), false) == [Str(false, Decode(true, b), true)] + Lex(Fix(u), false)
  {
    hide Out, Fix, Decode, Whole, BodyLength, Lex;
    var c := Out(Single(false), b);
    WholeBody(b, '\'');
    FixTerminated('\'', b, u);
    BodyEnds(b, Fix(u));
    BodyDenotes(b);
    assert c + ['"'] + Fix(u) == c + (['"'] + Fix(u));
    LexString(c, Fix(u));
  }

  lemma LexTerminated(s: string, n: nat, b: string, u: string)
    requires s != [] && (s[0] == '"' || s[0] == '\'') && n == BodyLength(s[1..], s[0]) && 1 + n < |s|
    requires b == s[1..][..n] && u == s[1..][n + 1..]
    ensures Lex(s, true) == [Str(s[0] == '\'', Decode(s[0] == '\'', b), true)] + Lex(u, true)
  {
    hide Decode, BodyLength;
    assert b == s[1..1 + n] && u == s[2 + n..];
  }

  lemma {:induction false} FixDouble(s: string)
    requires s != [] && s[0] == '"'
    ensures Lex(Fix(s), false) == RepairedAll(Lex(s, true))
    decreases |s|, 0
  {
    var t := s[1..];
    var n := BodyLength(t, '"');
    if n < |t| {
      FixPreservesMeaning(t[n + 1..]);
      FixTerminatedDouble(s, n);
    } else {
      UnclosedDouble(t);
      OneStep(Outside, s, 0);
      assert s[0..] == s;
      assert Fix(s) == s;
    }
  }

  lemma FixTerminatedDouble(s: string, n: nat)
    requires s != [] && s[0] == '"' && n == BodyLength(s[1..], '"') && 1 + n < |s|
    requires Lex(Fix(s[1..][n + 1..]), false) == RepairedAll(Lex(s[1..][n + 1..], true))
    ensures Lex(Fix(s), false) == RepairedAll(Lex(s, true))
  {
    var t := s[1..];
    var b, u := t[..n], t[n + 1..];
    BodyIsWhole(t, '"');
    Reassembled(s, n, '"');
    FixTerminated('"', b, u);
    WholeDouble(b, Fix(u));
    LexString(b, Fix(u));
    LexTerminated(s, n, b, u);
    RepairedCons(Str(false, Decode(false, b), true), Lex(u, true));
  }

  /** Reading back a closed double-quoted literal. */
  lemma LexString(body: string, rest: string)
    requires BodyLength(body + (['"'] + rest), '"') == |body|
    ensures Lex(['"'] + (body + (['"'] + rest)), false) == [Str(false, Decode(false, body), true)] + Lex(rest, false)
  {
    var s := ['"'] + (body + (['"'] + rest));
    assert s[1..] == body + (['"'] + rest);
    assert s[1..1 + |body|] == body;
    assert s[2 + |body|..] == rest;
  }
}
