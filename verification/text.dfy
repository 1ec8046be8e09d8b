/**
 * The Python 2 string built-ins the modelled code relies on: `str.strip()`,
 * `str.split(sep)`, `sep in s`, `startswith`/`endswith`, `str(n)` for an
 * integer and `int(s)` for a text.
 */
module Text {

  import opened Wrappers

  /** The characters `str.strip()` removes by default. */
  predicate IsSpace(c: char) {
    c == ' ' || c == '\t' || c == '\n' || c == '\r' || c == '\U{000B}' || c == '\U{000C}'
  }

  function StripLeft(s: string): (r: string)
    ensures |r| <= |s| && r == s[|s| - |r|..]
    ensures forall k :: 0 <= k < |s| - |r| ==> IsSpace(s[k])
    ensures |r| == 0 || !IsSpace(r[0])
    decreases |s|
  {
    if |s| > 0 && IsSpace(s[0]) then StripLeft(s[1..]) else s
  }

  function StripRight(s: string): (r: string)
    ensures |r| <= |s| && r == s[..|r|]
    ensures forall k :: |r| <= k < |s| ==> IsSpace(s[k])
    ensures |r| == 0 || !IsSpace(r[|r| - 1])
    decreases |s|
  {
    if |s| > 0 && IsSpace(s[|s| - 1]) then StripRight(s[..|s| - 1]) else s
  }

  /** `s.strip()`: the longest slice of `s` that neither starts nor ends with white space. */
  function Strip(s: string): (r: string)
    ensures |r| == 0 || (!IsSpace(r[0]) && !IsSpace(r[|r| - 1]))
    ensures |r| <= |s|
  {
    StripRight(StripLeft(s))
  }

  /** Stripping a text that neither starts nor ends with white space changes nothing. */
  lemma StripUnchanged(s: string)
    requires |s| == 0 || (!IsSpace(s[0]) && !IsSpace(s[|s| - 1]))
    ensures Strip(s) == s
  {
    assert StripLeft(s) == s;
  }


  /** One space before or after a text without surrounding white space is stripped away again. */
  lemma StripPadded(s: string)
    requires |s| == 0 || (!IsSpace(s[0]) && !IsSpace(s[|s| - 1]))
    ensures Strip(s + " ") == s && Strip(" " + s) == s
  {
    var a := s + " ";
    assert StripRight(a) == StripRight(a[..|a| - 1]) && a[..|a| - 1] == s;
    StripUnchanged(s);
    var b := " " + s;
    assert StripLeft(b) == StripLeft(b[1..]) && b[1..] == s;
    if |s| > 0 {
      assert StripLeft(a) == a;
    }
  }

  /** `t` occurs in `s` starting at position `i`. */
  predicate OccursAt(s: string, t: string, i: int) {
    0 <= i <= |s| - |t| && s[i..i + |t|] == t
  }

  /** `t in s` for texts: `t` occurs in `s` as a contiguous slice. */
  predicate Contains(s: string, t: string) {
    exists i | 0 <= i <= |s| - |t| :: OccursAt(s, t, i)
  }


  lemma ContainsSuffix(a: string, t: string)
    ensures Contains(a + t, t)
  {
    var s := a + t;
    assert OccursAt(s, t, |a|);
  }

  /** The position of the first `c` in `s`. */
  function IndexOf(s: string, c: char): (i: nat)
    requires c in s
    ensures i < |s| && s[i] == c && c !in s[..i]
    decreases |s|
  {
    if s[0] == c then 0
    else
      assert c in s[1..] by {
        var k :| 0 <= k < |s| && s[k] == c;
        assert s[1..][k - 1] == c;
      }
      1 + IndexOf(s[1..], c)
  }

  /** The first `c` in `a + [c] + b` when `a` has none: exactly what lies on either side of it. */
  lemma {:induction false} IndexOfJoin(a: string, c: char, b: string)
    requires c !in a
    ensures var s := a + [c] + b;
      && c in s && IndexOf(s, c) == |a| && s[..|a|] == a && s[|a| + 1..] == b
    decreases |a|
  {
    var s := a + [c] + b;
    assert s[|a|] == c;
    if a != [] {
      assert s[1..] == a[1..] + [c] + b;
      IndexOfJoin(a[1..], c, b);
    }
    assert s[..|a|] == a;
    assert s[|a| + 1..] == b;
  }

  /** The inverse of `Split`: the parts with one separator between neighbours. */
  function Join(parts: seq<string>, sep: char): string
    requires |parts| >= 1
    decreases |parts|
  {
    if |parts| == 1 then parts[0] else parts[0] + [sep] + Join(parts[1..], sep)
  }

  /**
   * `s.split(sep)`: the maximal separator-free pieces of `s`, left to right;
   * there is always at least one, possibly empty, piece.
   */
  function Split(s: string, sep: char): (parts: seq<string>)
    ensures |parts| >= 1
    ensures forall k :: 0 <= k < |parts| ==> sep !in parts[k]
    ensures Join(parts, sep) == s
    decreases |s|
  {
    if sep !in s then [s]
    else
      var i := IndexOf(s, sep);
      var rest := Split(s[i + 1..], sep);
      assert s == s[..i] + [sep] + s[i + 1..];
      assert ([s[..i]] + rest)[1..] == rest;
      [s[..i]] + rest
  }

  /** `s.split(sep)[-1]`. */
  function LastPart(s: string, sep: char): string {
    var parts := Split(s, sep);
    parts[|parts| - 1]
  }

  /** `s.split(sep)[0]`. */
  function FirstPart(s: string, sep: char): string {
    Split(s, sep)[0]
  }

  lemma IndexOfFirst(s: string, c: char, i: nat)
    requires i < |s| && s[i] == c && c !in s[..i]
    ensures IndexOf(s, c) == i
  {
  }

  /**
   * Splitting `a`, a separator and a separator-free `b` gives the pieces of `a`
   * followed by `b`: the last piece of a dotted name is what follows its last dot.
   */
  lemma {:induction false} SplitThenLast(a: string, sep: char, b: string)
    requires sep !in b
    ensures Split(a + [sep] + b, sep) == Split(a, sep) + [b]
    decreases |a|
  {
    if sep !in a {
      SplitThenLastBase(a, sep, b);
    } else {
      var i := IndexOf(a, sep);
      var x, y := a[..i], a[i + 1..];
      assert a == x + [sep] + y;
      SplitThenLast(y, sep, b);
      SplitThenLastStep(x, y, sep, b);
    }
  }

  lemma SplitThenLastBase(a: string, sep: char, b: string)
    requires sep !in a && sep !in b
    ensures Split(a + [sep] + b, sep) == Split(a, sep) + [b]
  {
    SplitJoin(a, sep, b);
    SplitWhole(a, sep);
    SplitWhole(b, sep);
  }

  lemma SplitThenLastStep(x: string, y: string, sep: char, b: string)
    requires sep !in x
    requires Split(y + [sep] + b, sep) == Split(y, sep) + [b]
    ensures Split(x + [sep] + y + [sep] + b, sep) == Split(x + [sep] + y, sep) + [b]
  {
    ConcatAssoc(x + [sep], y + [sep], b);
    ConcatAssoc(x + [sep], y, [sep]);
    SplitJoin(x, sep, y + [sep] + b);
    SplitJoin(x, sep, y);
    ConcatAssoc([x], Split(y, sep), [b]);
  }

  lemma ConcatAssoc<T>(p: seq<T>, q: seq<T>, r: seq<T>)
    ensures p + (q + r) == (p + q) + r
  {
  }

  /** A separator-free head `x` is the first piece; the rest are the pieces of what follows. */
  lemma SplitJoin(x: string, sep: char, y: string)
    requires sep !in x
    ensures Split(x + [sep] + y, sep) == [x] + Split(y, sep)
  {
    IndexOfJoin(x, sep, y);
  }


  /** A text splits into more than one piece exactly when it holds the separator. */
  lemma SplitsIffSeparator(s: string, sep: char)
    ensures |Split(s, sep)| >= 2 <==> sep in s
  {
    if sep !in s {
      SplitWhole(s, sep);
    }
  }

  /** A separator-free text is its own only piece. */
  lemma SplitWhole(s: string, sep: char)
    requires sep !in s
    ensures Split(s, sep) == [s]
  {
  }

  /**
   * A text holding the separator splits into exactly two pieces when its
   * first separator is its only one, and the pieces are then what lies
   * before and after it.
   */
  lemma SplitInTwo(s: string, sep: char)
    requires sep in s
    ensures var i := IndexOf(s, sep);
      && (|Split(s, sep)| == 2 <==> sep !in s[i + 1..])
      && (sep !in s[i + 1..] ==> Split(s, sep) == [s[..i], s[i + 1..]])
  {
    var i := IndexOf(s, sep);
    var rest := s[i + 1..];
    if sep in rest {
      assert |Split(rest, sep)| >= 2;
    } else {
      SplitWhole(rest, sep);
    }
  }

  /** The first piece is the prefix before the first separator. */
  lemma FirstPartBefore(a: string, sep: char, b: string)
    requires sep !in a
    ensures FirstPart(a + [sep] + b, sep) == a
  {
    var s := a + [sep] + b;
    assert s[|a|] == sep;
    assert s[..|a|] == a;
    IndexOfFirst(s, sep, |a|);
  }

  // ---- decimal integers ----

  predicate IsDigit(c: char) {
    '0' <= c <= '9'
  }

  predicate AllDigits(s: string) {
    forall k :: 0 <= k < |s| ==> IsDigit(s[k])
  }

  function DigitValue(c: char): nat
    requires IsDigit(c)
  {
    (c as int) - ('0' as int)
  }

  function DigitChar(d: nat): (c: char)
    requires d < 10
    ensures IsDigit(c) && DigitValue(c) == d
  {
    ('0' as int + d) as char
  }

  /** The value of a string of decimal digits, most significant first. */
  function DigitsValue(s: string): nat
    requires AllDigits(s)
    decreases |s|
  {
    if |s| == 0 then 0 else 10 * DigitsValue(s[..|s| - 1]) + DigitValue(s[|s| - 1])
  }

  /** `str(n)` for a natural number: the shortest decimal digit string. */
  function NatToString(n: nat): (s: string)
    ensures |s| >= 1 && AllDigits(s)
    decreases n
  {
    if n < 10 then [DigitChar(n)] else NatToString(n / 10) + [DigitChar(n % 10)]
  }

  /** `str(n)` for an integer: a minus sign before negative numbers. */
  function IntToString(n: int): (s: string)
    ensures |s| >= 1
    ensures forall k :: 0 <= k < |s| ==> IsDigit(s[k]) || (k == 0 && s[k] == '-')
  {
    if n < 0 then "-" + NatToString(-n) else NatToString(n)
  }

  /** The text of a number has no dot, underscore or white space in it. */
  lemma IntToStringPlain(n: int)
    ensures '.' !in IntToString(n) && '_' !in IntToString(n)
    ensures !IsSpace(IntToString(n)[0]) && !IsSpace(IntToString(n)[|IntToString(n)| - 1])
    ensures forall k :: 0 <= k < |IntToString(n)| ==> IntToString(n)[k] != 't'
  {
  }

  /** The value of a sign-less decimal numeral, if it is one. */
  function ParseDigits(t: string): Option<nat> {
    if |t| > 0 && AllDigits(t) then Some(DigitsValue(t)) else None
  }

  predicate Signed(t: string) {
    |t| > 0 && (t[0] == '-' || t[0] == '+')
  }

  /** The number of white-space characters `s` starts with. */
  function LeadingSpaces(s: string): (n: nat)
    ensures n <= |s|
    decreases |s|
  {
    if |s| > 0 && IsSpace(s[0]) then 1 + LeadingSpaces(s[1..]) else 0
  }

  /** The leading white space is white space, and what follows it is not. */
  lemma {:induction false} LeadingSpacesAre(s: string)
    ensures forall k :: 0 <= k < LeadingSpaces(s) ==> IsSpace(s[k])
    ensures LeadingSpaces(s) < |s| ==> !IsSpace(s[LeadingSpaces(s)])
    decreases |s|
  {
    if |s| > 0 && IsSpace(s[0]) {
      LeadingSpacesAre(s[1..]);
      forall k | 1 <= k < LeadingSpaces(s)
        ensures IsSpace(s[k])
      {
        assert s[k] == s[1..][k - 1];
      }
    }
  }

  /** `lstrip` drops exactly the leading white space. */
  lemma StripLeftDropsLeading(s: string)
    ensures StripLeft(s) == s[LeadingSpaces(s)..]
  {
    LeadingSpacesAre(s);
  }

  /** What follows a leading sign and the white space after it; all of `t` when it has no sign. */
  function Unsigned(t: string): (b: string)
    ensures |b| <= |t| && b == t[|t| - |b|..]
  {
    if Signed(t) then t[1 + LeadingSpaces(t[1..])..] else t
  }

  /**
   * Python 2 `int(s)` of a text: surrounding white space is ignored, one optional
   * sign, white space again (CPython 2 skips it after the sign too, so
   * `int("- 3") == -3`), then one or more decimal digits; anything else raises
   * `ValueError`.
   */
  function ParseInt(s: string): (r: Result<int>)
    ensures r.Success? ==> exists k :: 0 <= k < |s| && IsDigit(s[k])
    ensures r.Failure? ==> r.error == ValueError(s)
  {
    var t := Strip(s);
    var signed := Signed(t);
    var body := Unsigned(t);
    match ParseDigits(body)
    case None => Failure(ValueError(s))
    case Some(v) =>
      assert IsDigit(body[0]);
      assert body[0] == t[|t| - |body|];
      ghost var k := |s| - |StripLeft(s)| + |t| - |body|;
      assert s[k] == body[0];
      var value: int := if signed && t[0] == '-' then -(v as int) else v;
      Success(value)
  }

  /** White space between the sign and the digits is skipped: `int("- 3") == -3`. */
  lemma ParseIntSpacedSign(n: nat)
    ensures ParseInt("- " + NatToString(n)) == Success(-(n as int))
  {
    SpacedSignParts(n);
    ParseIntNegative("- " + NatToString(n), n);
  }

  lemma SpacedSignParts(n: nat)
    ensures var s := "- " + NatToString(n);
      Strip(s) == s && Signed(s) && s[0] == '-' && ParseDigits(Unsigned(s)) == Some(n)
  {
    var d := NatToString(n);
    DashSpaceParts(d);
    NatNumeral(n);
  }

  lemma DashSpaceParts(d: string)
    requires |d| > 0 && IsDigit(d[0]) && IsDigit(d[|d| - 1])
    ensures var s := "- " + d; Strip(s) == s && Signed(s) && s[0] == '-' && Unsigned(s) == d
  {
    var s := "- " + d;
    StripUnchanged(s);
    assert s[1..] == " " + d;
    LeadingSpaceOne(d);
    assert s[2..] == d;
  }

  lemma LeadingSpaceOne(d: string)
    requires |d| > 0 && !IsSpace(d[0])
    ensures LeadingSpaces(" " + d) == 1
  {
    assert (" " + d)[1..] == d;
  }

  /** The text of a natural number reads back as that number. */
  lemma NatNumeral(n: nat)
    ensures ParseDigits(NatToString(n)) == Some(n)
  {
    DigitsRoundTrip(n);
  }

  /** `int` of a text whose sign is `-` is the negated value of the numeral after it. */
  lemma ParseIntNegative(s: string, v: nat)
    requires Signed(Strip(s)) && Strip(s)[0] == '-' && ParseDigits(Unsigned(Strip(s))) == Some(v)
    ensures ParseInt(s) == Success(-(v as int))
  {
  }

  lemma {:induction false} DigitsRoundTrip(n: nat)
    ensures DigitsValue(NatToString(n)) == n
    decreases n
  {
    if n >= 10 {
      var s := NatToString(n);
      assert s[..|s| - 1] == NatToString(n / 10);
      DigitsRoundTrip(n / 10);
    }
  }

  /** `int(str(n)) == n` for every integer. */
  lemma IntRoundTrip(n: int)
    ensures ParseInt(IntToString(n)) == Success(n)
  {
    var s := IntToString(n);
    IntToStringPlain(n);
    StripUnchanged(s);
    if n < 0 {
      NegativeParts(n);
      NatNumeral(-n);
      ParseIntNegative(s, -n);
    } else {
      NatNumeral(n);
      ParseIntPlain(s, n);
    }
  }

  /** The text of a negative number is a `-` followed directly by the digits of its magnitude. */
  lemma NegativeParts(n: int)
    requires n < 0
    ensures var s := IntToString(n); Signed(s) && s[0] == '-' && Unsigned(s) == NatToString(-n)
  {
    var s := IntToString(n);
    var d := NatToString(-n);
    assert s[1..] == d;
    assert LeadingSpaces(d) == 0;
  }

  /** `int` of a sign-less numeral, once stripped, is its value. */
  lemma ParseIntPlain(s: string, v: nat)
    requires !Signed(Strip(s)) && ParseDigits(Strip(s)) == Some(v)
    ensures ParseInt(s) == Success(v)
  {
  }

  /** A text holding a character that is neither a digit, a sign nor white space is no integer. */
  lemma ParseIntRejects(s: string, k: nat)
    requires k < |s| && !IsDigit(s[k]) && !IsSpace(s[k]) && s[k] != '-' && s[k] != '+'
    ensures ParseInt(s).Failure?
  {
    UnsignedNotDigits(s, k);
    ParseIntNeedsDigits(s);
  }

  lemma UnsignedNotDigits(s: string, k: nat)
    requires k < |s| && !IsDigit(s[k]) && !IsSpace(s[k]) && s[k] != '-' && s[k] != '+'
    ensures ParseDigits(Unsigned(Strip(s))).None?
  {
    var t := Strip(s);
    var i := k - (|s| - |StripLeft(s)|);
    StripKeeps(s, k);
    assert t[i] == s[k];
    var b := Unsigned(t);
    UnsignedKeeps(t, i);
    NotAllDigits(b, i - (|t| - |b|));
  }

  lemma NotAllDigits(b: string, j: nat)
    requires j < |b| && !IsDigit(b[j])
    ensures ParseDigits(b).None?
  {
  }

  /** `int` fails when what is left after the white space and the sign is no numeral. */
  lemma ParseIntNeedsDigits(s: string)
    requires ParseDigits(Unsigned(Strip(s))).None?
    ensures ParseInt(s).Failure?
  {
  }

  /** A character that is not white space survives stripping, at its place less the stripped left. */
  lemma StripKeeps(s: string, k: nat)
    requires k < |s| && !IsSpace(s[k])
    ensures var off := |s| - |StripLeft(s)|;
      off <= k < off + |Strip(s)| && Strip(s)[k - off] == s[k]
  {
  }

  /** A character that is neither white space nor a sign survives dropping the sign. */
  lemma UnsignedKeeps(t: string, i: nat)
    requires i < |t| && !IsSpace(t[i]) && t[i] != '-' && t[i] != '+'
    ensures var b := Unsigned(t);
      |t| - |b| <= i && b[i - (|t| - |b|)] == t[i]
  {
    if Signed(t) {
      LeadingSpacesAre(t[1..]);
      assert i >= 1 && t[i] == t[1..][i - 1];
    }
  }


}
