/**
 * The small part of PHP's runtime semantics the theme relies on: the scalar
 * values the host's stores hand back, the (bool), (int) and (string) casts,
 * array-key conversion, and the string functions strpos, str_replace and
 * implode.
 */
module Php {

  datatype Option<T> = None | Some(value: T)

  /** The range of PHP's int on a 64-bit build: PHP_INT_MIN to PHP_INT_MAX. */
  const IntMin: int := -0x8000_0000_0000_0000
  const IntMax: int := 0x7FFF_FFFF_FFFF_FFFF

  predicate InIntRange(n: int)
  {
    IntMin <= n <= IntMax
  }

  /**
   * The least magnitude whose conversion to an IEEE 754 double overflows to
   * infinity under round-to-nearest-even: (2^54 - 1) * 2^970, halfway between
   * the largest finite double and 2^1024.
   */
  const DoubleOverflow: int := 0xfffffffffffffc00_0000000000000000_0000000000000000_0000000000000000_0000000000000000_0000000000000000_0000000000000000_0000000000000000_0000000000000000_0000000000000000_0000000000000000_0000000000000000_0000000000000000_0000000000000000_0000000000000000_0000000000000000

  /** A PHP int. */
  newtype Int64 = n: int | -0x8000_0000_0000_0000 <= n <= 0x7FFF_FFFF_FFFF_FFFF

  /** A PHP scalar as the host's setting and option stores return it. */
  datatype Value = Null | Bool(b: bool) | Int(i: Int64) | Str(s: string)

  /** PHP's (bool) cast, which is also the truth test of `if`, `!` and `||`. */
  function ToBool(v: Value): bool
  {
    match v
    case Null => false
    case Bool(b) => b
    case Int(i) => i != 0
    case Str(s) => s != "" && s != "0"
  }

  /** PHP's empty() on a scalar. */
  predicate IsEmpty(v: Value)
  {
    !ToBool(v)
  }

  // ---------------------------------------------------------------------------
  // Decimal digits

  predicate IsDigit(c: char)
  {
    '0' <= c <= '9'
  }

  predicate AllDigits(s: string)
  {
    forall i :: 0 <= i < |s| ==> IsDigit(s[i])
  }

  function DigitChar(d: nat): (c: char)
    requires d < 10
    ensures IsDigit(c)
  {
    (48 + d) as char
  }

  function DigitValue(c: char): (d: nat)
    requires IsDigit(c)
    ensures d < 10
  {
    c as int - 48
  }

  /** The decimal representation of a natural number, without leading zeros. */
  function NatToDecimal(n: nat): (s: string)
    ensures |s| > 0 && AllDigits(s)
    ensures s[0] == '0' ==> n == 0
  {
    if n < 10 then [DigitChar(n)] else NatToDecimal(n / 10) + [DigitChar(n % 10)]
  }

  /** PHP's conversion of an int to a string ('' . $n, sprintf('%s', $n)). */
  function IntToDecimal(n: int): string
  {
    if n < 0 then "-" + NatToDecimal(-n) else NatToDecimal(n)
  }

  /** The value of a string of decimal digits. */
  function DigitsValue(s: string): nat
    requires AllDigits(s)
  {
    if s == [] then 0 else DigitsValue(s[..|s| - 1]) * 10 + DigitValue(s[|s| - 1])
  }

  lemma {:induction false} DigitsValueOfDecimal(n: nat)
    ensures DigitsValue(NatToDecimal(n)) == n
  {
    var s := NatToDecimal(n);
    if n >= 10 {
      DigitsValueOfDecimal(n / 10);
      assert s[..|s| - 1] == NatToDecimal(n / 10);
    }
  }

  predicate IsSpace(c: char)
  {
    c == ' ' || c == '\t' || c == '\n' || c == '\r' || c == 11 as char || c == 12 as char
  }

  function SkipSpaces(s: string): (t: string)
    ensures t != [] ==> !IsSpace(t[0])
  {
    if s != [] && IsSpace(s[0]) then SkipSpaces(s[1..]) else s
  }

  /** The longest prefix of s made of decimal digits. */
  function LeadingDigits(s: string): (d: string)
    ensures AllDigits(d) && |d| <= |s| && d == s[..|d|]
    ensures |d| < |s| ==> !IsDigit(s[|d|])
  {
    if s != [] && IsDigit(s[0]) then [s[0]] + LeadingDigits(s[1..]) else []
  }

  /**
   * The integer a string's numeric prefix denotes: leading white space is
   * skipped, then an optional sign and the longest run of digits are read;
   * no digits give 0.
   */
  function ReadLeadingInt(s: string): int
  {
    var t := SkipSpaces(s);
    if t != [] && t[0] == '-' then -(DigitsValue(LeadingDigits(t[1..])) as int)
    else if t != [] && t[0] == '+' then DigitsValue(LeadingDigits(t[1..]))
    else DigitsValue(LeadingDigits(t))
  }

  /** An integer forced into the int range: beyond either end it becomes that end. */
  function Saturate(n: int): (r: int)
    ensures InIntRange(r)
    ensures InIntRange(n) ==> r == n
    ensures n > IntMax ==> r == IntMax
    ensures n < IntMin ==> r == IntMin
  {
    if n > IntMax then IntMax else if n < IntMin then IntMin else n
  }

  /**
   * The int a string's numeric prefix n becomes. A prefix that does not fit
   * an int is read as a double instead and capped (zend_dval_to_lval_cap): a
   * finite double is saturated at PHP_INT_MIN or PHP_INT_MAX, an infinite
   * one gives 0.
   */
  function CapToInt(n: int): (r: int)
    ensures InIntRange(r)
    ensures InIntRange(n) ==> r == n
    ensures IntMax < n < DoubleOverflow ==> r == IntMax
    ensures -DoubleOverflow < n < IntMin ==> r == IntMin
    ensures n >= DoubleOverflow || n <= -DoubleOverflow ==> r == 0
  {
    if n >= DoubleOverflow || n <= -DoubleOverflow then 0 else Saturate(n)
  }

  /** PHP's (int) cast of a string: its numeric prefix, capped to an int. */
  function ParseLeadingInt(s: string): (r: int)
    ensures InIntRange(r)
  {
    CapToInt(ReadLeadingInt(s))
  }

  /** PHP's (int) cast. */
  function ToInt(v: Value): (r: int)
    ensures InIntRange(r)
  {
    match v
    case Null => 0
    case Bool(b) => if b then 1 else 0
    case Int(i) => i as int
    case Str(s) => ParseLeadingInt(s)
  }

  /** PHP's (string) cast, which is also what echo and `.` do to a scalar. */
  function ToStr(v: Value): string
  {
    match v
    case Null => ""
    case Bool(b) => if b then "1" else ""
    case Int(i) => IntToDecimal(i as int)
    case Str(s) => s
  }

  /**
   * The array key a scalar stands for when it indexes a PHP array: null is
   * '', a bool is 0 or 1, an int its decimal form (a canonical decimal string
   * key becomes that int, so comparing decimal forms is exact).
   */
  function KeyOf(v: Value): string
  {
    match v
    case Null => ""
    case Bool(b) => if b then "1" else "0"
    case Int(i) => IntToDecimal(i as int)
    case Str(s) => s
  }

  /** The digit run of a string that starts with digits d and goes on with a non-digit is d. */
  lemma {:induction false} LeadingDigitsThen(d: string, t: string)
    requires AllDigits(d) && (t == [] || !IsDigit(t[0]))
    ensures LeadingDigits(d + t) == d
  {
    if d == [] {
      assert d + t == t;
    } else {
      assert (d + t)[1..] == d[1..] + t;
      LeadingDigitsThen(d[1..], t);
    }
  }

  /** A string that starts with neither white space nor a sign is read by its digit run alone. */
  lemma ReadUnsigned(s: string)
    requires s != [] && IsDigit(s[0])
    ensures ReadLeadingInt(s) == DigitsValue(LeadingDigits(s))
  {
    assert SkipSpaces(s) == s;
    assert s[0] != '-' && s[0] != '+';
  }

  /** A string that starts with `-` is read as the negated digit run after it. */
  lemma ReadNegative(rest: string)
    ensures ReadLeadingInt("-" + rest) == -(DigitsValue(LeadingDigits(rest)) as int)
  {
    var s := "-" + rest;
    assert s[0] == '-' && s[1..] == rest;
    assert SkipSpaces(s) == s;
  }

  lemma ParseDigitsThen(d: string, t: string)
    requires AllDigits(d) && d != [] && (t == [] || !IsDigit(t[0]))
    ensures ReadLeadingInt(d + t) == DigitsValue(d)
    ensures ReadLeadingInt("-" + d + t) == -(DigitsValue(d) as int)
  {
    LeadingDigitsThen(d, t);
    assert (d + t)[0] == d[0];
    ReadUnsigned(d + t);
    ReadNegative(d + t);
    assert "-" + d + t == "-" + (d + t);
  }

  /**
   * A string that starts with the decimal form of an int and goes on with a
   * non-digit (or nothing) denotes the int, and (int) gives it back when it
   * is in range.
   */
  lemma DecimalThenRoundTrip(n: int, t: string)
    requires t == [] || !IsDigit(t[0])
    ensures ReadLeadingInt(IntToDecimal(n) + t) == n
    ensures InIntRange(n) ==> ParseLeadingInt(IntToDecimal(n) + t) == n
  {
    var m := if n < 0 then -n else n;
    ParseDigitsThen(NatToDecimal(m), t);
    DigitsValueOfDecimal(m);
    if n < 0 {
      assert IntToDecimal(n) + t == "-" + NatToDecimal(m) + t;
    }
  }

  /** Casting the decimal form of a PHP int back with (int) gives the int. */
  lemma DecimalRoundTrip(n: int)
    ensures ReadLeadingInt(IntToDecimal(n)) == n
    ensures InIntRange(n) ==> ParseLeadingInt(IntToDecimal(n)) == n
    ensures InIntRange(n) ==> ToInt(Str(ToStr(Int(n as Int64)))) == n
  {
    DecimalThenRoundTrip(n, []);
    assert IntToDecimal(n) + [] == IntToDecimal(n);
  }

  /** Different integers have different decimal forms. */
  lemma IntToDecimalInjective(a: int, b: int)
    requires IntToDecimal(a) == IntToDecimal(b)
    ensures a == b
  {
    DecimalRoundTrip(a);
    DecimalRoundTrip(b);
  }

  /**
   * A run of digits too large for an int but not for a double casts to
   * PHP_INT_MAX, and with a minus sign to PHP_INT_MIN.
   */
  lemma SaturatingCast(d: string, t: string)
    requires AllDigits(d) && d != [] && (t == [] || !IsDigit(t[0]))
    requires IntMax < DigitsValue(d) < DoubleOverflow
    ensures ParseLeadingInt(d + t) == IntMax
    ensures ParseLeadingInt("-" + d + t) == IntMin
  {
    ParseDigitsThen(d, t);
  }

  /**
   * Casting with (int) a digit string too large even for a double, with or
   * without a leading `-`, gives 0: the double is infinite.
   */
  lemma OverflowingCast(d: string, t: string)
    requires AllDigits(d) && d != [] && (t == [] || !IsDigit(t[0]))
    requires DigitsValue(d) >= DoubleOverflow
    ensures ParseLeadingInt(d + t) == 0
    ensures ParseLeadingInt("-" + d + t) == 0
  {
    ParseDigitsThen(d, t);
  }

  // ---------------------------------------------------------------------------
  // strpos

  /** needle occurs in hay starting at index j. */
  predicate OccursAt(hay: string, needle: string, j: nat)
  {
    j + |needle| <= |hay| && hay[j..j + |needle|] == needle
  }

  lemma OccursShift(hay: string, needle: string)
    requires hay != []
    ensures forall j: nat :: 1 <= j ==> (OccursAt(hay, needle, j) <==> OccursAt(hay[1..], needle, j - 1))
  {
    forall j: nat | 1 <= j
      ensures OccursAt(hay, needle, j) <==> OccursAt(hay[1..], needle, j - 1)
    {
      if j + |needle| <= |hay| {
        assert hay[1..][j - 1..j - 1 + |needle|] == hay[j..j + |needle|];
      }
    }
  }

  /** PHP's strpos: the index of the first occurrence of needle, if any. */
  function StrPos(hay: string, needle: string): (r: Option<nat>)
    ensures r.Some? ==> OccursAt(hay, needle, r.value)
    ensures r.Some? ==> forall j: nat :: j < r.value ==> !OccursAt(hay, needle, j)
    ensures r.None? ==> forall j: nat :: !OccursAt(hay, needle, j)
    decreases |hay|
  {
    if OccursAt(hay, needle, 0) then Some(0)
    else if hay == [] then None
    else
      OccursShift(hay, needle);
      match StrPos(hay[1..], needle)
      case None => None
      case Some(i) => Some(i + 1)
  }

  /** false !== strpos(hay, needle). */
  predicate Contains(hay: string, needle: string)
  {
    StrPos(hay, needle).Some?
  }

  lemma ContainsChar(hay: string, c: char)
    ensures Contains(hay, [c]) <==> c in hay
  {
    if c in hay {
      var j :| 0 <= j < |hay| && hay[j] == c;
      assert OccursAt(hay, [c], j);
    }
    if Contains(hay, [c]) {
      var j := StrPos(hay, [c]).value;
      assert hay[j..j + 1] == [c];
      assert hay[j] == c;
    }
  }

  // ---------------------------------------------------------------------------
  // str_replace and implode

  /**
   * PHP's str_replace with one search string: every occurrence, scanned left
   * to right without overlap, is replaced; an empty search string leaves the
   * subject unchanged.
   */
  function StrReplace(search: string, replace: string, subject: string): string
    decreases |subject|
  {
    if search == [] then subject
    else if OccursAt(subject, search, 0) then replace + StrReplace(search, replace, subject[|search|..])
    else if subject == [] then subject
    else [subject[0]] + StrReplace(search, replace, subject[1..])
  }

  /** The number of occurrences str_replace replaces. */
  function ReplaceCount(search: string, subject: string): nat
    decreases |subject|
  {
    if search == [] then 0
    else if OccursAt(subject, search, 0) then 1 + ReplaceCount(search, subject[|search|..])
    else if subject == [] then 0
    else ReplaceCount(search, subject[1..])
  }

  lemma {:induction false} StrReplaceAbsent(search: string, replace: string, subject: string)
    requires !Contains(subject, search)
    ensures StrReplace(search, replace, subject) == subject
    decreases |subject|
  {
    if search == [] {
    } else if subject != [] {
      assert !OccursAt(subject, search, 0);
      OccursShift(subject, search);
      StrReplaceAbsent(search, replace, subject[1..]);
    }
  }

  lemma MulOnePlus(c: int, d: int)
    ensures (1 + c) * d == d + c * d
  {
  }

  lemma {:induction false} StrReplaceLength(search: string, replace: string, subject: string)
    ensures |StrReplace(search, replace, subject)|
         == |subject| + ReplaceCount(search, subject) * (|replace| - |search|)
    decreases |subject|
  {
    if search == [] {
    } else if OccursAt(subject, search, 0) {
      var rest := subject[|search|..];
      StrReplaceLength(search, replace, rest);
      var c, d := ReplaceCount(search, rest), |replace| - |search|;
      assert |StrReplace(search, replace, subject)| == |replace| + |StrReplace(search, replace, rest)|;
      assert |subject| == |search| + |rest|;
      assert ReplaceCount(search, subject) == 1 + c;
      MulOnePlus(c, d);
    } else if subject != [] {
      StrReplaceLength(search, replace, subject[1..]);
    }
  }

  /** With a non-empty search string, str_replace replaces something iff the search string occurs. */
  lemma {:induction false} ReplaceCountPositive(search: string, subject: string)
    requires search != []
    ensures ReplaceCount(search, subject) > 0 <==> Contains(subject, search)
    decreases |subject|
  {
    if OccursAt(subject, search, 0) {
    } else if subject != [] {
      OccursShift(subject, search);
      ReplaceCountPositive(search, subject[1..]);
    }
  }

  lemma {:induction false} StrReplaceSelf(search: string, subject: string)
    ensures StrReplace(search, search, subject) == subject
    decreases |subject|
  {
    if search == [] {
    } else if OccursAt(subject, search, 0) {
      StrReplaceSelf(search, subject[|search|..]);
      assert subject == search + subject[|search|..];
    } else if subject != [] {
      StrReplaceSelf(search, subject[1..]);
      assert subject == [subject[0]] + subject[1..];
    }
  }

  /** esc_attr's treatment of double quotes: each `"` becomes `&quot;`. */
  function EscapeQuotes(s: string): string
  {
    StrReplace("\"", "&quot;", s)
  }

  /**
   * Turning `&quot;` back into `"` undoes EscapeQuotes on a text without `&`
   * (a `&` of the text could otherwise start a `&quot;` of its own).
   */
  lemma {:induction false} UnescapeQuotesRoundTrip(s: string)
    requires '&' !in s
    ensures StrReplace("&quot;", "\"", EscapeQuotes(s)) == s
    decreases |s|
  {
    if s != [] {
      var rest := EscapeQuotes(s[1..]);
      UnescapeQuotesRoundTrip(s[1..]);
      if s[0] == '"' {
        assert OccursAt(s, "\"", 0);
        assert EscapeQuotes(s) == "&quot;" + rest;
        assert OccursAt("&quot;" + rest, "&quot;", 0);
        assert ("&quot;" + rest)[6..] == rest;
      } else {
        assert !OccursAt(s, "\"", 0);
        assert EscapeQuotes(s) == [s[0]] + rest;
        var t := [s[0]] + rest;
        assert |t| < 6 || t[..6][0] != "&quot;"[0];
        assert !OccursAt(t, "&quot;", 0);
        assert t[1..] == rest;
      }
    }
  }

  /** PHP's implode. */
  function Join(sep: string, parts: seq<string>): string
  {
    if parts == [] then "" else if |parts| == 1 then parts[0] else parts[0] + sep + Join(sep, parts[1..])
  }

  /**
   * array_intersect( xs, ys ): the elements of xs that occur in ys, in the
   * order of xs and as often as xs has them.
   */
  function Intersect(xs: seq<string>, ys: seq<string>): (r: seq<string>)
    ensures |r| <= |xs|
  {
    if xs == [] then []
    else if xs[0] in ys then [xs[0]] + Intersect(xs[1..], ys)
    else Intersect(xs[1..], ys)
  }

  /**
   * The elements kept are those of xs that occur in ys, each exactly as
   * often as xs has it; the others are dropped.
   */
  lemma {:induction false} IntersectCount(xs: seq<string>, ys: seq<string>)
    ensures forall x :: x in Intersect(xs, ys) <==> x in xs && x in ys
    ensures forall x :: multiset(Intersect(xs, ys))[x] == if x in ys then multiset(xs)[x] else 0
  {
    if xs != [] {
      IntersectCount(xs[1..], ys);
      assert xs == [xs[0]] + xs[1..];
    }
  }

  /** One step of array_intersect: the head is kept exactly when it occurs in ys. */
  lemma IntersectCons(x: string, rest: seq<string>, ys: seq<string>)
    ensures Intersect([x] + rest, ys) == if x in ys then [x] + Intersect(rest, ys) else Intersect(rest, ys)
  {
    assert ([x] + rest)[0] == x && ([x] + rest)[1..] == rest;
  }

  /** The intersection of a concatenation is the concatenation of the intersections: the order of xs is kept. */
  lemma {:induction false} IntersectAppend(a: seq<string>, b: seq<string>, ys: seq<string>)
    ensures Intersect(a + b, ys) == Intersect(a, ys) + Intersect(b, ys)
  {
    if a == [] {
      assert a + b == b;
    } else {
      var h, t := a[0], a[1..];
      var head := if h in ys then [h] else [];
      assert Intersect(a, ys) == head + Intersect(t, ys) by {
        assert a == [h] + t;
        IntersectCons(h, t, ys);
      }
      assert Intersect(a + b, ys) == head + Intersect(t + b, ys) by {
        assert a + b == [h] + (t + b);
        IntersectCons(h, t + b, ys);
      }
      IntersectAppend(t, b, ys);
      assert head + (Intersect(t, ys) + Intersect(b, ys)) == (head + Intersect(t, ys)) + Intersect(b, ys);
    }
  }
}
