/**
  The handful of Kotlin/JVM string and number operations the stopwatch code
  relies on, written out with the semantics of the Kotlin standard library:
  decimal rendering, `String.toLong()` / `String.toIntOrNull()`, `trim()`,
  `substringAfterLast(": ")` and `split(":")`.
 */
module KotlinText {

  datatype Option<+T> = None | Some(value: T)

  /** `Long.MAX_VALUE`, `Long.MIN_VALUE`, `Int.MAX_VALUE`, `Int.MIN_VALUE`. */
  const LONG_MAX: int := 0x7FFF_FFFF_FFFF_FFFF
  const LONG_MIN: int := -0x8000_0000_0000_0000
  const INT_MAX: int := 0x7FFF_FFFF
  const INT_MIN: int := -0x8000_0000

  /** Kotlin's `Long`. */
  type Long = x: int | LONG_MIN <= x <= LONG_MAX

  /**
    Two's-complement wrap-around of a mathematical integer into a Kotlin
    `Long`: add or subtract 2^64 until the value is in range.
   */
  function Wrap64(x: int): (r: int)
    ensures LONG_MIN <= r <= LONG_MAX
    ensures LONG_MIN <= x <= LONG_MAX ==> r == x
    decreases if x > LONG_MAX then x - LONG_MAX else if x < LONG_MIN then LONG_MIN - x else 0
  {
    if x > LONG_MAX then Wrap64(x - 0x1_0000_0000_0000_0000)
    else if x < LONG_MIN then Wrap64(x + 0x1_0000_0000_0000_0000)
    else x
  }

  /** The wrapped value is the representative of x modulo 2^64 in the Long range. */
  lemma {:induction false} Wrap64Mod(x: int)
    ensures Wrap64(x) == (x - LONG_MIN) % 0x1_0000_0000_0000_0000 + LONG_MIN
    decreases if x > LONG_MAX then x - LONG_MAX else if x < LONG_MIN then LONG_MIN - x else 0
  {
    if x > LONG_MAX {
      Wrap64Mod(x - 0x1_0000_0000_0000_0000);
    } else if x < LONG_MIN {
      Wrap64Mod(x + 0x1_0000_0000_0000_0000);
    }
  }

  /** Kotlin's `a - b` on two `Long`s: the exact difference, moved by 2^64 at most once. */
  function LongSub(a: Long, b: Long): (r: Long)
    ensures LONG_MIN <= a - b <= LONG_MAX ==> r == a - b
  {
    var x := a - b;
    if x > LONG_MAX then x - 0x1_0000_0000_0000_0000
    else if x < LONG_MIN then x + 0x1_0000_0000_0000_0000
    else x
  }

  /** Kotlin's `a + b` on two `Long`s: the exact sum, moved by 2^64 at most once. */
  function LongAdd(a: Long, b: Long): (r: Long)
    ensures LONG_MIN <= a + b <= LONG_MAX ==> r == a + b
  {
    var x := a + b;
    if x > LONG_MAX then x - 0x1_0000_0000_0000_0000
    else if x < LONG_MIN then x + 0x1_0000_0000_0000_0000
    else x
  }

  /** One wrap step is all a difference or a sum of two Longs needs. */
  lemma LongSubAddWrap(a: Long, b: Long)
    ensures LongSub(a, b) == Wrap64(a - b)
    ensures LongAdd(a, b) == Wrap64(a + b)
  {
    var d, e := a - b, a + b;
    if d > LONG_MAX {
      assert Wrap64(d) == Wrap64(d - 0x1_0000_0000_0000_0000);
    } else if d < LONG_MIN {
      assert Wrap64(d) == Wrap64(d + 0x1_0000_0000_0000_0000);
    }
    if e > LONG_MAX {
      assert Wrap64(e) == Wrap64(e - 0x1_0000_0000_0000_0000);
    } else if e < LONG_MIN {
      assert Wrap64(e) == Wrap64(e + 0x1_0000_0000_0000_0000);
    }
  }

  // ---------------------------------------------------------------------
  // Digits and decimal numbers (ASCII digits only)
  // ---------------------------------------------------------------------

  predicate IsDigit(c: char) { '0' <= c <= '9' }

  predicate AllDigits(s: string) { forall i :: 0 <= i < |s| ==> IsDigit(s[i]) }

  function DigitValue(c: char): (d: nat)
    requires IsDigit(c)
    ensures d < 10
  {
    c as int - '0' as int
  }

  function DigitChar(d: nat): (c: char)
    requires d < 10
    ensures IsDigit(c) && DigitValue(c) == d
  {
    ('0' as int + d) as char
  }

  /** The number a run of ASCII digits denotes, most significant digit first. */
  function DigitsValue(s: string): nat
    requires AllDigits(s)
  {
    if s == [] then 0 else 10 * DigitsValue(s[..|s| - 1]) + DigitValue(s[|s| - 1])
  }

  /** `n.toString()` for a non-negative number: shortest decimal rendering. */
  function NatToString(n: nat): (s: string)
    ensures 1 <= |s| && AllDigits(s)
    ensures DigitsValue(s) == n
    ensures n < 10 <==> |s| == 1
    ensures |s| > 1 ==> s[0] != '0'
  {
    if n < 10 then [DigitChar(n)]
    else
      var s := NatToString(n / 10) + [DigitChar(n % 10)];
      assert s[..|s| - 1] == NatToString(n / 10);
      s
  }

  /** An optional `+` or `-` followed by at least one ASCII digit, and nothing else. */
  predicate IsNumeral(s: string)
  {
    && s != []
    && if s[0] == '+' || s[0] == '-' then |s| > 1 && AllDigits(s[1..]) else AllDigits(s)
  }

  /** The signed number a numeral denotes. */
  function NumeralValue(s: string): int
    requires IsNumeral(s)
  {
    if s[0] == '-' then 0 - DigitsValue(s[1..]) as int
    else if s[0] == '+' then DigitsValue(s[1..])
    else DigitsValue(s)
  }

  /**
    The number grammar shared by Kotlin's `String.toIntOrNull()` and
    `String.toLong()` (java.lang.Long.parseLong): an optional leading `+` or
    `-`, then at least one digit, and a value within [lo, hi]. `None` is the
    `null` result, respectively the NumberFormatException.
   */
  function ParseSigned(s: string, lo: int, hi: int): (r: Option<int>)
    ensures r.Some? ==> lo <= r.value <= hi
    ensures r.Some? ==> s != [] && (IsDigit(s[0]) || s[0] == '+' || s[0] == '-')
    ensures AllDigits(s) && s != [] && lo <= DigitsValue(s) <= hi ==> r == Some(DigitsValue(s))
    ensures r.Some? <==> IsNumeral(s) && lo <= NumeralValue(s) <= hi
    ensures r.Some? ==> r.value == NumeralValue(s)
  {
    if s == [] then None
    else if s[0] == '-' || s[0] == '+' then
      var body := s[1..];
      if body == [] || !AllDigits(body) then None
      else
        var v: int := if s[0] == '-' then 0 - DigitsValue(body) as int else DigitsValue(body);
        if lo <= v <= hi then Some(v) else None
    else if AllDigits(s) then
      var v := DigitsValue(s);
      if lo <= v <= hi then Some(v) else None
    else None
  }

  /** `String.toIntOrNull()`. */
  function ToIntOrNull(s: string): Option<int>
  {
    ParseSigned(s, INT_MIN, INT_MAX)
  }

  /** `String.toLong()`; `None` stands for the NumberFormatException it throws. */
  function ToLong(s: string): Option<int>
  {
    ParseSigned(s, LONG_MIN, LONG_MAX)
  }

  /** Every rendered index reads back as itself, as long as it fits an `Int`. */
  lemma ToIntOrNullOfNatToString(n: nat)
    requires n <= INT_MAX
    ensures ToIntOrNull(NatToString(n)) == Some(n)
  {
  }

  // ---------------------------------------------------------------------
  // trim()
  // ---------------------------------------------------------------------

  /**
    Kotlin's `Char.isWhitespace()` on the JVM: Character.isWhitespace or
    Character.isSpaceChar (the Unicode space, line and paragraph separators).
   */
  predicate IsWhitespace(c: char)
  {
    || c == ' ' || '\t' <= c <= '\r' || '\U{1C}' <= c <= '\U{1F}'
    || c == '\U{A0}' || c == '\U{1680}' || '\U{2000}' <= c <= '\U{200A}'
    || c == '\U{2028}' || c == '\U{2029}' || c == '\U{202F}' || c == '\U{205F}' || c == '\U{3000}'
  }

  function TrimStart(s: string): (r: string)
    ensures |r| <= |s| && r == s[|s| - |r|..]
    ensures forall i :: 0 <= i < |s| - |r| ==> IsWhitespace(s[i])
    ensures r != [] ==> !IsWhitespace(r[0])
  {
    if s == [] || !IsWhitespace(s[0]) then s else TrimStart(s[1..])
  }

  function TrimEnd(s: string): (r: string)
    ensures |r| <= |s| && r == s[..|r|]
    ensures forall i :: |r| <= i < |s| ==> IsWhitespace(s[i])
    ensures r != [] ==> !IsWhitespace(r[|r| - 1])
  {
    if s == [] || !IsWhitespace(s[|s| - 1]) then s else TrimEnd(s[..|s| - 1])
  }

  /** `String.trim()`: drops leading and trailing whitespace, keeps the middle. */
  function Trim(s: string): string
  {
    TrimEnd(TrimStart(s))
  }

  /** A string that neither starts nor ends with whitespace is its own trim. */
  lemma TrimNoOp(s: string)
    requires s != [] ==> !IsWhitespace(s[0]) && !IsWhitespace(s[|s| - 1])
    ensures Trim(s) == s
  {
  }

  // ---------------------------------------------------------------------
  // substringAfterLast(": ")
  // ---------------------------------------------------------------------

  predicate SepAt(s: string, k: int)
  {
    0 <= k && k + 1 < |s| && s[k] == ':' && s[k + 1] == ' '
  }

  /** `s.lastIndexOf(": ")`: the last position of the separator, or -1. */
  function LastIndexOfSep(s: string): (k: int)
    ensures -1 <= k < |s|
    ensures k >= 0 ==> SepAt(s, k)
    ensures forall j :: k < j < |s| ==> !SepAt(s, j)
  {
    if |s| < 2 then -1
    else if s[|s| - 2] == ':' && s[|s| - 1] == ' ' then |s| - 2
    else
      var k := LastIndexOfSep(s[..|s| - 1]);
      assert forall j :: k < j < |s| - 1 && SepAt(s, j) ==> SepAt(s[..|s| - 1], j);
      k
  }

  /** `s.substringAfterLast(": ")`: the whole string when there is no separator. */
  function SubstringAfterLast(s: string): string
  {
    var k := LastIndexOfSep(s);
    if k < 0 then s else s[k + 2..]
  }

  predicate EndsWithSep(p: string)
  {
    |p| >= 2 && p[|p| - 2] == ':' && p[|p| - 1] == ' '
  }

  /**
    A label that ends in ": " followed by text without a space: the text is
    what comes after the last separator. Without a label, a text that holds
    no separator is returned whole.
   */
  lemma {:induction false} AfterLabel(prefix: string, text: string)
    requires prefix == [] || EndsWithSep(prefix)
    requires ' ' !in text
    ensures SubstringAfterLast(prefix + text) == text
  {
    var s := prefix + text;
    var k := LastIndexOfSep(s);
    forall j | |prefix| - 1 <= j < |s|
      ensures !SepAt(s, j)
    {
    }
    if prefix == [] {
      assert k < 0;
    } else {
      assert SepAt(s, |prefix| - 2);
      assert k == |prefix| - 2;
      assert s[k + 2..] == text;
    }
  }

  // ---------------------------------------------------------------------
  // split(":")
  // ---------------------------------------------------------------------

  /** `s.indexOf(c)`: the first position of c, or -1. */
  function IndexOfChar(s: string, c: char): (k: int)
    ensures -1 <= k < |s|
    ensures k < 0 <==> c !in s
    ensures k >= 0 ==> s[k] == c && c !in s[..k]
  {
    if s == [] then -1
    else if s[0] == c then 0
    else
      var k := IndexOfChar(s[1..], c);
      if k < 0 then -1
      else
        assert s[..k + 1] == [s[0]] + s[1..][..k];
        k + 1
  }

  /** The inverse of splitting: the parts glued together with the separator. */
  function Join(parts: seq<string>, sep: char): string
    requires |parts| >= 1
  {
    if |parts| == 1 then parts[0] else parts[0] + [sep] + Join(parts[1..], sep)
  }

  /**
    Kotlin's `s.split(sep)` with a one-character delimiter and no limit:
    every piece between separators, empty pieces included (Kotlin, unlike
    Java, keeps trailing empty pieces).
   */
  function Split(s: string, sep: char): (parts: seq<string>)
    ensures |parts| >= 1
    ensures forall i :: 0 <= i < |parts| ==> sep !in parts[i]
    ensures Join(parts, sep) == s
    decreases |s|
  {
    var k := IndexOfChar(s, sep);
    if k < 0 then [s]
    else
      var rest := Split(s[k + 1..], sep);
      var parts := [s[..k]] + rest;
      assert parts[1..] == rest;
      assert forall i :: 1 <= i < |parts| ==> parts[i] == rest[i - 1];
      assert Join(parts, sep) == s[..k] + [sep] + Join(rest, sep);
      assert s == s[..k] + [sep] + s[k + 1..];
      parts
  }

  /** Three separator-free pieces glued with ':' split back into the same three. */
  lemma {:induction false} SplitThree(a: string, b: string, c: string)
    requires ':' !in a && ':' !in b && ':' !in c
    ensures Split(a + ":" + b + ":" + c, ':') == [a, b, c]
  {
    var s := a + ":" + b + ":" + c;
    var t := b + ":" + c;
    assert s == a + [':'] + t;
    assert s[|a|] == ':' && s[..|a|] == a;
    assert IndexOfChar(s, ':') == |a|;
    assert s[|a| + 1..] == t;
    assert t[|b|] == ':' && t[..|b|] == b;
    assert IndexOfChar(t, ':') == |b|;
    assert t[|b| + 1..] == c;
    assert Split(c, ':') == [c];
    assert Split(t, ':') == [b] + Split(c, ':');
    assert Split(s, ':') == [a] + Split(t, ':');
  }
}
