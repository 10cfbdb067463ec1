/**
  The stopwatch's duration text: `formatTime` renders a millisecond count as
  "MM:SS:CC" (minutes modulo 60, seconds, centiseconds; no hour field), and
  `parseTime` reads that token back from the text after the last ": ",
  answering `Long.MAX_VALUE` for anything it does not recognise.
  AnalyticsActivity carries a character-for-character copy of `parseTime`;
  both are this one ParseTime.
 */
module TimeFormat {
  import opened KotlinText

  /** Kotlin's `/` on `Long`: the quotient truncated toward zero. */
  function Quot(a: int, b: int): (q: int)
    requires b > 0
    ensures a >= 0 ==> q == a / b
    ensures a < 0 ==> q == -((-a) / b)
  {
    if a >= 0 then a / b else -((-a) / b)
  }

  /** Kotlin's `%` on `Long`: the remainder takes the sign of the dividend. */
  function Rem(a: int, b: int): (r: int)
    requires b > 0
    ensures a >= 0 ==> r == a % b
    ensures a == b * Quot(a, b) + r
  {
    a - b * Quot(a, b)
  }

  /**
    `String.format("%02d", n)` with ASCII digits: at least two characters,
    zero-padded on the left; a negative number keeps its sign, which already
    fills the width.
   */
  function Pad2(n: int): (s: string)
    ensures 0 <= n < 100 ==> |s| == 2 && AllDigits(s) && DigitsValue(s) == n
    ensures n < 0 ==> |s| >= 2 && s[0] == '-'
  {
    if n < 0 then "-" + NatToString(-n)
    else
      var d := NatToString(n);
      if |d| < 2 then "0" + d else d
  }

  /** MainActivity.formatTime. */
  function FormatTime(t: int): string
  {
    Pad2(Rem(Quot(t, 60000), 60)) + ":" + Pad2(Rem(Quot(t, 1000), 60)) + ":" + Pad2(Quot(Rem(t, 1000), 10))
  }

  /** The regular expression `\d{2}:\d{2}:\d{2}`, matched against the whole string. */
  predicate IsTimeToken(s: string)
  {
    && |s| == 8
    && IsDigit(s[0]) && IsDigit(s[1]) && s[2] == ':'
    && IsDigit(s[3]) && IsDigit(s[4]) && s[5] == ':'
    && IsDigit(s[6]) && IsDigit(s[7])
  }

  /** The three two-digit fields of a token, as minutes, seconds and centiseconds. */
  function Minutes(s: string): nat requires IsTimeToken(s) { DigitsValue(s[0..2]) }
  function Seconds(s: string): nat requires IsTimeToken(s) { DigitsValue(s[3..5]) }
  function Centis(s: string): nat requires IsTimeToken(s) { DigitsValue(s[6..8]) }

  function TokenValue(s: string): nat
    requires IsTimeToken(s)
  {
    Minutes(s) * 60000 + Seconds(s) * 1000 + Centis(s) * 10
  }

  /** The part of a lap or sector string that parseTime looks at. */
  function TimePortion(text: string): string
  {
    Trim(SubstringAfterLast(text))
  }

  /**
    MainActivity.parseTime (and its copy in AnalyticsActivity): the trimmed
    text after the last ": " must match the token pattern; its three parts
    are read with `toLong()`. Every failure, the pattern check or an
    exception, yields `Long.MAX_VALUE`.
   */
  function ParseTime(text: string): int
  {
    var portion := TimePortion(text);
    if !IsTimeToken(portion) then LONG_MAX else ReadToken(portion)
  }

  /** The arithmetic part of parseTime, once the pattern matched: split on ':' and `toLong()` each part. */
  function ReadToken(portion: string): int
  {
    var parts := Split(portion, ':');
    if |parts| < 3 then LONG_MAX
    else
      match (ToLong(parts[0]), ToLong(parts[1]), ToLong(parts[2]))
      case (Some(minutes), Some(seconds), Some(centis)) =>
        minutes * 60000 + seconds * 1000 + centis * 10
      case _ => LONG_MAX
  }

  /** A lap string parseTime accepts. */
  predicate Parseable(text: string)
  {
    ParseTime(text) != LONG_MAX
  }

  // ---------------------------------------------------------------------
  // Properties
  // ---------------------------------------------------------------------

  /** A two-digit run is worth ten times its first digit plus its second. */
  lemma TwoDigitsValue(x: string)
    requires |x| == 2 && AllDigits(x)
    ensures DigitsValue(x) == 10 * DigitValue(x[0]) + DigitValue(x[1])
    ensures DigitsValue(x) <= 99
  {
    var h := x[..1];
    assert h[..0] == [];
    assert DigitsValue(h) == DigitValue(x[0]);
  }

  /** How parseTime takes a matching token apart: three pieces, each a two-digit number. */
  lemma {:induction false} TokenParts(p: string)
    requires IsTimeToken(p)
    ensures Split(p, ':') == [p[0..2], p[3..5], p[6..8]]
    ensures ToLong(p[0..2]) == Some(Minutes(p)) && Minutes(p) <= 99
    ensures ToLong(p[3..5]) == Some(Seconds(p)) && Seconds(p) <= 99
    ensures ToLong(p[6..8]) == Some(Centis(p)) && Centis(p) <= 99
    ensures ReadToken(p) == TokenValue(p)
  {
    var a, b, c := p[0..2], p[3..5], p[6..8];
    TwoDigitField(a);
    TwoDigitField(b);
    TwoDigitField(c);
    assert p == a + ":" + b + ":" + c;
    SplitThree(a, b, c);
  }

  /** One two-digit field of a token: no separator in it, and `toLong()` reads its value. */
  lemma TwoDigitField(x: string)
    requires |x| == 2 && IsDigit(x[0]) && IsDigit(x[1])
    ensures ':' !in x
    ensures ToLong(x) == Some(DigitsValue(x)) && DigitsValue(x) <= 99
  {
    assert AllDigits(x);
    TwoDigitsValue(x);
  }

  /**
    parseTime succeeds exactly on texts whose time portion matches the
    pattern, and then returns the token's minutes, seconds and centiseconds
    in milliseconds, never more than 99:99:99 worth.
   */
  lemma {:induction false} ParseTimeSpec(text: string)
    ensures IsTimeToken(TimePortion(text)) ==> ParseTime(text) == TokenValue(TimePortion(text))
    ensures !IsTimeToken(TimePortion(text)) ==> ParseTime(text) == LONG_MAX
    ensures Parseable(text) <==> IsTimeToken(TimePortion(text))
    ensures Parseable(text) ==> 0 <= ParseTime(text) <= 6039990
  {
    var p := TimePortion(text);
    if IsTimeToken(p) {
      TokenParts(p);
    }
  }

  /** For a non-negative duration, formatTime gives the three two-digit fields. */
  lemma FormatTimeFields(t: int)
    requires t >= 0
    ensures IsTimeToken(FormatTime(t))
    ensures Minutes(FormatTime(t)) == (t / 60000) % 60
    ensures Seconds(FormatTime(t)) == (t / 1000) % 60
    ensures Centis(FormatTime(t)) == (t % 1000) / 10
  {
    var m := Rem(Quot(t, 60000), 60);
    var s := Rem(Quot(t, 1000), 60);
    var c := Quot(Rem(t, 1000), 10);
    assert m == (t / 60000) % 60 && s == (t / 1000) % 60 && c == (t % 1000) / 10;
    TokenOfPads(m, s, c);
  }

  /** Three numbers below 100, padded and joined with ':', make a token with those fields. */
  lemma TokenOfPads(m: int, s: int, c: int)
    requires 0 <= m < 100 && 0 <= s < 100 && 0 <= c < 100
    ensures var f := Pad2(m) + ":" + Pad2(s) + ":" + Pad2(c);
      IsTimeToken(f) && Minutes(f) == m && Seconds(f) == s && Centis(f) == c
  {
    var f := Pad2(m) + ":" + Pad2(s) + ":" + Pad2(c);
    assert f[0..2] == Pad2(m) && f[3..5] == Pad2(s) && f[6..8] == Pad2(c);
  }

  /** The fields of a clock reading recombine into the reading modulo an hour, to the centisecond. */
  lemma ClockFields(t: int)
    requires t >= 0
    ensures ((t / 60000) % 60) * 60000 + ((t / 1000) % 60) * 1000 + ((t % 1000) / 10) * 10
            == (t % 3600000) / 10 * 10
  {
    var r := t % 3600000;
    var a := t / 3600000;
    var m := r / 60000;
    var r1 := r % 60000;
    var s := r1 / 1000;
    var r2 := r1 % 1000;
    var c := r2 / 10;
    var e := r2 % 10;
    assert t == 3600000 * a + 60000 * m + 1000 * s + 10 * c + e;
    assert 0 <= m < 60 && 0 <= s < 60 && 0 <= c < 100 && 0 <= e < 10;
    assert t / 60000 == 60 * a + m;
    assert (t / 60000) % 60 == m;
    assert t / 1000 == 3600 * a + 60 * m + s;
    assert (t / 1000) % 60 == s;
    assert t % 1000 == 10 * c + e;
    assert (t % 1000) / 10 == c;
    assert r == 60000 * m + 1000 * s + 10 * c + e;
    assert r / 10 == 6000 * m + 100 * s + c;
  }

  /** A token, bare or after a prefix ending in ": ", is read back as its own value. */
  lemma {:induction false} ParseOfToken(prefix: string, f: string)
    requires IsTimeToken(f)
    requires prefix == [] || EndsWithSep(prefix)
    ensures TimePortion(prefix + f) == f
    ensures ParseTime(prefix + f) == TokenValue(f)
  {
    assert ' ' !in f by {
      forall i | 0 <= i < |f| ensures f[i] != ' ' {
        assert i == 2 || i == 5 || IsDigit(f[i]);
      }
    }
    AfterLabel(prefix, f);
    TrimNoOp(f);
    TokenParts(f);
  }

  /**
    The round trip the lap summary relies on: formatting a non-negative
    duration and parsing it back, bare or after a prefix ending in ": ",
    yields the duration modulo one hour, truncated to centiseconds.
   */
  lemma {:induction false} ParseFormatted(prefix: string, t: int)
    requires t >= 0
    requires prefix == [] || EndsWithSep(prefix)
    ensures TimePortion(prefix + FormatTime(t)) == FormatTime(t)
    ensures ParseTime(prefix + FormatTime(t)) == (t % 3600000) / 10 * 10
  {
    FormatTimeFields(t);
    ParseOfToken(prefix, FormatTime(t));
    ClockFields(t);
  }

  /** Two runs of two digits with the same value are the same text. */
  lemma TwoDigitsUnique(x: string, y: string)
    requires |x| == 2 && |y| == 2 && AllDigits(x) && AllDigits(y)
    requires DigitsValue(x) == DigitsValue(y)
    ensures x == y
  {
    TwoDigitsValue(x);
    TwoDigitsValue(y);
  }

  /**
    The other round trip: a token whose minutes and seconds are below 60 is
    reproduced exactly by formatting what parseTime read from it.
   */
  lemma {:induction false} FormatParsed(s: string)
    requires IsTimeToken(s) && Minutes(s) < 60 && Seconds(s) < 60
    ensures FormatTime(ParseTime(s)) == s
  {
    ParseOfToken([], s);
    FormatOfTokenValue(s);
  }

  /**
    parseTime accepts minutes and seconds up to 99, formatTime never writes
    more than 59: a token is reproduced exactly when both fields are below 60.
   */
  lemma {:induction false} FormatParsedIff(s: string)
    requires IsTimeToken(s)
    ensures FormatTime(ParseTime(s)) == s <==> Minutes(s) < 60 && Seconds(s) < 60
  {
    if Minutes(s) < 60 && Seconds(s) < 60 {
      FormatParsed(s);
    } else {
      ParseOfToken([], s);
      FormatTimeFields(TokenValue(s));
    }
  }

  /** A token with 60 minutes reads as one hour, which formats as "00:00:00". */
  lemma {:induction false} SixtyMinutesFormatsAsZero()
    ensures ParseTime("60:00:00") == 3600000
    ensures FormatTime(ParseTime("60:00:00")) == "00:00:00"
  {
    SixtyMinutesValue("60:00:00");
    WholeHourFormat(3600000, "00:00:00");
  }

  /** "60:00:00" passes the pattern and reads as one hour. */
  lemma {:induction false} SixtyMinutesValue(s: string)
    requires s == "60:00:00"
    ensures ParseTime(s) == 3600000
  {
    SixtyToken(s);
    ParseOfToken([], s);
    assert [] + s == s;
  }

  /** "60:00:00" is a token worth one hour. */
  lemma SixtyToken(s: string)
    requires s == "60:00:00"
    ensures IsTimeToken(s) && TokenValue(s) == 3600000
  {
    assert IsTimeToken(s);
    TwoDigitsValue(s[0..2]);
    TwoDigitsValue(s[3..5]);
    TwoDigitsValue(s[6..8]);
  }

  /** One hour formats as "00:00:00": the minutes wrap at 60. */
  lemma {:induction false} WholeHourFormat(t: int, z: string)
    requires t == 3600000 && z == "00:00:00"
    ensures FormatTime(t) == z
  {
    HourFields(t);
    ZeroToken(z);
    TokensWithEqualFields(FormatTime(t), z);
  }

  /** The fields formatTime computes for one hour are all zero. */
  lemma HourFields(t: int)
    requires t == 3600000
    ensures IsTimeToken(FormatTime(t))
    ensures Minutes(FormatTime(t)) == 0 && Seconds(FormatTime(t)) == 0 && Centis(FormatTime(t)) == 0
  {
    assert (t / 60000) % 60 == 0 && (t / 1000) % 60 == 0 && (t % 1000) / 10 == 0 by {
      assert t / 60000 == 60 && t / 1000 == 3600 && t % 1000 == 0;
    }
    FormatTimeFields(t);
  }

  /** "00:00:00" is a token with three zero fields. */
  lemma ZeroToken(z: string)
    requires z == "00:00:00"
    ensures IsTimeToken(z) && Minutes(z) == 0 && Seconds(z) == 0 && Centis(z) == 0
  {
    assert IsTimeToken(z);
    TwoDigitsValue(z[0..2]);
    TwoDigitsValue(z[3..5]);
    TwoDigitsValue(z[6..8]);
  }

  /** Formatting the value of a token with in-range fields reproduces the token. */
  lemma {:induction false} FormatOfTokenValue(s: string)
    requires IsTimeToken(s) && Minutes(s) < 60 && Seconds(s) < 60
    ensures FormatTime(TokenValue(s)) == s
  {
    var v := TokenValue(s);
    var m, sec, c := Minutes(s), Seconds(s), Centis(s);
    assert (v / 60000) % 60 == m && (v / 1000) % 60 == sec && (v % 1000) / 10 == c by {
      TokenParts(s);
      ComposedFields(m, sec, c);
    }
    var f := FormatTime(v);
    assert IsTimeToken(f) && Minutes(f) == m && Seconds(f) == sec && Centis(f) == c by {
      FormatTimeFields(v);
    }
    TokensWithEqualFields(f, s);
  }

  /** A token is determined by its three fields. */
  lemma TokensWithEqualFields(f: string, s: string)
    requires IsTimeToken(f) && IsTimeToken(s)
    requires Minutes(f) == Minutes(s) && Seconds(f) == Seconds(s) && Centis(f) == Centis(s)
    ensures f == s
  {
    TwoDigitsUnique(f[0..2], s[0..2]);
    TwoDigitsUnique(f[3..5], s[3..5]);
    TwoDigitsUnique(f[6..8], s[6..8]);
    assert f == f[0..2] + ":" + f[3..5] + ":" + f[6..8];
    assert s == s[0..2] + ":" + s[3..5] + ":" + s[6..8];
  }

  /** Minutes, seconds and centiseconds within their ranges are recovered from their sum in milliseconds. */
  lemma ComposedFields(m: int, sec: int, c: int)
    requires 0 <= m < 60 && 0 <= sec < 60 && 0 <= c < 100
    ensures var v := m * 60000 + sec * 1000 + c * 10;
      (v / 60000) % 60 == m && (v / 1000) % 60 == sec && (v % 1000) / 10 == c
  {
    var v := m * 60000 + sec * 1000 + c * 10;
    var low := sec * 1000 + c * 10;
    assert 0 <= low < 60000;
    assert v / 60000 == m;
    assert v / 1000 == m * 60 + sec;
    assert (m * 60 + sec) % 60 == sec;
    assert v % 1000 == c * 10;
  }
}
