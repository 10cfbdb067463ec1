/**
  The saved-session record (Session.kt) and its one piece of arithmetic,
  `getTotalDurationMs`, which reads the "MM:SS:CC" total-time text back into
  milliseconds.
 */
module Sessions {
  import opened KotlinText
  import opened TimeFormat

  /**
    One completed run. The optional fields are Kotlin's nullable
    `liveSessionId` and `uploadError`; the rest are plain strings, lists and
    flags, compared structurally as Kotlin compares data classes.
   */
  datatype Session = Session(
    id: string,
    name: string,
    username: string,
    date: string,
    startTime: string,
    fastestLap: string,
    slowestLap: string,
    averageLap: string,
    consistency: string,
    totalTime: string,
    location: string,
    dateTime: string,
    laps: seq<string>,
    sectors: seq<seq<string>>,
    isLive: bool,
    liveSessionId: Option<string>,
    topSpeed: string,
    averageSpeed: string,
    isUploaded: bool,
    uploadError: Option<string>)

  /**
    Session.getTotalDurationMs: split the total time on ':'; exactly three
    parts, each accepted by `toLong()`, give minutes, seconds and
    centiseconds in milliseconds, computed in `Long` arithmetic; anything
    else (another part count, a NumberFormatException) gives 0.
   */
  function GetTotalDurationMs(s: Session): (r: int)
    ensures LONG_MIN <= r <= LONG_MAX
    ensures IsTimeToken(s.totalTime) ==> r == TokenValue(s.totalTime)
  {
    if IsTimeToken(s.totalTime) then
      DurationOfToken(s.totalTime);
      DurationOfText(s.totalTime)
    else
      DurationOfText(s.totalTime)
  }

  /** The body of getTotalDurationMs, on the text alone. */
  function DurationOfText(totalTime: string): (r: int)
    ensures LONG_MIN <= r <= LONG_MAX
  {
    var parts := Split(totalTime, ':');
    if |parts| != 3 then 0
    else
      match (ToLong(parts[0]), ToLong(parts[1]), ToLong(parts[2]))
      case (Some(minutes), Some(seconds), Some(centis)) => Millis(minutes, seconds, centis)
      case _ => 0
  }

  /** `minutes * 60000 + seconds * 1000 + centis * 10` in Long arithmetic. */
  function Millis(minutes: int, seconds: int, centis: int): int
  {
    Wrap64(minutes * 60000 + seconds * 1000 + centis * 10)
  }

  /**
    Three ':'-free parts that `toLong()` accepts, of any length and sign, are
    combined; if any part is rejected the result is 0.
   */
  lemma {:induction false} DurationOfThreeParts(a: string, b: string, c: string)
    requires ':' !in a && ':' !in b && ':' !in c
    ensures ToLong(a).Some? && ToLong(b).Some? && ToLong(c).Some? ==>
      DurationOfText(a + ":" + b + ":" + c)
        == Millis(ToLong(a).value, ToLong(b).value, ToLong(c).value)
    ensures ToLong(a).None? || ToLong(b).None? || ToLong(c).None? ==>
      DurationOfText(a + ":" + b + ":" + c) == 0
  {
    SplitThree(a, b, c);
    DurationOfParts(a + ":" + b + ":" + c, a, b, c);
  }

  lemma DurationOfParts(totalTime: string, a: string, b: string, c: string)
    requires Split(totalTime, ':') == [a, b, c]
    ensures ToLong(a).Some? && ToLong(b).Some? && ToLong(c).Some? ==>
      DurationOfText(totalTime) == Millis(ToLong(a).value, ToLong(b).value, ToLong(c).value)
    ensures ToLong(a).None? || ToLong(b).None? || ToLong(c).None? ==> DurationOfText(totalTime) == 0
  {
    var parts := Split(totalTime, ':');
    assert |parts| == 3 && parts[0] == a && parts[1] == b && parts[2] == c;
  }

  /** A text with no ':' at all, or with more than two, has no duration. */
  lemma {:induction false} DurationOfWrongShape(totalTime: string)
    requires |Split(totalTime, ':')| != 3
    ensures DurationOfText(totalTime) == 0
  {
  }

  /** On the tokens formatTime writes, getTotalDurationMs agrees with parseTime. */
  lemma {:induction false} DurationAgreesWithParseTime(token: string)
    requires IsTimeToken(token)
    ensures DurationOfText(token) == ParseTime(token) == TokenValue(token)
  {
    DurationOfToken(token);
    ParseOfToken([], token);
  }

  /** A well-formed token's duration is its minutes, seconds and centiseconds in milliseconds. */
  lemma {:induction false} DurationOfToken(token: string)
    requires IsTimeToken(token)
    ensures DurationOfText(token) == TokenValue(token)
  {
    TokenParts(token);
  }

  /**
    The total time of a session recorded with formatTime(t), t >= 0, is t
    modulo one hour, truncated to centiseconds.
   */
  lemma {:induction false} DurationOfFormatted(t: int)
    requires t >= 0
    ensures DurationOfText(FormatTime(t)) == (t % 3600000) / 10 * 10
  {
    var f := FormatTime(t);
    FormatTimeFields(t);
    DurationOfToken(f);
    assert TokenValue(f) == Minutes(f) * 60000 + Seconds(f) * 1000 + Centis(f) * 10;
    ClockFields(t);
  }

  /**
    Unlike parseTime, getTotalDurationMs checks no digit count or sign:
    "1:-2:3" is 58.03 seconds to it and unreadable to parseTime.
   */
  lemma LenientExample()
    ensures DurationOfText("1:-2:3") == 58030
    ensures ParseTime("1:-2:3") == LONG_MAX
  {
    LenientDuration();
    LenientRejected();
  }

  lemma LenientDuration()
    ensures DurationOfText("1:-2:3") == 58030
  {
    var a, b, c := "1", "-2", "3";
    LenientParts();
    DurationOfThreeParts(a, b, c);
    assert a + ":" + b + ":" + c == "1:-2:3";
  }

  lemma LenientParts()
    ensures ToLong("1") == Some(1) && ToLong("-2") == Some(-2) && ToLong("3") == Some(3)
  {
    assert DigitsValue("1") == 1 by { assert "1"[..0] == []; }
    assert "-2"[1..] == "2";
    assert DigitsValue("2") == 2 by { assert "2"[..0] == []; }
    assert DigitsValue("3") == 3 by { assert "3"[..0] == []; }
  }

  lemma LenientRejected()
    ensures ParseTime("1:-2:3") == LONG_MAX
  {
    var s := "1:-2:3";
    assert ' ' !in s && s[0] == '1' && s[|s| - 1] == '3';
    PortionOfPlainText(s);
    ParseTimeSpec(s);
  }

  /** A text with no space and no surrounding whitespace is its own time portion. */
  lemma PortionOfPlainText(s: string)
    requires ' ' !in s
    requires s != [] ==> !IsWhitespace(s[0]) && !IsWhitespace(s[|s| - 1])
    ensures TimePortion(s) == s
  {
    AfterLabel([], s);
    assert [] + s == s;
    TrimNoOp(s);
  }
}
