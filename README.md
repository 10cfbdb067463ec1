# stoperica — a Dafny model of the stopwatch core

stoperica is an Android lap timer. A stopwatch screen (MainActivity) starts,
pauses, resumes and stops a clock, records laps and sectors from debounced
buttons or from START_LAP / LAP broadcasts, and saves a finished run as a
`Session` with summary texts (fastest, slowest and average lap). Sessions
travel between screens as Android `Parcel`s. A live session is mirrored to a
Firebase Realtime Database node and read back from it. A map screen and a
background service turn GPS fixes near a start marker or sector markers into
START_LAP, LAP and SECTOR broadcasts, with a 5-second cooldown. An analytics
screen picks the sessions with the fastest and slowest laps and renames or
deletes sessions. A compare screen lets the user select two sessions.

This project models that core in Dafny and proves what the code promises.

| file | module | what it models |
|---|---|---|
| kotlin_text.dfy | `KotlinText` | `Long` wrap-around, `toString`, `toLong`/`toIntOrNull`, `trim`, `substringAfterLast(": ")`, `split(':')` |
| kotlin_lists.dfy | `KotlinLists` | `indexOf`, `minByOrNull`/`maxByOrNull` (the first least / greatest), `list - x` and `remove(x)` |
| time_format.dfy | `TimeFormat` | `formatTime` and `parseTime` (MainActivity's copy and AnalyticsActivity's are identical text), with both round trips |
| sessions.dfy | `Sessions` | the `Session` record and `getTotalDurationMs` |
| session_parcel.dfy | `SessionParcel` | a `Parcel` class (typed items and a read cursor), `writeToParcel` and the parcel constructor, with the round trip |
| session_summary.dfy | `SessionSummary` | the summary texts `saveSession` computes |
| broadcasts.dfy | `Broadcasts` | the three broadcast intents |
| stopwatch_spec.dfy | `StopwatchSpec` | the stopwatch as a state machine: one function per operation and per user event, the invariant they keep, and the properties of runs |
| stopwatch.dfy | `Stopwatch` | class `MainActivity`, whose methods update its fields in place and are proved to follow `StopwatchSpec` |
| live_session.dfy | `LiveSessions` | the database node, `toMap`/`toFirebaseFormat`, `fromSnapshot` with `parseParticipants`, `parseStringList` and `parseSectors` (an in-place method with loops), and the join dialog's filter |
| proximity.dfy | `Proximity` | one proximity check as a function; classes `MapActivity` and `LocationTrackingService` and the service's companion object |
| analytics.dfy | `Analytics` | the fastest/slowest picks, delete and rename |
| compare.dfy | `Compare` | the two-session selection and class `CompareActivity` with its own list |

The clock (`System.currentTimeMillis()`) is a parameter `now` of every
operation that reads it. Kotlin's truncating `/` and `%` and its 64-bit
wrap-around are written out.

One proximity check tests the 5000 ms cooldown once (MapActivity.kt:163) and
then sends the start marker's START_LAP or LAP, followed by one SECTOR for
every sector marker in range (MapActivity.kt:184-197,
LocationTrackingService.kt:132-142), all in the same check
(`Proximity.CheckFiresIff`, `Proximity.SectorEventsComplete`).

LocationTrackingService reads its markers from its companion object
(LocationTrackingService.kt:150-153). Nothing in the app ever assigns them, so
the service never sends anything (`Proximity.NoMarkersNoEvents`). The model
still gives the service's check in full for any markers.

parseTime accepts minutes and seconds up to 99, while formatTime writes at
most 59 of each. So `formatTime(parseTime(s)) == s` holds for a token `s`
only when its minutes and seconds are below 60 (`TimeFormat.FormatParsedIff`):
"60:00:00" reads as one hour and formats as "00:00:00"
(`TimeFormat.SixtyMinutesFormatsAsZero`).

## Model

| member | source | states |
|---|---|---|
| KotlinText.Wrap64 | stoperica/app/src/main/java/com/cifiko/stoperica/MainActivity.kt:480-483 | The result lies in the `Long` range, and a value already in range is left alone |
| KotlinText.Wrap64Mod | stoperica/app/src/main/java/com/cifiko/stoperica/MainActivity.kt:480-483 | The wrapped value is (x - Long.MIN_VALUE) mod 2^64 + Long.MIN_VALUE, the two's-complement representative of x |
| KotlinText.LongSub | stoperica/app/src/main/java/com/cifiko/stoperica/MainActivity.kt:261 | `a - b` on Longs lies in the `Long` range and is the exact difference whenever that fits |
| KotlinText.LongAdd | stoperica/app/src/main/java/com/cifiko/stoperica/MainActivity.kt:481-483 | `a + b` on Longs lies in the `Long` range and is the exact sum whenever that fits |
| KotlinText.LongSubAddWrap | stoperica/app/src/main/java/com/cifiko/stoperica/MainActivity.kt:480-483 | A Long difference or sum is the two's-complement wrap of the exact one |
| KotlinText.NatToString | stoperica/app/src/main/java/com/cifiko/stoperica/LiveSession.kt:105-106 | `n.toString()` for n >= 0 is a non-empty run of digits worth n, one digit exactly when n < 10, with no leading zero |
| KotlinText.ParseSigned | stoperica/app/src/main/java/com/cifiko/stoperica/Session.kt:111 | `toLong()`/`toIntOrNull()` accept exactly an optional `+` or `-` followed by at least one digit whose signed value lies within the type's range, and return that signed value ("-2" is -2, "+7" is 7; "1a", "-" and "+-1" are rejected) |
| KotlinText.ToIntOrNullOfNatToString | stoperica/app/src/main/java/com/cifiko/stoperica/LiveSession.kt:84 | A lap index written with `toString()` reads back as itself with `toIntOrNull()` |
| KotlinText.TrimStart | stoperica/app/src/main/java/com/cifiko/stoperica/MainActivity.kt:1491 | Trimming the front drops exactly a run of leading whitespace (Kotlin's `isWhitespace` set) and stops at a non-whitespace character |
| KotlinText.TrimEnd | stoperica/app/src/main/java/com/cifiko/stoperica/MainActivity.kt:1491 | Trimming the back drops exactly a run of trailing whitespace and stops at a non-whitespace character |
| KotlinText.TrimNoOp | stoperica/app/src/main/java/com/cifiko/stoperica/MainActivity.kt:1491 | A text with no whitespace at either end is its own `trim()` |
| KotlinText.LastIndexOfSep | stoperica/app/src/main/java/com/cifiko/stoperica/MainActivity.kt:1491 | `lastIndexOf(": ")` is the last position of the separator, or -1 when there is none |
| KotlinText.AfterLabel | stoperica/app/src/main/java/com/cifiko/stoperica/MainActivity.kt:696 | After a label ending in ": ", `substringAfterLast(": ")` gives the text that follows; a text with no separator comes back whole |
| KotlinText.IndexOfChar | stoperica/app/src/main/java/com/cifiko/stoperica/Session.kt:109 | `indexOf(c)` is the first position of c, or -1 when c is absent |
| KotlinText.Split | stoperica/app/src/main/java/com/cifiko/stoperica/Session.kt:109 | `split(":")` gives at least one piece, no piece holds ':', and joining the pieces with ':' gives the text back (empty pieces kept) |
| KotlinText.SplitThree | stoperica/app/src/main/java/com/cifiko/stoperica/MainActivity.kt:1497 | Three ':'-free pieces joined with ':' split back into the same three pieces |
| KotlinText.ToLong | stoperica/app/src/main/java/com/cifiko/stoperica/Session.kt:111 | `String.toLong()`: defined by `ParseSigned` over the Long range, so it accepts exactly an optional sign and digits whose value fits a Long, and returns that signed value |
| KotlinText.ToIntOrNull | stoperica/app/src/main/java/com/cifiko/stoperica/LiveSession.kt:84 | `String.toIntOrNull()`: defined by `ParseSigned` over the Int range; `ToIntOrNullOfNatToString` proves that every rendered lap index reads back as itself |
| KotlinText.Trim | stoperica/app/src/main/java/com/cifiko/stoperica/MainActivity.kt:1491 | `trim()`: the composition of `TrimStart` and `TrimEnd`, whose contracts say exactly which whitespace goes; `TrimNoOp` proves a text without edge whitespace is unchanged |
| KotlinText.SubstringAfterLast | stoperica/app/src/main/java/com/cifiko/stoperica/MainActivity.kt:1491 | `substringAfterLast(": ")`: the text after the last separator `LastIndexOfSep` finds, or the whole text; `AfterLabel` proves a label ending in ": " is removed exactly |
| KotlinLists.IndexOf | stoperica/app/src/main/java/com/cifiko/stoperica/MainActivity.kt:695 | `indexOf(x)` is the first position holding x, or -1 exactly when x is absent |
| KotlinLists.MinBy | stoperica/app/src/main/java/com/cifiko/stoperica/MainActivity.kt:694 | `minByOrNull` on a non-empty list picks the first element with the least key |
| KotlinLists.MinBySnoc | stoperica/app/src/main/java/com/cifiko/stoperica/MainActivity.kt:694 | An appended element becomes the minimum only when its key is strictly smaller |
| KotlinLists.MaxBy | stoperica/app/src/main/java/com/cifiko/stoperica/MainActivity.kt:702 | `maxByOrNull` on a non-empty list picks the first element with the greatest key |
| KotlinLists.MaxBySnoc | stoperica/app/src/main/java/com/cifiko/stoperica/MainActivity.kt:702 | An appended element becomes the maximum only when its key is strictly greater |
| KotlinLists.RemoveFirstSpec | stoperica/app/src/main/java/com/cifiko/stoperica/AnalyticsActivity.kt:178 | `list - x` leaves the list alone when x is absent; otherwise it removes exactly the element at x's first position |
| KotlinLists.RemoveFirstCount | stoperica/app/src/main/java/com/cifiko/stoperica/CompareActivity.kt:42 | Removing a present element shortens the list by one and removes one copy from its multiset |
| KotlinLists.RemoveFirst | stoperica/app/src/main/java/com/cifiko/stoperica/AnalyticsActivity.kt:178 | `list - element`: `RemoveFirstSpec` proves it removes exactly the first occurrence or nothing, and `RemoveFirstCount` that one copy fewer remains |
| TimeFormat.Quot | stoperica/app/src/main/java/com/cifiko/stoperica/MainActivity.kt:1483-1485 | Kotlin's `/` truncates toward zero: the floor quotient for a >= 0, the negated quotient of -a for a < 0 |
| TimeFormat.Rem | stoperica/app/src/main/java/com/cifiko/stoperica/MainActivity.kt:1483-1485 | Kotlin's `%`: the usual remainder for a >= 0, and always a == b * Quot(a, b) + r |
| TimeFormat.Pad2 | stoperica/app/src/main/java/com/cifiko/stoperica/MainActivity.kt:1486 | `%02d` on 0..99 gives exactly two digits worth n; a negative n keeps its '-' in a text of at least two characters |
| TimeFormat.TwoDigitsValue | stoperica/app/src/main/java/com/cifiko/stoperica/MainActivity.kt:1498-1500 | A two-digit run is worth ten times its first digit plus its second, so at most 99 |
| TimeFormat.TokenParts | stoperica/app/src/main/java/com/cifiko/stoperica/MainActivity.kt:1497-1501 | A token matching `\d{2}:\d{2}:\d{2}` splits into its three two-digit pieces, `toLong()` reads each as its field, and the computed value is the token's |
| TimeFormat.TwoDigitField | stoperica/app/src/main/java/com/cifiko/stoperica/MainActivity.kt:1498-1500 | A two-digit field holds no ':' and `toLong()` reads its value, at most 99 |
| TimeFormat.ParseTimeSpec | stoperica/app/src/main/java/com/cifiko/stoperica/MainActivity.kt:1489-1507 | parseTime succeeds exactly when the trimmed text after the last ": " matches the pattern, and then returns minutes*60000 + seconds*1000 + centiseconds*10, between 0 and 6039990; otherwise Long.MAX_VALUE. AnalyticsActivity.kt:247-265 is the same code |
| TimeFormat.FormatTimeFields | stoperica/app/src/main/java/com/cifiko/stoperica/MainActivity.kt:1481-1487 | For t >= 0, formatTime gives a token whose fields are (t / 60000) % 60, (t / 1000) % 60 and (t % 1000) / 10 |
| TimeFormat.TokenOfPads | stoperica/app/src/main/java/com/cifiko/stoperica/MainActivity.kt:1486 | Three numbers below 100, padded and joined with ':', form a token with those fields |
| TimeFormat.ClockFields | stoperica/app/src/main/java/com/cifiko/stoperica/MainActivity.kt:1483-1485 | For t >= 0 the three fields recombine into t modulo one hour, truncated to centiseconds |
| TimeFormat.ParseOfToken | stoperica/app/src/main/java/com/cifiko/stoperica/MainActivity.kt:1489-1507 | A token, bare or after a prefix ending in ": ", is read back as its own value |
| TimeFormat.ParseFormatted | stoperica/app/src/main/java/com/cifiko/stoperica/MainActivity.kt:1481-1507 | Round trip: parseTime(formatTime(t)) for t >= 0, bare or labelled, is t modulo one hour, truncated to centiseconds |
| TimeFormat.TwoDigitsUnique | stoperica/app/src/main/java/com/cifiko/stoperica/MainActivity.kt:1498-1500 | Two two-digit runs with the same value are the same text |
| TimeFormat.FormatParsed | stoperica/app/src/main/java/com/cifiko/stoperica/MainActivity.kt:1481-1507 | Other round trip: a token with minutes and seconds below 60 is reproduced by formatting the value parseTime reads from it |
| TimeFormat.FormatOfTokenValue | stoperica/app/src/main/java/com/cifiko/stoperica/MainActivity.kt:1481-1487 | Formatting the value of a token with in-range fields reproduces the token |
| TimeFormat.TokensWithEqualFields | stoperica/app/src/main/java/com/cifiko/stoperica/MainActivity.kt:1492 | Two tokens with the same three fields are equal |
| TimeFormat.ComposedFields | stoperica/app/src/main/java/com/cifiko/stoperica/MainActivity.kt:1501 | Minutes, seconds and centiseconds within their ranges are recovered from their sum in milliseconds |
| TimeFormat.FormatTime | stoperica/app/src/main/java/com/cifiko/stoperica/MainActivity.kt:1481-1487 | formatTime with Kotlin's truncating `/` and `%`: `FormatTimeFields` gives its three fields for t >= 0, `ParseFormatted` reads it back as t mod one hour to the centisecond |
| TimeFormat.ParseTime | stoperica/app/src/main/java/com/cifiko/stoperica/MainActivity.kt:1489-1507 | parseTime: `ParseTimeSpec` proves it accepts exactly a trimmed token after the last ": " and returns the field sum, Long.MAX_VALUE otherwise |
| TimeFormat.FormatParsedIff | stoperica/app/src/main/java/com/cifiko/stoperica/MainActivity.kt:1481-1507 | For a token, formatTime(parseTime(s)) == s exactly when its minutes and seconds are below 60: parseTime accepts fields up to 99, formatTime writes at most 59 |
| TimeFormat.SixtyMinutesFormatsAsZero | stoperica/app/src/main/java/com/cifiko/stoperica/MainActivity.kt:1481-1507 | "60:00:00" reads as 3 600 000 ms and formats back as "00:00:00" |
| Sessions.GetTotalDurationMs | stoperica/app/src/main/java/com/cifiko/stoperica/Session.kt:107-118 | The result lies in the `Long` range, and a total time in the `mm:ss:cc` shape gives its minutes, seconds and centiseconds in milliseconds |
| Sessions.DurationOfParts | stoperica/app/src/main/java/com/cifiko/stoperica/Session.kt:109-117 | A text that splits into three pieces gives their combination in wrapped Long arithmetic when `toLong()` accepts all three, and 0 when it rejects any |
| Sessions.DurationOfThreeParts | stoperica/app/src/main/java/com/cifiko/stoperica/Session.kt:110-111 | Three ':'-free pieces of any length and sign, joined with ':', are combined in wrapped Long arithmetic when all parse, and give 0 when any fails |
| Sessions.DurationOfWrongShape | stoperica/app/src/main/java/com/cifiko/stoperica/Session.kt:110-113 | A total time that does not split into exactly three pieces has duration 0 |
| Sessions.DurationAgreesWithParseTime | stoperica/app/src/main/java/com/cifiko/stoperica/Session.kt:107-118 | On the tokens formatTime writes, getTotalDurationMs equals parseTime |
| Sessions.DurationOfToken | stoperica/app/src/main/java/com/cifiko/stoperica/Session.kt:111 | A well-formed token's duration is its minutes, seconds and centiseconds in milliseconds |
| Sessions.DurationOfFormatted | stoperica/app/src/main/java/com/cifiko/stoperica/Session.kt:107-118 | A total time written as formatTime(t), t >= 0, has duration t modulo one hour, truncated to centiseconds |
| Sessions.LenientExample | stoperica/app/src/main/java/com/cifiko/stoperica/Session.kt:109-111 | "1:-2:3" has duration 58030 while parseTime rejects it: getTotalDurationMs checks no digit count or sign |
| Sessions.PortionOfPlainText | stoperica/app/src/main/java/com/cifiko/stoperica/MainActivity.kt:1491 | A text with no space and no surrounding whitespace is its own time portion |
| Sessions.DurationOfText | stoperica/app/src/main/java/com/cifiko/stoperica/Session.kt:108-117 | getTotalDurationMs on the totalTime text: a value in the Long range; `DurationOfParts`, `DurationOfThreeParts` and `DurationOfWrongShape` state its value by case |
| SessionParcel.ReadListsAt | stoperica/app/src/main/java/com/cifiko/stoperica/Session.kt:44-49 | The counted loop yields exactly `count` lists and advances the cursor by at most `count`, by exactly `count` when the items are there |
| SessionParcel.ListItems | stoperica/app/src/main/java/com/cifiko/stoperica/Session.kt:73 | One string-list item per sectors list, in order, each holding that list |
| SessionParcel.Parcel.constructor | stoperica/app/src/main/java/com/cifiko/stoperica/Session.kt:58 | A fresh parcel to write into is empty, with the cursor at 0 |
| SessionParcel.Parcel.Received | stoperica/app/src/main/java/com/cifiko/stoperica/Session.kt:30 | A received parcel holds the given items, with the cursor at the start |
| SessionParcel.Parcel.WriteString | stoperica/app/src/main/java/com/cifiko/stoperica/Session.kt:59-70 | `writeString` appends one string item (null allowed) and leaves the cursor alone |
| SessionParcel.Parcel.WriteStringList | stoperica/app/src/main/java/com/cifiko/stoperica/Session.kt:71 | `writeStringList` appends one string-list item and leaves the cursor alone |
| SessionParcel.Parcel.WriteInt | stoperica/app/src/main/java/com/cifiko/stoperica/Session.kt:72 | `writeInt` appends one int item and leaves the cursor alone |
| SessionParcel.Parcel.WriteByte | stoperica/app/src/main/java/com/cifiko/stoperica/Session.kt:74 | `writeByte` appends one byte item and leaves the cursor alone |
| SessionParcel.Parcel.ReadString | stoperica/app/src/main/java/com/cifiko/stoperica/Session.kt:31-42 | `readString` returns the item at the cursor when it is a string, null otherwise, and advances past it; at the end it returns null and stays |
| SessionParcel.Parcel.CreateStringArrayList | stoperica/app/src/main/java/com/cifiko/stoperica/Session.kt:43 | `createStringArrayList` reads the string list at the cursor in the same way, null when there is none |
| SessionParcel.Parcel.ReadInt | stoperica/app/src/main/java/com/cifiko/stoperica/Session.kt:45 | `readInt` reads the int at the cursor, 0 when there is none |
| SessionParcel.Parcel.ReadByte | stoperica/app/src/main/java/com/cifiko/stoperica/Session.kt:50 | `readByte` reads the byte at the cursor, 0 when there is none |
| SessionParcel.WriteToParcel | stoperica/app/src/main/java/com/cifiko/stoperica/Session.kt:58-80 | writeToParcel appends exactly the session's encoding (twelve strings, the laps, the count, one list per lap of sectors, then the flags and the remaining strings) and does not move the cursor |
| SessionParcel.WriteHead | stoperica/app/src/main/java/com/cifiko/stoperica/Session.kt:59-72 | The writes before the sectors loop append the twelve strings, the laps list and the sectors count |
| SessionParcel.WriteTail | stoperica/app/src/main/java/com/cifiko/stoperica/Session.kt:74-79 | The writes after the loop append isLive as 1/0, liveSessionId, the speeds, isUploaded as 1/0 and uploadError |
| SessionParcel.CreateFromParcel | stoperica/app/src/main/java/com/cifiko/stoperica/Session.kt:30-56 | The parcel constructor leaves the items alone and reads the fields in the written order, with the `?: ""`, `?: emptyList()` and `?: "N/A"` fallbacks and `!= 0` for the flags |
| SessionParcel.ParcelRoundTrip | stoperica/app/src/main/java/com/cifiko/stoperica/Session.kt:30-80 | Wherever a written session sits in a parcel, reading from its start gives back the same session, nulls included, and leaves the cursor just past it |
| SessionParcel.HeadReads | stoperica/app/src/main/java/com/cifiko/stoperica/Session.kt:31-45 | Where the written head sits, the twelve string reads, the laps read and the count read give the session's fields in order, one item each |
| SessionParcel.TailReads | stoperica/app/src/main/java/com/cifiko/stoperica/Session.kt:50-55 | Where the written tail sits, the reads give back isLive, liveSessionId (null included), the speeds, isUploaded and uploadError |
| SessionParcel.WriteThenRead | stoperica/app/src/main/java/com/cifiko/stoperica/Session.kt:84-87 | Writing a session into a fresh parcel and creating one from it gives the same session |
| SessionParcel.ReadListsOf | stoperica/app/src/main/java/com/cifiko/stoperica/Session.kt:46-48 | The reader's loop consumes exactly the written sector lists and returns them |
| SessionParcel.Encode | stoperica/app/src/main/java/com/cifiko/stoperica/Session.kt:58-80 | The items writeToParcel appends, in order: `WriteToParcel` proves the class method appends exactly them, and `ParcelRoundTrip` that `DecodeAt` reads them back |
| SessionParcel.DecodeAt | stoperica/app/src/main/java/com/cifiko/stoperica/Session.kt:30-56 | The Parcel constructor's reads with their fallbacks: `ParcelRoundTrip` proves it returns the encoded session and the cursor just past it |
| SessionSummary.ValidLaps | stoperica/app/src/main/java/com/cifiko/stoperica/MainActivity.kt:691 | The readable laps: only laps parseTime accepts, each one of the laps, and none exactly when no lap is readable |
| SessionSummary.LapValues | stoperica/app/src/main/java/com/cifiko/stoperica/MainActivity.kt:710 | One value per readable lap, its parseTime |
| SessionSummary.MinOfValid | stoperica/app/src/main/java/com/cifiko/stoperica/MainActivity.kt:694 | `minByOrNull` over the readable laps lands on the first lap of the whole list with the least readable time |
| SessionSummary.MaxOfValid | stoperica/app/src/main/java/com/cifiko/stoperica/MainActivity.kt:702 | `maxByOrNull` over the readable laps lands on the first lap of the whole list with the greatest readable time |
| SessionSummary.IndexOfFirstExtreme | stoperica/app/src/main/java/com/cifiko/stoperica/MainActivity.kt:695 | `lapTimes.indexOf` of the first fastest or slowest lap is that lap's own position, so the lap number is right |
| SessionSummary.FastestLapSpec | stoperica/app/src/main/java/com/cifiko/stoperica/MainActivity.kt:693-699 | fastestLap is "N/A" exactly when no lap is readable; otherwise it is the 1-based number of the first lap with the least time, ": " and that lap's text after its label |
| SessionSummary.SlowestLapSpec | stoperica/app/src/main/java/com/cifiko/stoperica/MainActivity.kt:701-707 | slowestLap is "N/A" exactly when no lap is readable; otherwise the number and text of the first lap with the greatest time |
| SessionSummary.AverageBetween | stoperica/app/src/main/java/com/cifiko/stoperica/MainActivity.kt:709-714 | The truncated mean of the readable laps lies between the fastest and the slowest of them |
| SessionSummary.AverageOfEqualLaps | stoperica/app/src/main/java/com/cifiko/stoperica/MainActivity.kt:710 | When every readable lap took the same time, the mean is that time |
| SessionSummary.NumberedLap | stoperica/app/src/main/java/com/cifiko/stoperica/MainActivity.kt:695-696 | The lap number from `indexOf(lap) + 1` and the text after the last ": "; `IndexOfFirstExtreme` proves the number is the picked lap's own position |
| SessionSummary.FastestLap | stoperica/app/src/main/java/com/cifiko/stoperica/MainActivity.kt:693-699 | The fastestLap text: `FastestLapSpec` proves "N/A" exactly when no lap is readable, otherwise the number and time of the first lap with the least parseTime |
| SessionSummary.SlowestLap | stoperica/app/src/main/java/com/cifiko/stoperica/MainActivity.kt:701-707 | The slowestLap text: `SlowestLapSpec` proves "N/A" exactly when no lap is readable, otherwise the number and time of the first lap with the greatest parseTime |
| SessionSummary.AverageLap | stoperica/app/src/main/java/com/cifiko/stoperica/MainActivity.kt:709-714 | The averageLap text: "N/A" with no readable lap, otherwise formatTime of the truncated mean, which `AverageBetween` bounds by the fastest and slowest times |
| SessionSummary.Consistency | stoperica/app/src/main/java/com/cifiko/stoperica/MainActivity.kt:1509-1510 | calculateConsistency of the readable laps: "N/A" for fewer than two; the floating-point percentage is supplied |
| SessionSummary.Speeds | stoperica/app/src/main/java/com/cifiko/stoperica/MainActivity.kt:1529-1531 | calculateSpeedMetrics: the "N/A" pair for a run without laps; the floating-point speeds are supplied |
| SessionSummary.AlreadySaved | stoperica/app/src/main/java/com/cifiko/stoperica/MainActivity.kt:679-685 | The duplicate guard `sessions.find { laps and sectors equal } != null`; `SaveSessionIdempotent` proves a second save finds the first |
| SessionSummary.SummarySession | stoperica/app/src/main/java/com/cifiko/stoperica/MainActivity.kt:721-738 | The Session saveSession builds from the lap data and the outside context; `SaveSessionSpec` proves it is, field for field, the session appended |
| StopwatchSpec.Best | stoperica/app/src/main/java/com/cifiko/stoperica/MainActivity.kt:546-549 | bestLapTime after a run of laps is Long.MAX_VALUE with none, otherwise one of the laps and no greater than any |
| StopwatchSpec.Worst | stoperica/app/src/main/java/com/cifiko/stoperica/MainActivity.kt:550-552 | worstLapTime after a run of laps is Long.MIN_VALUE with none, otherwise one of the laps and no less than any |
| StopwatchSpec.LapTexts | stoperica/app/src/main/java/com/cifiko/stoperica/MainActivity.kt:555-556 | One lap text per lap duration |
| StopwatchSpec.LapTextAt | stoperica/app/src/main/java/com/cifiko/stoperica/MainActivity.kt:555 | Lap text i is numbered i + 1 and shows formatTime of duration i |
| StopwatchSpec.InitialValid | stoperica/app/src/main/java/com/cifiko/stoperica/MainActivity.kt:72-88 | The declared field values satisfy the stopwatch invariant: lap texts, sectors lists and lap count agree, best and worst match the laps, and a stopped watch is cleared |
| StopwatchSpec.AddLapValid | stoperica/app/src/main/java/com/cifiko/stoperica/MainActivity.kt:542-571 | addLap keeps the invariant |
| StopwatchSpec.AddLapRecords | stoperica/app/src/main/java/com/cifiko/stoperica/MainActivity.kt:546-556 | A lap appends its duration's text and updates best and worst from that duration |
| StopwatchSpec.AddSectorValid | stoperica/app/src/main/java/com/cifiko/stoperica/MainActivity.kt:573-584 | addSector keeps the invariant |
| StopwatchSpec.SaveSessionValid | stoperica/app/src/main/java/com/cifiko/stoperica/MainActivity.kt:672-749 | saveSession keeps the invariant |
| StopwatchSpec.AppendSessionValid | stoperica/app/src/main/java/com/cifiko/stoperica/MainActivity.kt:744 | Appending the new session keeps the invariant |
| StopwatchSpec.ResetValid | stoperica/app/src/main/java/com/cifiko/stoperica/MainActivity.kt:324-352 | resetStopwatchCompletely keeps the invariant |
| StopwatchSpec.ClickStartStopValid | stoperica/app/src/main/java/com/cifiko/stoperica/MainActivity.kt:258-273 | The start/stop click keeps the invariant |
| StopwatchSpec.ClickLapValid | stoperica/app/src/main/java/com/cifiko/stoperica/MainActivity.kt:284-291 | The lap click keeps the invariant |
| StopwatchSpec.ClickSectorValid | stoperica/app/src/main/java/com/cifiko/stoperica/MainActivity.kt:293-300 | The sector click keeps the invariant |
| StopwatchSpec.ClickResetValid | stoperica/app/src/main/java/com/cifiko/stoperica/MainActivity.kt:275-282 | The reset click, whatever the dialog answer, keeps the invariant |
| StopwatchSpec.StepValid | stoperica/app/src/main/java/com/cifiko/stoperica/MainActivity.kt:254-301 | Every user event or broadcast keeps the invariant |
| StopwatchSpec.ResetClickedValid | stoperica/app/src/main/java/com/cifiko/stoperica/MainActivity.kt:307-322 | The reset dialog's three answers keep the invariant |
| StopwatchSpec.ReceivedValid | stoperica/app/src/main/java/com/cifiko/stoperica/MainActivity.kt:109-121 | A received broadcast keeps the invariant |
| StopwatchSpec.RunValid | stoperica/app/src/main/java/com/cifiko/stoperica/MainActivity.kt:72-88 | From the initial fields, any sequence of events keeps the invariant; the sectors list and the lap list both have lapCount entries |
| StopwatchSpec.LapAndSectorNeedRunning | stoperica/app/src/main/java/com/cifiko/stoperica/MainActivity.kt:543 | addLap and addSector change nothing unless the watch runs and is not paused |
| StopwatchSpec.AddLapEffect | stoperica/app/src/main/java/com/cifiko/stoperica/MainActivity.kt:542-571 | A lap adds one lap and files the buffered sectors (possibly none) as that lap's sectors, so lap k's sectors are at index k; the buffer and its counter are cleared and both anchors restart at now |
| StopwatchSpec.LapReadsBack | stoperica/app/src/main/java/com/cifiko/stoperica/MainActivity.kt:555 | In any valid state, parseTime reads lap i back as its duration modulo one hour, truncated to centiseconds (label ending in ": ", duration not negative) |
| StopwatchSpec.BestAndWorst | stoperica/app/src/main/java/com/cifiko/stoperica/MainActivity.kt:546-552 | bestLapTime and worstLapTime are the least and greatest lap duration since the last stop or reset, and the sentinels when there is none |
| StopwatchSpec.ResetClears | stoperica/app/src/main/java/com/cifiko/stoperica/MainActivity.kt:324-345 | The complete reset stops the watch and leaves no laps, no sectors, zero counters and the sentinels, and keeps the sessions |
| StopwatchSpec.TransitionGuards | stoperica/app/src/main/java/com/cifiko/stoperica/MainActivity.kt:438-521 | Start only from stopped, pause only from running, resume only from paused, stop only from running; from any other state each changes nothing |
| StopwatchSpec.StartStopCycle | stoperica/app/src/main/java/com/cifiko/stoperica/MainActivity.kt:258-273 | The start/stop button cycles start, pause, resume and never stops the watch; a click within 500 ms of the last accepted start/stop or lap click changes nothing |
| StopwatchSpec.SharedDebounce | stoperica/app/src/main/java/com/cifiko/stoperica/MainActivity.kt:261-289 | Start/stop and lap clicks share one stamp: within 500 ms after an accepted one, the other is ignored |
| StopwatchSpec.SectorDebounce | stoperica/app/src/main/java/com/cifiko/stoperica/MainActivity.kt:293-300 | A sector click within 300 ms of the last accepted one is ignored; an accepted one is stamped |
| StopwatchSpec.ResumeContinues | stoperica/app/src/main/java/com/cifiko/stoperica/MainActivity.kt:477-487 | On resume the total, lap and sector times continue from the values shown at the pause (clock readings without overflow) |
| StopwatchSpec.SaveSessionSpec | stoperica/app/src/main/java/com/cifiko/stoperica/MainActivity.kt:672-749 | Nothing is saved without laps or when a stored session has the same laps and sectors; otherwise exactly one session is appended, with the laps, the completed laps' sectors, the numbered name and the fastest, slowest and average texts; the appended session is exactly `SummarySession` of the context, the numbered name, the laps and the sectors |
| StopwatchSpec.SaveSessionIdempotent | stoperica/app/src/main/java/com/cifiko/stoperica/MainActivity.kt:679-685 | Saving twice stores one session: the second save finds the first |
| StopwatchSpec.SectorBroadcastIgnored | stoperica/app/src/main/java/com/cifiko/stoperica/MainActivity.kt:371-385 | A SECTOR broadcast changes nothing: no receiver listens for it |
| StopwatchSpec.Valid | stoperica/app/src/main/java/com/cifiko/stoperica/MainActivity.kt:72-88 | The invariant of the activity's fields: `InitialValid` proves it of the declared initial values and `RunValid` after every sequence of events |
| StopwatchSpec.Start | stoperica/app/src/main/java/com/cifiko/stoperica/MainActivity.kt:438-466 | startStopwatch: `TransitionGuards` proves it acts only when not running and leaves the watch running and not paused |
| StopwatchSpec.Pause | stoperica/app/src/main/java/com/cifiko/stoperica/MainActivity.kt:468-475 | pauseStopwatch: `TransitionGuards` proves it acts only while running and not paused, and leaves the watch paused |
| StopwatchSpec.Resume | stoperica/app/src/main/java/com/cifiko/stoperica/MainActivity.kt:477-487 | resumeStopwatch: `TransitionGuards` proves it acts only while paused; `ResumeContinues` that the elapsed times are unchanged by the pause |
| StopwatchSpec.Stop | stoperica/app/src/main/java/com/cifiko/stoperica/MainActivity.kt:489-521 | stopStopwatch: `TransitionGuards` proves it acts only while running and leaves the watch stopped |
| StopwatchSpec.ResetCompletely | stoperica/app/src/main/java/com/cifiko/stoperica/MainActivity.kt:324-352 | resetStopwatchCompletely: `ResetClears` proves it clears everything except the saved sessions, and `ResetValid` that it keeps the invariant |
| StopwatchSpec.AddLap | stoperica/app/src/main/java/com/cifiko/stoperica/MainActivity.kt:542-571 | addLap: `AddLapEffect` and `AddLapRecords` give its whole effect, `LapAndSectorNeedRunning` its guard, `AddLapValid` that it keeps the invariant |
| StopwatchSpec.AddSector | stoperica/app/src/main/java/com/cifiko/stoperica/MainActivity.kt:573-584 | addSector: `LapAndSectorNeedRunning` gives its guard and `AddSectorValid` proves it keeps the invariant |
| StopwatchSpec.FlushSector | stoperica/app/src/main/java/com/cifiko/stoperica/MainActivity.kt:687-689 | saveSession's recording of a sector under way; `SaveSessionSpec` states the buffers it leaves |
| StopwatchSpec.AppendSession | stoperica/app/src/main/java/com/cifiko/stoperica/MainActivity.kt:721-744 | The append of the built session under the next session number; `AppendSessionValid` proves it keeps the invariant |
| StopwatchSpec.SaveSession | stoperica/app/src/main/java/com/cifiko/stoperica/MainActivity.kt:672-749 | saveSession: `SaveSessionSpec` proves the empty and duplicate guards and the exact session appended; `SaveSessionIdempotent` that a second save changes nothing |
| StopwatchSpec.ClickStartStop | stoperica/app/src/main/java/com/cifiko/stoperica/MainActivity.kt:258-273 | The start/stop button: `StartStopCycle` and `SharedDebounce` prove its cycle and its 500 ms debounce; `ClickStartStopValid` that it keeps the invariant |
| StopwatchSpec.ClickLap | stoperica/app/src/main/java/com/cifiko/stoperica/MainActivity.kt:284-291 | The lap button: `SharedDebounce` proves its shared 500 ms debounce; `ClickLapValid` that it keeps the invariant |
| StopwatchSpec.ClickSector | stoperica/app/src/main/java/com/cifiko/stoperica/MainActivity.kt:293-300 | The sector button: `SectorDebounce` proves its 300 ms debounce; `ClickSectorValid` that it keeps the invariant |
| StopwatchSpec.ClickReset | stoperica/app/src/main/java/com/cifiko/stoperica/MainActivity.kt:275-322 | The reset button and its dialog: `ClickResetValid` and `ResetClickedValid` prove every answer keeps the invariant |
| StopwatchSpec.Receive | stoperica/app/src/main/java/com/cifiko/stoperica/MainActivity.kt:109-121 | The START_LAP and LAP receivers: `ReceivedValid` proves they keep the invariant, `SectorBroadcastIgnored` that SECTOR changes nothing |
| StopwatchSpec.Step | stoperica/app/src/main/java/com/cifiko/stoperica/MainActivity.kt:254-322 | One user or broadcast event dispatched to its handler; `StepValid` proves every event keeps the invariant |
| StopwatchSpec.Run | stoperica/app/src/main/java/com/cifiko/stoperica/MainActivity.kt:254-322 | The state after a sequence of events; `RunValid` proves the invariant holds after any sequence from the initial state |
| Stopwatch.MainActivity.constructor | stoperica/app/src/main/java/com/cifiko/stoperica/MainActivity.kt:72-88 | The fields start at their declared values, with the loaded sessions, and satisfy the invariant |
| Stopwatch.MainActivity.StartStopwatch | stoperica/app/src/main/java/com/cifiko/stoperica/MainActivity.kt:438-466 | The new fields are those of `StopwatchSpec.Start` |
| Stopwatch.MainActivity.PauseStopwatch | stoperica/app/src/main/java/com/cifiko/stoperica/MainActivity.kt:468-475 | The new fields are those of `StopwatchSpec.Pause` |
| Stopwatch.MainActivity.ResumeStopwatch | stoperica/app/src/main/java/com/cifiko/stoperica/MainActivity.kt:477-487 | The new fields are those of `StopwatchSpec.Resume` |
| Stopwatch.MainActivity.ShiftAnchors | stoperica/app/src/main/java/com/cifiko/stoperica/MainActivity.kt:481-483 | The three anchors each move by the pause duration in Long arithmetic |
| Stopwatch.MainActivity.StopStopwatch | stoperica/app/src/main/java/com/cifiko/stoperica/MainActivity.kt:489-521 | The new fields are those of `StopwatchSpec.Stop` |
| Stopwatch.MainActivity.Clear | stoperica/app/src/main/java/com/cifiko/stoperica/MainActivity.kt:501-514 | The anchors, best and worst, counters and lists are back at their initial values |
| Stopwatch.MainActivity.ClearTimes | stoperica/app/src/main/java/com/cifiko/stoperica/MainActivity.kt:331-338 | The four anchors are 0, best is Long.MAX_VALUE and worst Long.MIN_VALUE |
| Stopwatch.MainActivity.ClearLaps | stoperica/app/src/main/java/com/cifiko/stoperica/MainActivity.kt:339-345 | The counters are 0 and the lap, sector and buffer lists are empty |
| Stopwatch.MainActivity.ResetStopwatchCompletely | stoperica/app/src/main/java/com/cifiko/stoperica/MainActivity.kt:324-352 | The new fields are those of `StopwatchSpec.ResetCompletely` |
| Stopwatch.MainActivity.AddLap | stoperica/app/src/main/java/com/cifiko/stoperica/MainActivity.kt:542-571 | The new fields are those of `StopwatchSpec.AddLap` |
| Stopwatch.MainActivity.RecordLap | stoperica/app/src/main/java/com/cifiko/stoperica/MainActivity.kt:546-556 | best and worst follow the lap time, the counter grows by one and the numbered lap text is appended |
| Stopwatch.MainActivity.StartNextLap | stoperica/app/src/main/java/com/cifiko/stoperica/MainActivity.kt:558-567 | The buffered sectors are appended as one list, the buffer is emptied and both anchors restart at now |
| Stopwatch.MainActivity.AddSector | stoperica/app/src/main/java/com/cifiko/stoperica/MainActivity.kt:573-584 | The new fields are those of `StopwatchSpec.AddSector` |
| Stopwatch.MainActivity.RecordSector | stoperica/app/src/main/java/com/cifiko/stoperica/MainActivity.kt:576-580 | The counter grows by one, the numbered sector text joins the buffer and the sector anchor is now |
| Stopwatch.MainActivity.SaveSession | stoperica/app/src/main/java/com/cifiko/stoperica/MainActivity.kt:672-749 | The new fields are those of `StopwatchSpec.SaveSession` |
| Stopwatch.MainActivity.FlushSector | stoperica/app/src/main/java/com/cifiko/stoperica/MainActivity.kt:687-689 | The new fields are those of `StopwatchSpec.FlushSector` |
| Stopwatch.MainActivity.AppendSession | stoperica/app/src/main/java/com/cifiko/stoperica/MainActivity.kt:721-744 | The new fields are those of `StopwatchSpec.AppendSession` |
| Stopwatch.MainActivity.ClickStartStop | stoperica/app/src/main/java/com/cifiko/stoperica/MainActivity.kt:258-273 | The new fields are those of `StopwatchSpec.ClickStartStop`, and the invariant holds |
| Stopwatch.MainActivity.ClickLap | stoperica/app/src/main/java/com/cifiko/stoperica/MainActivity.kt:284-291 | The new fields are those of `StopwatchSpec.ClickLap`, and the invariant holds |
| Stopwatch.MainActivity.ClickSector | stoperica/app/src/main/java/com/cifiko/stoperica/MainActivity.kt:293-300 | The new fields are those of `StopwatchSpec.ClickSector`, and the invariant holds |
| Stopwatch.MainActivity.ClickReset | stoperica/app/src/main/java/com/cifiko/stoperica/MainActivity.kt:275-322 | The new fields are those of `StopwatchSpec.ClickReset` for the dialog's answer, and the invariant holds |
| Stopwatch.MainActivity.Receive | stoperica/app/src/main/java/com/cifiko/stoperica/MainActivity.kt:109-121 | The new fields are those of `StopwatchSpec.Receive`: START_LAP clicks start/stop, LAP clicks lap, and the invariant holds |
| LiveSessions.Find | stoperica/app/src/main/java/com/cifiko/stoperica/LiveSession.kt:45-62 | `snapshot.child(key)` on a node without that key is an empty node |
| LiveSessions.FindAt | stoperica/app/src/main/java/com/cifiko/stoperica/LiveSession.kt:45-62 | `snapshot.child(key)` finds the entry stored under that key |
| LiveSessions.Texts | stoperica/app/src/main/java/com/cifiko/stoperica/LiveSession.kt:73 | `mapNotNull { getValue(String) }` keeps at most one string per child |
| LiveSessions.TextsAll | stoperica/app/src/main/java/com/cifiko/stoperica/LiveSession.kt:73 | When every child holds a string, all of them are kept, in order |
| LiveSessions.StringListReadsBack | stoperica/app/src/main/java/com/cifiko/stoperica/LiveSession.kt:72-74 | A string list written as a database list (laps) reads back as itself |
| LiveSessions.Associate | stoperica/app/src/main/java/com/cifiko/stoperica/LiveSession.kt:66-70 | `associate` has exactly one entry per child key |
| LiveSessions.AssociateLast | stoperica/app/src/main/java/com/cifiko/stoperica/LiveSession.kt:67-69 | A key maps to the value of its last child, or "" when that child holds no string |
| LiveSessions.ParticipantsReadBack | stoperica/app/src/main/java/com/cifiko/stoperica/LiveSession.kt:66-70 | The participants map, written in any key order, reads back as itself |
| LiveSessions.LapEntries | stoperica/app/src/main/java/com/cifiko/stoperica/LiveSession.kt:103-111 | At most one entry per lap: laps without sectors are dropped |
| LiveSessions.LapEntriesEmpty | stoperica/app/src/main/java/com/cifiko/stoperica/LiveSession.kt:100-111 | No lap entry is written exactly when every lap's sector list is empty |
| LiveSessions.MarkerIffNoSectors | stoperica/app/src/main/java/com/cifiko/stoperica/LiveSession.kt:100-101 | toFirebaseFormat writes the `{"empty": true}` marker exactly when no lap has a sector, an empty list included |
| LiveSessions.LapEntryKeys | stoperica/app/src/main/java/com/cifiko/stoperica/LiveSession.kt:103-111 | Entry k is keyed by the decimal index of a lap with sectors, holds that lap's sectors keyed 0, 1, …, and the lap indexes grow |
| LiveSessions.Blank | stoperica/app/src/main/java/com/cifiko/stoperica/LiveSession.kt:80 | `repeat(lapCount)` leaves lapCount empty lists |
| LiveSessions.ApplyLap | stoperica/app/src/main/java/com/cifiko/stoperica/LiveSession.kt:84-91 | One lap entry keeps lapCount lists: keys that are not Ints or not below lapCount are skipped, and a negative key with a string child fails |
| LiveSessions.SectorsOf | stoperica/app/src/main/java/com/cifiko/stoperica/LiveSession.kt:83-92 | The fold over the lap entries, when it succeeds, has lapCount lists |
| LiveSessions.SectorsOfFailed | stoperica/app/src/main/java/com/cifiko/stoperica/LiveSession.kt:88 | Once an entry has failed (negative index), the whole read fails |
| LiveSessions.ParseSectors | stoperica/app/src/main/java/com/cifiko/stoperica/LiveSession.kt:76-95 | The in-place parseSectors returns the fold's result, lapCount lists when it succeeds |
| LiveSessions.ReadLapEntry | stoperica/app/src/main/java/com/cifiko/stoperica/LiveSession.kt:84-91 | The inner forEach appends the entry's string children to that lap's list, one by one, as the fold says |
| LiveSessions.SectorsReadBack | stoperica/app/src/main/java/com/cifiko/stoperica/LiveSession.kt:99-113 | Round trip: sectors written by toFirebaseFormat read back as the first lapCount laps, padded with empty lists; `SectorsReadBackExactly` gives the lists themselves when lapCount is their number |
| LiveSessions.LapEntriesReadBack | stoperica/app/src/main/java/com/cifiko/stoperica/LiveSession.kt:83-92 | The entries written for a prefix of the laps read back as that prefix, fitted to lapCount |
| LiveSessions.WrittenLapReadBack | stoperica/app/src/main/java/com/cifiko/stoperica/LiveSession.kt:84-91 | The entry written for lap k - 1 fills exactly that lap's list |
| LiveSessions.SectorsCount | stoperica/app/src/main/java/com/cifiko/stoperica/LiveSession.kt:80 | parseSectors never returns other than lapCount lists |
| LiveSessions.SkippedKeys | stoperica/app/src/main/java/com/cifiko/stoperica/LiveSession.kt:84-85 | Keys that are not Int numbers, such as "empty", and keys from lapCount on change nothing |
| LiveSessions.EmptySnapshotDefaults | stoperica/app/src/main/java/com/cifiko/stoperica/LiveSession.kt:48-63 | An empty snapshot reads as the listed defaults ("Live Session", active, "Unknown Location", "N/A", "00:00:00", the clock), with no laps and no sectors |
| LiveSessions.SectorsPerLap | stoperica/app/src/main/java/com/cifiko/stoperica/LiveSession.kt:45-46 | A session read from a snapshot has one sectors list per lap |
| LiveSessions.SessionReadsBack | stoperica/app/src/main/java/com/cifiko/stoperica/LiveSession.kt:24-64 | What toMap writes, fromSnapshot reads back: every field, with the sectors cut or padded to the number of laps |
| LiveSessions.ReadsFields | stoperica/app/src/main/java/com/cifiko/stoperica/LiveSession.kt:44-64 | A snapshot whose children hold a session's fields reads back as that session |
| LiveSessions.ToMapChildren | stoperica/app/src/main/java/com/cifiko/stoperica/LiveSession.kt:24-41 | Each field written by toMap is found under its own key |
| LiveSessions.ActiveSessions | stoperica/app/src/main/java/com/cifiko/stoperica/MainActivity.kt:830-836 | The filter at MainActivity.kt:830-836 keeps only readable sessions that are active and stamped less than 30 000 ms before now; `ActiveSessionsComplete` proves it keeps every such session, and `ActiveSessionsAppend` that it keeps them in the children's order (the later sort by createdAt is not modelled) |
| LiveSessions.Offer | stoperica/app/src/main/java/com/cifiko/stoperica/MainActivity.kt:832-835 | One child's contribution: at most one session, and only an active one stamped less than 30 000 ms before now |
| LiveSessions.OffersFresh | stoperica/app/src/main/java/com/cifiko/stoperica/MainActivity.kt:830-836 | The loop adds at most one session per child, and each one added is active and fresh |
| LiveSessions.OffersAppend | stoperica/app/src/main/java/com/cifiko/stoperica/MainActivity.kt:830 | The forEach concatenates the children's contributions in order: the result for two runs of children is the two results concatenated |
| LiveSessions.ActiveSessionsAt | stoperica/app/src/main/java/com/cifiko/stoperica/MainActivity.kt:830-836 | The offer is the offer before child j, then child j's own contribution, then the offer after it |
| LiveSessions.ToFirebaseFormat | stoperica/app/src/main/java/com/cifiko/stoperica/LiveSession.kt:99-113 | toFirebaseFormat: `MarkerIffNoSectors` proves the "empty" marker is written exactly when no lap has a sector; `SectorsReadBack` that parseSectors reads it back |
| LiveSessions.ParseStringList | stoperica/app/src/main/java/com/cifiko/stoperica/LiveSession.kt:72-74 | parseStringList: `StringListReadsBack` proves a written list reads back as itself |
| LiveSessions.ParseParticipants | stoperica/app/src/main/java/com/cifiko/stoperica/LiveSession.kt:66-70 | parseParticipants: `AssociateLast` gives its value per key, `ParticipantsReadBack` that a written map reads back whatever the key order |
| LiveSessions.ToMap | stoperica/app/src/main/java/com/cifiko/stoperica/LiveSession.kt:24-41 | toMap: `ToMapChildren` proves each field is stored under its own key |
| LiveSessions.FromSnapshot | stoperica/app/src/main/java/com/cifiko/stoperica/LiveSession.kt:44-64 | fromSnapshot: `EmptySnapshotDefaults` gives the defaults, `SectorsPerLap` one sector list per lap, `SessionReadsBack` that toMap then fromSnapshot gives the session back |
| LiveSessions.SectorsReadBackExactly | stoperica/app/src/main/java/com/cifiko/stoperica/LiveSession.kt:99-113 | Sectors written by toFirebaseFormat and read with lapCount equal to their number come back unchanged |
| LiveSessions.ActiveSessionsAppend | stoperica/app/src/main/java/com/cifiko/stoperica/MainActivity.kt:830-836 | The filter at MainActivity.kt:830-836 works child by child: its result for two runs of children is the two results concatenated, so it keeps the children's relative order |
| LiveSessions.ActiveSessionsOne | stoperica/app/src/main/java/com/cifiko/stoperica/MainActivity.kt:830-836 | A single child is offered exactly when fromSnapshot reads it and it is active and stamped less than 30 000 ms before now |
| LiveSessions.ActiveSessionsComplete | stoperica/app/src/main/java/com/cifiko/stoperica/MainActivity.kt:830-836 | Every child that reads, is active and is fresh is offered |
| Proximity.SectorEvents | stoperica/app/src/main/java/com/cifiko/stoperica/MapActivity.kt:184-197 | At most one SECTOR per sector marker, and nothing else |
| Proximity.SectorEventsSound | stoperica/app/src/main/java/com/cifiko/stoperica/MapActivity.kt:184-197 | Every SECTOR sent is the intent of a sector marker near the fix |
| Proximity.SectorEventsComplete | stoperica/app/src/main/java/com/cifiko/stoperica/MapActivity.kt:184-197 | Every sector marker near the fix sends its SECTOR |
| Proximity.SectorEventsEmpty | stoperica/app/src/main/java/com/cifiko/stoperica/MapActivity.kt:184-197 | No SECTOR is sent exactly when no sector marker is near the fix |
| Proximity.CheckFiresIff | stoperica/app/src/main/java/com/cifiko/stoperica/MapActivity.kt:159-198 | A check sends something exactly when at least 5000 ms have passed and some marker is near; lastTriggerTime becomes now exactly when it sends |
| Proximity.CooldownSuppresses | stoperica/app/src/main/java/com/cifiko/stoperica/MapActivity.kt:163 | Within 5000 ms of the last trigger nothing is sent and nothing changes |
| Proximity.StartThenLap | stoperica/app/src/main/java/com/cifiko/stoperica/MapActivity.kt:165-182 | Near the start marker, the first hit sends START_LAP and sets the flag, later hits send LAP, and the start intent comes before any SECTOR |
| Proximity.NoMarkersNoEvents | stoperica/app/src/main/java/com/cifiko/stoperica/LocationTrackingService.kt:150-153 | With no marker configured nothing is ever sent and the fields never change |
| Proximity.StartLapOnce | stoperica/app/src/main/java/com/cifiko/stoperica/MapActivity.kt:173-176 | Over any run of fixes the flag never goes down, and START_LAP is sent once if the flag goes up and never otherwise |
| Proximity.CheckStartLap | stoperica/app/src/main/java/com/cifiko/stoperica/MapActivity.kt:171-176 | One check sends START_LAP exactly when it raises the flag |
| Proximity.MapActivity.constructor | stoperica/app/src/main/java/com/cifiko/stoperica/MapActivity.kt:51-56 | The markers come from the saved state or the preferences, the path is empty and the trigger fields are 0 and false |
| Proximity.MapActivity.OnMapClick | stoperica/app/src/main/java/com/cifiko/stoperica/MapActivity.kt:102-127 | The first click places the start marker; every later click appends a sector marker and leaves the start marker |
| Proximity.MapActivity.ResetMarkers | stoperica/app/src/main/java/com/cifiko/stoperica/MapActivity.kt:271-282 | Markers and path are cleared; lastTriggerTime and the START_LAP flag are kept |
| Proximity.MapActivity.CheckProximityToMarkers | stoperica/app/src/main/java/com/cifiko/stoperica/MapActivity.kt:159-198 | The broadcasts and the new trigger fields are those of `Proximity.Check` with numbered SECTORs |
| Proximity.MapActivity.CheckSectorMarkers | stoperica/app/src/main/java/com/cifiko/stoperica/MapActivity.kt:184-197 | The loop sends `Proximity.SectorEvents` and sets lastTriggerTime to now exactly when it sent something |
| Proximity.MapActivity.OnLocationResult | stoperica/app/src/main/java/com/cifiko/stoperica/MapActivity.kt:132-143 | Every fix appends its position to the path, and the broadcasts and fields are those of checking the fixes in order |
| Proximity.TrackedMarkers.constructor | stoperica/app/src/main/java/com/cifiko/stoperica/LocationTrackingService.kt:150-153 | The companion's markers start as null and an empty list |
| Proximity.LocationTrackingService.constructor | stoperica/app/src/main/java/com/cifiko/stoperica/LocationTrackingService.kt:30-31 | The trigger fields start at 0 and false |
| Proximity.LocationTrackingService.CheckProximityToMarkers | stoperica/app/src/main/java/com/cifiko/stoperica/LocationTrackingService.kt:109-143 | The broadcasts and the new trigger fields are those of `Proximity.Check` on the companion's markers, with SECTORs carrying no number |
| Proximity.LocationTrackingService.CheckSectorMarkers | stoperica/app/src/main/java/com/cifiko/stoperica/LocationTrackingService.kt:132-142 | The loop sends `Proximity.SectorEvents` without numbers and sets lastTriggerTime to now exactly when it sent something |
| Proximity.LocationTrackingService.OnLocationResult | stoperica/app/src/main/java/com/cifiko/stoperica/LocationTrackingService.kt:94-100 | The broadcasts and fields are those of checking the fixes in order |
| Proximity.Check | stoperica/app/src/main/java/com/cifiko/stoperica/MapActivity.kt:159-198 | checkProximityToMarkers: `CheckFiresIff` proves it fires exactly past the cooldown with a marker in range, `StartThenLap` the order of its events |
| Proximity.Run | stoperica/app/src/main/java/com/cifiko/stoperica/MapActivity.kt:132-143 | The checks of a sequence of fixes; `StartLapOnce` proves START_LAP is sent exactly once when the flag goes up during the run and never otherwise; `NoMarkersNoEvents` that no markers mean no events |
| Analytics.Fastest | stoperica/app/src/main/java/com/cifiko/stoperica/AnalyticsActivity.kt:145 | `minByOrNull { parseTime(it.fastestLap) }` is a session of the list with the least key, and no earlier session has that key |
| Analytics.Slowest | stoperica/app/src/main/java/com/cifiko/stoperica/AnalyticsActivity.kt:148 | `maxByOrNull { parseTime(it.slowestLap) }` is a session of the list with the greatest key, and no earlier session has that key |
| Analytics.Recompute | stoperica/app/src/main/java/com/cifiko/stoperica/AnalyticsActivity.kt:142-150 | On a non-empty list both picks are set to sessions of the list; an empty list keeps the previous picks |
| Analytics.UnreadableFastest | stoperica/app/src/main/java/com/cifiko/stoperica/AnalyticsActivity.kt:145 | A session whose fastest lap is unreadable ("N/A") is picked as fastest only when no session's fastest lap is readable |
| Analytics.UnreadableSlowest | stoperica/app/src/main/java/com/cifiko/stoperica/AnalyticsActivity.kt:148 | When some slowest lap is unreadable, the first such session is picked as slowest (Long.MAX_VALUE beats every real time) |
| Analytics.DeleteSession | stoperica/app/src/main/java/com/cifiko/stoperica/AnalyticsActivity.kt:178 | `localSessions - session` removes the first equal session, one copy, and nothing else; an absent session changes nothing |
| Analytics.DeleteLastKeepsPicks | stoperica/app/src/main/java/com/cifiko/stoperica/AnalyticsActivity.kt:142-150 | Deleting the only session leaves both picks showing the deleted session |
| Analytics.RenameSession | stoperica/app/src/main/java/com/cifiko/stoperica/AnalyticsActivity.kt:221-225 | Save keeps length and ids, replaces every session with the selected id by `selected.copy(name = newName)` (all other fields from the selected session, not from the entry replaced), and leaves the others alone |
| Analytics.RenameIdempotent | stoperica/app/src/main/java/com/cifiko/stoperica/AnalyticsActivity.kt:221-225 | Saving the same name twice changes nothing the second time |
| Analytics.RenameUnknownId | stoperica/app/src/main/java/com/cifiko/stoperica/AnalyticsActivity.kt:223-225 | With no session carrying the selected id, Save changes nothing |
| Compare.Toggle | stoperica/app/src/main/java/com/cifiko/stoperica/CompareActivity.kt:145-153 | A selected session is deselected: the selection minus that session's first copy, the others kept in order; an unselected one is appended when fewer than two are selected, and otherwise the tap is ignored |
| Compare.ToggleKeepsValid | stoperica/app/src/main/java/com/cifiko/stoperica/CompareActivity.kt:145-153 | Every tap keeps at most two distinct sessions selected, and a deselected session is gone |
| Compare.ToggleTwice | stoperica/app/src/main/java/com/cifiko/stoperica/CompareActivity.kt:145-153 | Selecting a session and tapping it again restores the selection |
| Compare.Shown | stoperica/app/src/main/java/com/cifiko/stoperica/CompareActivity.kt:183-289 | The side-by-side view appears exactly when two are selected, showing them in selection order; the hint appears exactly when some other non-zero number is selected |
| Compare.SideBySideDistinct | stoperica/app/src/main/java/com/cifiko/stoperica/CompareActivity.kt:183 | The side-by-side view always compares two different sessions |
| Compare.IndexOfId | stoperica/app/src/main/java/com/cifiko/stoperica/CompareActivity.kt:55 | `indexOfFirst { it.id == id }` is the first position with that id, or -1 exactly when none has it |
| Compare.UpdateFirst | stoperica/app/src/main/java/com/cifiko/stoperica/CompareActivity.kt:55-57 | Updating keeps the length of the list |
| Compare.UpdateFirstSpec | stoperica/app/src/main/java/com/cifiko/stoperica/CompareActivity.kt:55-57 | Only the first position with the update's id changes, to the update; with no match nothing changes; updating again changes nothing |
| Compare.CompareActivity.constructor | stoperica/app/src/main/java/com/cifiko/stoperica/CompareActivity.kt:30-35 | The activity's list is the one received in the intent |
| Compare.CompareActivity.OnDeleteSession | stoperica/app/src/main/java/com/cifiko/stoperica/CompareActivity.kt:40-42 | `sessions.remove(session)` removes the first equal session in place: one copy fewer, or no change when absent |
| Compare.CompareActivity.Position | stoperica/app/src/main/java/com/cifiko/stoperica/CompareActivity.kt:42 | The scan `remove` makes returns the first position holding the session, or -1 exactly when it is absent |
| Compare.CompareActivity.OnUpdateSession | stoperica/app/src/main/java/com/cifiko/stoperica/CompareActivity.kt:53-64 | The first session with the update's id is replaced in place, and the list is saved exactly when some id matched |

## Left out

- User interface: views, toasts, vibration, dialogs' layout, the notification, the wake lock, the navigation menu and the Compose screens' rendering. Only the decisions they take are modelled (the reset dialog's answer is a parameter; the compare screen's view choice is `Compare.Shown`).
- The clock (`System.currentTimeMillis()`) is a parameter. addLap (MainActivity.kt:544, 565) and fromSnapshot (LiveSession.kt:56, 62) read it twice; the model reads it once per call. Each GPS fix carries the clock reading its check takes.
- Persistence and networking: SharedPreferences with Gson (saveSessions, loadSessions, saveMarkers, loadMarkers), Firebase authentication, upload and retry, the live session broadcaster and listener, HTTP calls, location lookups. The loaded sessions and the restored markers are constructor parameters.
- Android's `Location.distanceTo` and the 20 m threshold are the parameter `near`; floating-point distances are not modelled.
- calculateConsistency's percentage and calculateSpeedMetrics's speeds use floating point: they are supplied as text, and only their "N/A" cases are modelled. `.average().toLong()` is modelled as the exact integer mean truncated toward zero; double rounding is not modelled.
- The UUID, the date formats (`SimpleDateFormat`), the user name, `totalTime` (the text shown in totalTimeTextView) and `location` (currentCity, from a location lookup) of a saved session are parameters (`SaveContext`); the string resources lap_time_format, sector_time_format and session_name_format are opaque label functions.
- `lapDurations` is a model-only history of lap durations; the app keeps only their texts. It lets the properties speak of bestLapTime and worstLapTime.
- lapCount and sectorCount are unbounded here; the app's `Int` counters would wrap after 2^31 laps.
- StopwatchSpec.ResumeContinues: stated only for clock readings whose differences do not overflow a `Long`.
- StopwatchSpec.LapReadsBack: stated only for lap labels ending in ": " and non-negative durations; other label texts are not known to the model.
- resetStopwatch (MainActivity.kt:523-531) is never called and is not modelled.
- MainActivity registers receivers only for START_LAP and LAP; nothing listens for SECTOR (`StopwatchSpec.SectorBroadcastIgnored`). Broadcast delivery itself is not modelled: a received intent is an event.
- Parcel: items are typed values. A read of the wrong type gives the type's default and consumes the item; a read past the end gives the default without moving. The int count of the sectors loop is unbounded. A null element inside a string list reads as "" (the writer never writes one). `describeContents`, `newArray` and `getFormattedDate` are not modelled.
- Firebase: a node is a tree of ordered entries. The order in which the SDK returns children is a parameter of `LiveSessions.ToMap` (participants) and is assumed to be the written order for lists. `getValue(T)` on a value of another type gives null here; the SDK may throw instead.
- `toLong()` and `toIntOrNull()` accept ASCII digits only; the JVM also accepts other Unicode decimal digits.
- The join dialog's `sessions.sortByDescending { it.createdAt }` (MainActivity.kt:847) is not modelled: `LiveSessions.ActiveSessions` is the list in the children's order, before that stable sort, and the dialog's display order is not stated.
- The join dialog's try/catch around fromSnapshot is modelled by `LiveSessions.FromSnapshot` returning `None`, which `LiveSessions.ActiveSessions` skips.
- Map markers are tracked by position: `addMarker` is assumed to return a marker, so `startLapMarker == null` is `startLapPosition == None` and every click after the first adds a sector. The polyline, the camera and onMarkerClick are not modelled.
- The companion object's markers in LocationTrackingService are never assigned anywhere in the app; the service's start, binding and location requests are not modelled.
- CompareActivity's `saveSessions` and `setResult` calls, and AnalyticsActivity's `onSessionUpdated` and `onUpdateSession` callbacks, are I/O and not modelled; `Compare.CompareActivity.OnUpdateSession` returns whether they would run.
- Compare.UpdateFirst: its own contract states only the length; what it changes is stated by `Compare.UpdateFirstSpec`.
