/**
  The summary saveSession (MainActivity.kt) computes from the recorded lap
  strings: the laps parseTime can read, the fastest and slowest of them with
  their 1-based lap number, the truncated mean, the "N/A" fallbacks, and the
  check that skips a session already stored.
 */
module SessionSummary {
  import opened KotlinText
  import opened KotlinLists
  import opened TimeFormat
  import opened Sessions

  /*
    saveSession reads every lap with parseTime. The definitions below take
    that reader as the parameter `key`, and every property is proved for
    any reader that signals failure with Long.MAX_VALUE; the stopwatch
    passes ParseTime.
   */

  /** A lap the reader accepts. */
  predicate Readable(key: string -> int, lap: string)
  {
    key(lap) != LONG_MAX
  }

  /** `lapTimes.filter { parseTime(it) != Long.MAX_VALUE }`, in order. */
  function ValidLaps(laps: seq<string>, key: string -> int): (v: seq<string>)
    ensures |v| <= |laps|
    ensures forall i :: 0 <= i < |v| ==> Readable(key, v[i]) && v[i] in laps
    ensures v == [] <==> forall i :: 0 <= i < |laps| ==> !Readable(key, laps[i])
  {
    if laps == [] then []
    else
      var init := laps[..|laps| - 1];
      var v := ValidLaps(init, key);
      assert forall i :: 0 <= i < |init| ==> init[i] == laps[i];
      if Readable(key, laps[|laps| - 1]) then v + [laps[|laps| - 1]] else v
  }

  /** `"$lapNumber: ${lap.substringAfterLast(": ")}"` with lapNumber = `lapTimes.indexOf(lap) + 1`. */
  function NumberedLap(laps: seq<string>, lap: string): string
  {
    NatToString(IndexOf(laps, lap) + 1) + ": " + SubstringAfterLast(lap)
  }

  /** The fastestLap text of a saved session. */
  function FastestLap(laps: seq<string>, key: string -> int): string
  {
    var valid := ValidLaps(laps, key);
    if valid == [] then "N/A" else NumberedLap(laps, valid[MinBy(valid, key)])
  }

  /** The slowestLap text of a saved session. */
  function SlowestLap(laps: seq<string>, key: string -> int): string
  {
    var valid := ValidLaps(laps, key);
    if valid == [] then "N/A" else NumberedLap(laps, valid[MaxBy(valid, key)])
  }

  function Sum(xs: seq<int>): int
  {
    if xs == [] then 0 else Sum(xs[..|xs| - 1]) + xs[|xs| - 1]
  }

  /** `validLapTimes.map { parseTime(it) }`. */
  function LapValues(valid: seq<string>, key: string -> int): (r: seq<int>)
    ensures |r| == |valid|
    ensures forall i :: 0 <= i < |r| ==> r[i] == key(valid[i])
  {
    if valid == [] then [] else LapValues(valid[..|valid| - 1], key) + [key(valid[|valid| - 1])]
  }

  /**
    `.average().toLong()` over the readable laps. The durations are never
    negative, so truncation toward zero is the floor Dafny's `/` computes.
   */
  function AverageValue(laps: seq<string>, key: string -> int): int
    requires ValidLaps(laps, key) != []
  {
    var valid := ValidLaps(laps, key);
    Sum(LapValues(valid, key)) / |valid|
  }

  /** The averageLap text of a saved session. */
  function AverageLap(laps: seq<string>, key: string -> int): string
  {
    if ValidLaps(laps, key) == [] then "N/A" else FormatTime(AverageValue(laps, key))
  }

  /**
    calculateConsistency's own "N/A" for fewer than two readable laps; the
    percentage it computes otherwise (square roots of doubles) is supplied
    as text.
   */
  function Consistency(laps: seq<string>, key: string -> int, percentage: string): string
  {
    if |ValidLaps(laps, key)| < 2 then "N/A" else percentage
  }

  /**
    calculateSpeedMetrics's "N/A" pair for a run without laps; the
    floating-point speeds otherwise are supplied as text.
   */
  function Speeds(laps: seq<string>, topSpeed: string, averageSpeed: string): (string, string)
  {
    if laps == [] then ("N/A", "N/A") else (topSpeed, averageSpeed)
  }

  /** `sessions.find { it.laps == lapTimes && it.sectors == sectorTimes } != null`. */
  predicate AlreadySaved(sessions: seq<Session>, laps: seq<string>, sectors: seq<seq<string>>)
  {
    exists i :: 0 <= i < |sessions| && sessions[i].laps == laps && sessions[i].sectors == sectors
  }

  /** What saveSession takes from outside the lap data: UUID, clock, preferences, location and the floating-point metrics. */
  datatype SaveContext = SaveContext(
    id: string,
    username: string,
    date: string,
    startTime: string,
    totalTime: string,
    location: string,
    dateTime: string,
    consistencyPercentage: string,
    topSpeed: string,
    averageSpeed: string)

  /** The Session value saveSession builds (MainActivity.kt, the `Session(...)` call). */
  function SummarySession(ctx: SaveContext, name: string, laps: seq<string>, sectors: seq<seq<string>>): (s: Session)
  {
    var speeds := Speeds(laps, ctx.topSpeed, ctx.averageSpeed);
    Session(
      ctx.id, name, ctx.username, ctx.date, ctx.startTime,
      FastestLap(laps, ParseTime), SlowestLap(laps, ParseTime), AverageLap(laps, ParseTime),
      Consistency(laps, ParseTime, ctx.consistencyPercentage),
      ctx.totalTime, ctx.location, ctx.dateTime,
      laps, sectors,
      false, None, speeds.0, speeds.1, false, None)
  }

  // ---------------------------------------------------------------------
  // Properties
  // ---------------------------------------------------------------------

  /** k is the first readable lap whose time is the least among readable laps. */
  predicate IsFastestIndex(laps: seq<string>, key: string -> int, k: int)
  {
    && 0 <= k < |laps| && Readable(key, laps[k])
    && (forall j :: 0 <= j < |laps| && Readable(key, laps[j]) ==> key(laps[k]) <= key(laps[j]))
    && (forall j :: 0 <= j < k && Readable(key, laps[j]) ==> key(laps[k]) < key(laps[j]))
  }

  /** k is the first readable lap whose time is the greatest among readable laps. */
  predicate IsSlowestIndex(laps: seq<string>, key: string -> int, k: int)
  {
    && 0 <= k < |laps| && Readable(key, laps[k])
    && (forall j :: 0 <= j < |laps| && Readable(key, laps[j]) ==> key(laps[j]) <= key(laps[k]))
    && (forall j :: 0 <= j < k && Readable(key, laps[j]) ==> key(laps[j]) < key(laps[k]))
  }

  /** minByOrNull over the readable laps lands on the first fastest lap of the whole list. */
  lemma {:induction false} MinOfValid(laps: seq<string>, key: string -> int) returns (k: nat)
    requires ValidLaps(laps, key) != []
    ensures IsFastestIndex(laps, key, k)
    ensures ValidLaps(laps, key)[MinBy(ValidLaps(laps, key), key)] == laps[k]
  {
    var n := |laps| - 1;
    var init, x := laps[..n], laps[n];
    assert laps == init + [x];
    ValidLapsSnoc(init, x, key);
    var v := ValidLaps(init, key);
    if !Readable(key, x) {
      k := MinOfValid(init, key);
      FastestSkip(init, x, key, k);
    } else if v == [] {
      k := n;
      FastestFirst(init, x, key);
    } else {
      var k0 := MinOfValid(init, key);
      k := MinExtend(init, x, key, k0);
    }
  }

  /** The readable laps of a list with one more lap. */
  lemma ValidLapsSnoc(init: seq<string>, x: string, key: string -> int)
    ensures ValidLaps(init + [x], key) == if Readable(key, x) then ValidLaps(init, key) + [x] else ValidLaps(init, key)
  {
    var laps := init + [x];
    assert laps[..|laps| - 1] == init;
  }

  lemma MinExtend(init: seq<string>, x: string, key: string -> int, k0: nat) returns (k: nat)
    requires Readable(key, x) && ValidLaps(init, key) != []
    requires IsFastestIndex(init, key, k0)
    requires ValidLaps(init, key)[MinBy(ValidLaps(init, key), key)] == init[k0]
    ensures IsFastestIndex(init + [x], key, k)
    ensures (ValidLaps(init, key) + [x])[MinBy(ValidLaps(init, key) + [x], key)] == (init + [x])[k]
  {
    var v := ValidLaps(init, key);
    MinBySnoc(v, x, key);
    if key(x) < key(init[k0]) {
      k := |init|;
      FastestNew(init, x, key, k0);
    } else {
      k := k0;
      FastestKeep(init, x, key, k0);
    }
  }

  lemma FastestSkip(init: seq<string>, x: string, key: string -> int, k: nat)
    requires IsFastestIndex(init, key, k) && !Readable(key, x)
    ensures IsFastestIndex(init + [x], key, k)
  {
    var laps := init + [x];
    assert forall j :: 0 <= j < |init| ==> laps[j] == init[j];
  }

  lemma FastestFirst(init: seq<string>, x: string, key: string -> int)
    requires forall j :: 0 <= j < |init| ==> !Readable(key, init[j])
    requires Readable(key, x)
    ensures IsFastestIndex(init + [x], key, |init|)
  {
    var laps := init + [x];
    assert forall j :: 0 <= j < |init| ==> laps[j] == init[j];
  }

  lemma FastestNew(init: seq<string>, x: string, key: string -> int, k: nat)
    requires IsFastestIndex(init, key, k) && Readable(key, x) && key(x) < key(init[k])
    ensures IsFastestIndex(init + [x], key, |init|)
  {
    var laps := init + [x];
    assert forall j :: 0 <= j < |init| ==> laps[j] == init[j];
  }

  lemma FastestKeep(init: seq<string>, x: string, key: string -> int, k: nat)
    requires IsFastestIndex(init, key, k) && Readable(key, x) && key(init[k]) <= key(x)
    ensures IsFastestIndex(init + [x], key, k)
  {
    var laps := init + [x];
    assert forall j :: 0 <= j < |init| ==> laps[j] == init[j];
  }

  /** maxByOrNull over the readable laps lands on the first slowest lap of the whole list. */
  lemma {:induction false} MaxOfValid(laps: seq<string>, key: string -> int) returns (k: nat)
    requires ValidLaps(laps, key) != []
    ensures IsSlowestIndex(laps, key, k)
    ensures ValidLaps(laps, key)[MaxBy(ValidLaps(laps, key), key)] == laps[k]
  {
    var n := |laps| - 1;
    var init, x := laps[..n], laps[n];
    assert laps == init + [x];
    ValidLapsSnoc(init, x, key);
    var v := ValidLaps(init, key);
    if !Readable(key, x) {
      k := MaxOfValid(init, key);
      SlowestSkip(init, x, key, k);
    } else if v == [] {
      k := n;
      SlowestFirst(init, x, key);
    } else {
      var k0 := MaxOfValid(init, key);
      k := MaxExtend(init, x, key, k0);
    }
  }

  lemma MaxExtend(init: seq<string>, x: string, key: string -> int, k0: nat) returns (k: nat)
    requires Readable(key, x) && ValidLaps(init, key) != []
    requires IsSlowestIndex(init, key, k0)
    requires ValidLaps(init, key)[MaxBy(ValidLaps(init, key), key)] == init[k0]
    ensures IsSlowestIndex(init + [x], key, k)
    ensures (ValidLaps(init, key) + [x])[MaxBy(ValidLaps(init, key) + [x], key)] == (init + [x])[k]
  {
    var v := ValidLaps(init, key);
    MaxBySnoc(v, x, key);
    if key(x) > key(init[k0]) {
      k := |init|;
      SlowestNew(init, x, key, k0);
    } else {
      k := k0;
      SlowestKeep(init, x, key, k0);
    }
  }

  lemma SlowestSkip(init: seq<string>, x: string, key: string -> int, k: nat)
    requires IsSlowestIndex(init, key, k) && !Readable(key, x)
    ensures IsSlowestIndex(init + [x], key, k)
  {
    var laps := init + [x];
    assert forall j :: 0 <= j < |init| ==> laps[j] == init[j];
  }

  lemma SlowestFirst(init: seq<string>, x: string, key: string -> int)
    requires forall j :: 0 <= j < |init| ==> !Readable(key, init[j])
    requires Readable(key, x)
    ensures IsSlowestIndex(init + [x], key, |init|)
  {
    var laps := init + [x];
    assert forall j :: 0 <= j < |init| ==> laps[j] == init[j];
  }

  lemma SlowestNew(init: seq<string>, x: string, key: string -> int, k: nat)
    requires IsSlowestIndex(init, key, k) && Readable(key, x) && key(x) > key(init[k])
    ensures IsSlowestIndex(init + [x], key, |init|)
  {
    var laps := init + [x];
    assert forall j :: 0 <= j < |init| ==> laps[j] == init[j];
  }

  lemma SlowestKeep(init: seq<string>, x: string, key: string -> int, k: nat)
    requires IsSlowestIndex(init, key, k) && Readable(key, x) && key(x) <= key(init[k])
    ensures IsSlowestIndex(init + [x], key, k)
  {
    var laps := init + [x];
    assert forall j :: 0 <= j < |init| ==> laps[j] == init[j];
  }

  /** The lap number indexOf gives a first fastest or slowest lap is its own position: no earlier lap is the same string. */
  lemma {:induction false} IndexOfFirstExtreme(laps: seq<string>, key: string -> int, k: nat)
    requires IsFastestIndex(laps, key, k) || IsSlowestIndex(laps, key, k)
    ensures IndexOf(laps, laps[k]) == k
  {
    var i := IndexOf(laps, laps[k]);
    assert i >= 0 && laps[i] == laps[k];
  }

  /**
    The fastest-lap text: "N/A" exactly when no lap is readable; otherwise
    the 1-based number of the first lap with the least time, ": ", and that
    lap's text after its label.
   */
  lemma {:induction false} FastestLapSpec(laps: seq<string>, key: string -> int) returns (k: int)
    ensures k < 0 <==> forall j :: 0 <= j < |laps| ==> !Readable(key, laps[j])
    ensures k < 0 ==> FastestLap(laps, key) == "N/A"
    ensures k >= 0 ==> IsFastestIndex(laps, key, k)
    ensures k >= 0 ==> FastestLap(laps, key) == NatToString(k + 1) + ": " + SubstringAfterLast(laps[k])
  {
    if ValidLaps(laps, key) == [] {
      k := -1;
    } else {
      k := MinOfValid(laps, key);
      IndexOfFirstExtreme(laps, key, k);
    }
  }

  /** The slowest-lap text, symmetrically: the first lap with the greatest time. */
  lemma {:induction false} SlowestLapSpec(laps: seq<string>, key: string -> int) returns (k: int)
    ensures k < 0 <==> forall j :: 0 <= j < |laps| ==> !Readable(key, laps[j])
    ensures k < 0 ==> SlowestLap(laps, key) == "N/A"
    ensures k >= 0 ==> IsSlowestIndex(laps, key, k)
    ensures k >= 0 ==> SlowestLap(laps, key) == NatToString(k + 1) + ": " + SubstringAfterLast(laps[k])
  {
    if ValidLaps(laps, key) == [] {
      k := -1;
    } else {
      k := MaxOfValid(laps, key);
      IndexOfFirstExtreme(laps, key, k);
    }
  }

  lemma {:induction false} SumBounds(xs: seq<int>, lo: int, hi: int)
    requires forall i :: 0 <= i < |xs| ==> lo <= xs[i] <= hi
    ensures |xs| * lo <= Sum(xs) <= |xs| * hi
  {
    if xs != [] {
      SumBounds(xs[..|xs| - 1], lo, hi);
    }
  }

  lemma MeanBounds(sum: int, n: int, lo: int, hi: int)
    requires n > 0 && n * lo <= sum <= n * hi
    ensures lo <= sum / n <= hi
  {
    var q := sum / n;
    var r := sum % n;
    assert sum == n * q + r && 0 <= r < n;
    CancelFactor(n, lo, q + 1);
    CancelFactor(n, q, hi + 1);

  }

  /** A positive factor can be cancelled from a strict inequality. */
  lemma CancelFactor(n: int, a: int, b: int)
    requires n > 0 && n * a < n * b
    ensures a < b
  {
  }

  /**
    The truncated mean lies between the fastest and the slowest readable
    lap.
   */
  lemma {:induction false} AverageBetween(laps: seq<string>, key: string -> int, fastest: nat, slowest: nat)
    requires IsFastestIndex(laps, key, fastest) && IsSlowestIndex(laps, key, slowest)
    ensures ValidLaps(laps, key) != []
    ensures key(laps[fastest]) <= AverageValue(laps, key) <= key(laps[slowest])
  {
    var valid := ValidLaps(laps, key);
    var lo, hi := key(laps[fastest]), key(laps[slowest]);
    var values := LapValues(valid, key);
    forall i | 0 <= i < |values| ensures lo <= values[i] <= hi {
      assert valid[i] in laps;
      var j :| 0 <= j < |laps| && laps[j] == valid[i];
      assert Readable(key, laps[j]);
    }
    SumBounds(values, lo, hi);
    MeanBounds(Sum(values), |valid|, lo, hi);
  }

  /** The mean of laps that all took the same readable time is that time. */
  lemma {:induction false} AverageOfEqualLaps(laps: seq<string>, key: string -> int, fastest: nat)
    requires IsFastestIndex(laps, key, fastest)
    requires forall j :: 0 <= j < |laps| && Readable(key, laps[j]) ==> key(laps[j]) == key(laps[fastest])
    ensures AverageValue(laps, key) == key(laps[fastest])
  {
    AverageBetween(laps, key, fastest, fastest);
  }
}
