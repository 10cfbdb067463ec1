/**
  The stopwatch of MainActivity.kt as a state machine: its fields, one
  function per operation (start, pause, resume, stop, the complete reset,
  addLap, addSector, saveSession) and per user event (the debounced
  start/stop, lap and sector buttons, the reset button with its dialog, and
  the START_LAP / LAP broadcasts), and the properties those operations
  keep. The class in stopwatch.dfy performs the same operations in place
  and is proved to follow these functions.

  Every operation receives the clock reading `now` as a parameter; addLap
  reads the clock twice in the app and once here.
 */
module StopwatchSpec {
  import opened KotlinText
  import opened TimeFormat
  import opened Sessions
  import opened SessionSummary
  import opened Broadcasts

  const START_LAP_DEBOUNCE: int := 500
  const SECTOR_DEBOUNCE: int := 300

  /**
    The string resources lap_time_format, sector_time_format and
    session_name_format. Their text is not part of this model: each is the
    prefix written before the formatted time (or the session name) for a
    given lap, sector or session number.
   */
  datatype Labels = Labels(lap: int -> string, sector: int -> string, sessionName: int -> string)

  /**
    MainActivity's stopwatch fields. `lapDurations` is not a field of the
    app: it is the history of the lap durations since the last stop, which
    the app keeps only as formatted text, and it lets the properties speak
    of bestLapTime and worstLapTime.
   */
  datatype State = State(
    lastStartLapClickTime: Long,
    lastSectorClickTime: Long,
    isRunning: bool,
    isPaused: bool,
    startTime: Long,
    pauseTime: Long,
    lapStartTime: Long,
    sectorStartTime: Long,
    bestLapTime: Long,
    worstLapTime: Long,
    lapCount: nat,
    sectorCount: nat,
    lapTimes: seq<string>,
    sectorTimes: seq<seq<string>>,
    currentLapSectors: seq<string>,
    sessions: seq<Session>,
    lapDurations: seq<Long>)

  /** The fields as declared, with the sessions loaded from storage. */
  function Initial(saved: seq<Session>): State
  {
    State(0, 0, false, false, 0, 0, 0, 0, LONG_MAX, LONG_MIN, 0, 0, [], [], [], saved, [])
  }

  /** bestLapTime after a run of laps: Long.MAX_VALUE, lowered by every strictly smaller lap. */
  function Best(ds: seq<Long>): (b: Long)
    ensures forall i :: 0 <= i < |ds| ==> b <= ds[i]
    ensures ds == [] ==> b == LONG_MAX
    ensures ds != [] ==> b in ds
  {
    if ds == [] then LONG_MAX
    else
      var b := Best(ds[..|ds| - 1]);
      assert forall i :: 0 <= i < |ds| - 1 ==> ds[..|ds| - 1][i] == ds[i];
      if ds[|ds| - 1] < b then ds[|ds| - 1] else b
  }

  /** worstLapTime after a run of laps: Long.MIN_VALUE, raised by every strictly larger lap. */
  function Worst(ds: seq<Long>): (w: Long)
    ensures forall i :: 0 <= i < |ds| ==> ds[i] <= w
    ensures ds == [] ==> w == LONG_MIN
    ensures ds != [] ==> w in ds
  {
    if ds == [] then LONG_MIN
    else
      var w := Worst(ds[..|ds| - 1]);
      assert forall i :: 0 <= i < |ds| - 1 ==> ds[..|ds| - 1][i] == ds[i];
      if ds[|ds| - 1] > w then ds[|ds| - 1] else w
  }

  // ---------------------------------------------------------------------
  // Operations
  // ---------------------------------------------------------------------

  /** startStopwatch: only from not running. */
  function Start(st: State, now: Long): State
  {
    if st.isRunning then st
    else st.(isRunning := true, isPaused := false, startTime := now, lapStartTime := now, sectorStartTime := now)
  }

  /** pauseStopwatch: only while running and not paused. */
  function Pause(st: State, now: Long): State
  {
    if st.isRunning && !st.isPaused then st.(isPaused := true, pauseTime := now) else st
  }

  /** resumeStopwatch: only while paused; the three anchors move forward by the pause, in Long arithmetic. */
  function Resume(st: State, now: Long): State
  {
    if st.isRunning && st.isPaused then
      var pause := LongSub(now, st.pauseTime);
      st.(isPaused := false,
          startTime := LongAdd(st.startTime, pause),
          lapStartTime := LongAdd(st.lapStartTime, pause),
          sectorStartTime := LongAdd(st.sectorStartTime, pause))
    else st
  }

  /** The timing fields, statistics and lists as stopStopwatch and resetStopwatchCompletely leave them. */
  function Cleared(st: State): State
  {
    st.(startTime := 0, pauseTime := 0, lapStartTime := 0, sectorStartTime := 0,
        bestLapTime := LONG_MAX, worstLapTime := LONG_MIN, lapCount := 0, sectorCount := 0,
        lapTimes := [], sectorTimes := [], currentLapSectors := [], lapDurations := [])
  }

  /** stopStopwatch: only while running. */
  function Stop(st: State): State
  {
    if st.isRunning then Cleared(st).(isRunning := false, isPaused := false) else st
  }

  /** resetStopwatchCompletely: stop if active, then clear everything again. */
  function ResetCompletely(st: State): State
  {
    Cleared(if st.isRunning || st.isPaused then Stop(st) else st)
  }

  /** addLap: only while running and not paused. */
  function AddLap(st: State, now: Long, labels: Labels): State
  {
    if st.isRunning && !st.isPaused then
      var lapTime := LongSub(now, st.lapStartTime);
      var count := st.lapCount + 1;
      st.(bestLapTime := if lapTime < st.bestLapTime then lapTime else st.bestLapTime,
          worstLapTime := if lapTime > st.worstLapTime then lapTime else st.worstLapTime,
          lapCount := count,
          lapTimes := st.lapTimes + [LapText(labels, count, lapTime)],
          sectorTimes := st.sectorTimes + [st.currentLapSectors],
          currentLapSectors := [],
          lapStartTime := now,
          sectorStartTime := now,
          sectorCount := 0,
          lapDurations := st.lapDurations + [lapTime])
    else st
  }

  /** addSector: only while running and not paused; the sector goes to the current lap's buffer. */
  function AddSector(st: State, now: Long, labels: Labels): State
  {
    if st.isRunning && !st.isPaused then
      var sectorTime := LongSub(now, st.sectorStartTime);
      var count := st.sectorCount + 1;
      st.(sectorCount := count,
          currentLapSectors := st.currentLapSectors + [SectorText(labels, count, sectorTime)],
          sectorStartTime := now)
    else st
  }

  /**
    saveSession: nothing without laps and sectors, nothing if a stored
    session has the same laps and sectors; otherwise an unfinished sector
    is flushed into the buffer and one session is appended.
   */
  function SaveSession(st: State, now: Long, labels: Labels, ctx: SaveContext): State
  {
    if st.lapTimes == [] && st.sectorTimes == [] then st
    else if AlreadySaved(st.sessions, st.lapTimes, st.sectorTimes) then st
    else AppendSession(FlushSector(st, now, labels), labels, ctx)
  }

  /** saveSession's first step: a sector under way (its anchor is not the lap's) is recorded. */
  function FlushSector(st: State, now: Long, labels: Labels): State
  {
    if st.isRunning && !st.isPaused && st.sectorStartTime != st.lapStartTime then AddSector(st, now, labels) else st
  }

  /** saveSession's last step: the summary of the laps and sectors, named after the new count of sessions, is appended. */
  function AppendSession(st: State, labels: Labels, ctx: SaveContext): State
  {
    var name := labels.sessionName(|st.sessions| + 1);
    st.(sessions := st.sessions + [SummarySession(ctx, name, st.lapTimes, st.sectorTimes)])
  }

  /** Whether a start/stop or lap click gets past the shared 500 ms debounce. */
  predicate StartLapClickAccepted(st: State, now: Long)
  {
    LongSub(now, st.lastStartLapClickTime) > START_LAP_DEBOUNCE
  }

  /** Whether a sector click gets past its own 300 ms debounce. */
  predicate SectorClickAccepted(st: State, now: Long)
  {
    LongSub(now, st.lastSectorClickTime) > SECTOR_DEBOUNCE
  }

  /** The start/stop button: start, pause or resume; it never stops the watch. */
  function ClickStartStop(st: State, now: Long): State
  {
    if StartLapClickAccepted(st, now) then
      var stamped := st.(lastStartLapClickTime := now);
      if stamped.isRunning then
        if stamped.isPaused then Resume(stamped, now) else Pause(stamped, now)
      else Start(stamped, now)
    else st
  }

  /** The lap button, sharing the start/stop button's stamp. */
  function ClickLap(st: State, now: Long, labels: Labels): State
  {
    if StartLapClickAccepted(st, now) then AddLap(st.(lastStartLapClickTime := now), now, labels) else st
  }

  /** The sector button, with its own stamp. */
  function ClickSector(st: State, now: Long, labels: Labels): State
  {
    if SectorClickAccepted(st, now) then AddSector(st.(lastSectorClickTime := now), now, labels) else st
  }

  /** The buttons of the reset dialog. */
  datatype ResetChoice = SaveAndReset | JustReset | Cancel

  /** The reset button: a dialog while running or paused, an immediate reset otherwise. */
  function ClickReset(st: State, choice: ResetChoice, now: Long, labels: Labels, ctx: SaveContext): State
  {
    if st.isRunning || st.isPaused then
      match choice
      case SaveAndReset => ResetCompletely(SaveSession(st, now, labels, ctx))
      case JustReset => ResetCompletely(st)
      case Cancel => st
    else ResetCompletely(st)
  }

  /**
    The registered receivers: START_LAP clicks the start/stop button, LAP
    clicks the lap button; there is no receiver for SECTOR.
   */
  function Receive(st: State, intent: Broadcast, now: Long, labels: Labels): State
  {
    match intent
    case StartLap => ClickStartStop(st, now)
    case Lap => ClickLap(st, now, labels)
    case Sector(_) => st
  }

  /** Everything that reaches the stopwatch from outside. */
  datatype Event =
    | StartStopClicked(now: Long)
    | LapClicked(now: Long)
    | SectorClicked(now: Long)
    | ResetClicked(now: Long, choice: ResetChoice, ctx: SaveContext)
    | Received(now: Long, intent: Broadcast)

  function Step(st: State, e: Event, labels: Labels): State
  {
    match e
    case StartStopClicked(now) => ClickStartStop(st, now)
    case LapClicked(now) => ClickLap(st, now, labels)
    case SectorClicked(now) => ClickSector(st, now, labels)
    case ResetClicked(now, choice, ctx) => ClickReset(st, choice, now, labels, ctx)
    case Received(now, intent) => Receive(st, intent, now, labels)
  }

  /** The state after a sequence of events. */
  function Run(st: State, events: seq<Event>, labels: Labels): State
  {
    if events == [] then st else Step(Run(st, events[..|events| - 1], labels), events[|events| - 1], labels)
  }

  // ---------------------------------------------------------------------
  // The invariant
  // ---------------------------------------------------------------------

  /** The text of lap number n that lasted d milliseconds. */
  function LapText(labels: Labels, n: int, d: int): string
  {
    labels.lap(n) + FormatTime(d)
  }

  /** The text of sector number n of the current lap that lasted d milliseconds. */
  function SectorText(labels: Labels, n: int, d: int): string
  {
    labels.sector(n) + FormatTime(d)
  }

  /** The lap texts of a run of lap durations, numbered from 1. */
  function LapTexts(labels: Labels, ds: seq<Long>): (ts: seq<string>)
    ensures |ts| == |ds|
  {
    if ds == [] then [] else LapTexts(labels, ds[..|ds| - 1]) + [LapText(labels, |ds|, ds[|ds| - 1])]
  }

  /** Lap i (from 0) of the list is numbered i + 1 and shows duration i. */
  lemma {:induction false} LapTextAt(labels: Labels, ds: seq<Long>, i: int)
    requires 0 <= i < |ds|
    ensures LapTexts(labels, ds)[i] == LapText(labels, i + 1, ds[i])
  {
    if i < |ds| - 1 {
      LapTextAt(labels, ds[..|ds| - 1], i);
    }
  }

  /**
    What holds after any sequence of events: a paused watch is running; one
    sectors list per lap and lapCount laps; the sector counter counts the
    buffer; the lap texts are the labelled durations; best and worst are
    the fold of the durations; and a stopped watch is cleared.
   */
  predicate Valid(st: State, labels: Labels)
  {
    && (st.isPaused ==> st.isRunning)
    && |st.sectorTimes| == |st.lapTimes| == st.lapCount == |st.lapDurations|
    && st.sectorCount == |st.currentLapSectors|
    && st.lapTimes == LapTexts(labels, st.lapDurations)
    && st.bestLapTime == Best(st.lapDurations)
    && st.worstLapTime == Worst(st.lapDurations)
    && (!st.isRunning ==> Cleared(st) == st)
  }

  lemma InitialValid(saved: seq<Session>, labels: Labels)
    ensures Valid(Initial(saved), labels)
  {
  }

  lemma {:induction false} AddLapValid(st: State, now: Long, labels: Labels)
    requires Valid(st, labels)
    ensures Valid(AddLap(st, now, labels), labels)
  {
    if st.isRunning && !st.isPaused {
      AddLapRecords(st, now, labels);
    }
  }

  /** The lap list and the best and worst times follow the duration appended by a lap. */
  lemma {:induction false} AddLapRecords(st: State, now: Long, labels: Labels)
    requires Valid(st, labels) && st.isRunning && !st.isPaused
    ensures var r := AddLap(st, now, labels);
      && r.lapTimes == LapTexts(labels, r.lapDurations)
      && r.bestLapTime == Best(r.lapDurations)
      && r.worstLapTime == Worst(r.lapDurations)
  {
    var r := AddLap(st, now, labels);
    assert r.lapDurations[..|r.lapDurations| - 1] == st.lapDurations;
  }

  lemma {:induction false} AddSectorValid(st: State, now: Long, labels: Labels)
    requires Valid(st, labels)
    ensures Valid(AddSector(st, now, labels), labels)
  {
  }

  lemma {:induction false} SaveSessionValid(st: State, now: Long, labels: Labels, ctx: SaveContext)
    requires Valid(st, labels)
    ensures Valid(SaveSession(st, now, labels, ctx), labels)
  {
    if !(st.lapTimes == [] && st.sectorTimes == []) && !AlreadySaved(st.sessions, st.lapTimes, st.sectorTimes) {
      AddSectorValid(st, now, labels);
      AppendSessionValid(FlushSector(st, now, labels), labels, ctx);
    }
  }

  lemma {:induction false} AppendSessionValid(st: State, labels: Labels, ctx: SaveContext)
    requires Valid(st, labels)
    ensures Valid(AppendSession(st, labels, ctx), labels)
  {
  }

  lemma {:induction false} ResetValid(st: State, labels: Labels)
    requires Valid(st, labels)
    ensures Valid(ResetCompletely(st), labels)
  {
  }

  lemma {:induction false} ClickStartStopValid(st: State, now: Long, labels: Labels)
    requires Valid(st, labels)
    ensures Valid(ClickStartStop(st, now), labels)
  {
    if StartLapClickAccepted(st, now) {
      var stamped := st.(lastStartLapClickTime := now);
      assert Valid(stamped, labels);
    }
  }

  lemma {:induction false} ClickLapValid(st: State, now: Long, labels: Labels)
    requires Valid(st, labels)
    ensures Valid(ClickLap(st, now, labels), labels)
  {
    if StartLapClickAccepted(st, now) {
      AddLapValid(st.(lastStartLapClickTime := now), now, labels);
    }
  }

  lemma {:induction false} ClickSectorValid(st: State, now: Long, labels: Labels)
    requires Valid(st, labels)
    ensures Valid(ClickSector(st, now, labels), labels)
  {
    if SectorClickAccepted(st, now) {
      AddSectorValid(st.(lastSectorClickTime := now), now, labels);
    }
  }

  lemma {:induction false} ClickResetValid(st: State, choice: ResetChoice, now: Long, labels: Labels, ctx: SaveContext)
    requires Valid(st, labels)
    ensures Valid(ClickReset(st, choice, now, labels, ctx), labels)
  {
    SaveSessionValid(st, now, labels, ctx);
    ResetValid(st, labels);
    ResetValid(SaveSession(st, now, labels, ctx), labels);
  }

  /** Every event keeps the invariant. */
  lemma {:induction false} StepValid(st: State, e: Event, labels: Labels)
    requires Valid(st, labels)
    ensures Valid(Step(st, e, labels), labels)
  {
    match e
    case StartStopClicked(now) => ClickStartStopValid(st, now, labels);
    case LapClicked(now) => ClickLapValid(st, now, labels);
    case SectorClicked(now) => ClickSectorValid(st, now, labels);
    case ResetClicked(now, choice, ctx) => ResetClickedValid(st, now, choice, ctx, labels);
    case Received(now, intent) => ReceivedValid(st, now, intent, labels);
  }

  lemma {:induction false} ResetClickedValid(st: State, now: Long, choice: ResetChoice, ctx: SaveContext, labels: Labels)
    requires Valid(st, labels)
    ensures Valid(Step(st, ResetClicked(now, choice, ctx), labels), labels)
  {
    ClickResetValid(st, choice, now, labels, ctx);
  }

  lemma {:induction false} ReceivedValid(st: State, now: Long, intent: Broadcast, labels: Labels)
    requires Valid(st, labels)
    ensures Valid(Step(st, Received(now, intent), labels), labels)
  {
    ClickStartStopValid(st, now, labels);
    ClickLapValid(st, now, labels);
  }

  /**
    From the initial state, any sequence of events leaves the invariant in
    place; in particular the sectors list and the lap list have lapCount
    entries each.
   */
  lemma {:induction false} RunValid(saved: seq<Session>, events: seq<Event>, labels: Labels)
    ensures Valid(Run(Initial(saved), events, labels), labels)
    ensures var st := Run(Initial(saved), events, labels);
      |st.sectorTimes| == |st.lapTimes| == st.lapCount
  {
    if events == [] {
      InitialValid(saved, labels);
    } else {
      RunValid(saved, events[..|events| - 1], labels);
      StepValid(Run(Initial(saved), events[..|events| - 1], labels), events[|events| - 1], labels);
    }
  }

  // ---------------------------------------------------------------------
  // Properties of single operations
  // ---------------------------------------------------------------------

  /** Laps and sectors are only recorded while running and not paused. */
  lemma LapAndSectorNeedRunning(st: State, now: Long, labels: Labels)
    requires !st.isRunning || st.isPaused
    ensures AddLap(st, now, labels) == st
    ensures AddSector(st, now, labels) == st
  {
  }

  /**
    A lap adds one lap and appends the buffered sectors (possibly none) as
    that lap's sectors list, so lap k's sectors stay at index k; the buffer
    and its counter are cleared and the sector anchor is the new lap anchor.
   */
  lemma {:induction false} AddLapEffect(st: State, now: Long, labels: Labels)
    requires Valid(st, labels) && st.isRunning && !st.isPaused
    ensures var r := AddLap(st, now, labels);
      && r.lapCount == |r.lapTimes| == |st.lapTimes| + 1
      && r.sectorTimes == st.sectorTimes + [st.currentLapSectors]
      && r.currentLapSectors == [] && r.sectorCount == 0
      && r.sectorStartTime == r.lapStartTime == now
  {
  }

  /**
    In any state reachable under the invariant, parseTime reads lap i back
    as its duration modulo an hour, truncated to centiseconds, provided its
    label ends in ": " and the duration is not negative.
   */
  lemma LapReadsBack(st: State, labels: Labels, i: int)
    requires Valid(st, labels) && 0 <= i < |st.lapTimes|
    requires EndsWithSep(labels.lap(i + 1)) && st.lapDurations[i] >= 0
    ensures ParseTime(st.lapTimes[i]) == (st.lapDurations[i] % 3600000) / 10 * 10
  {
    LapTextAt(labels, st.lapDurations, i);
    LapTextParses(labels, i + 1, st.lapDurations[i]);
  }

  lemma LapTextParses(labels: Labels, n: int, d: int)
    requires EndsWithSep(labels.lap(n)) && d >= 0
    ensures ParseTime(LapText(labels, n, d)) == (d % 3600000) / 10 * 10
  {
    ParseFormatted(labels.lap(n), d);
  }

  /**
    bestLapTime and worstLapTime are the least and greatest lap duration
    since the last stop or reset, and the sentinels when there is none.
   */
  lemma BestAndWorst(st: State, labels: Labels)
    requires Valid(st, labels)
    ensures st.lapDurations == [] ==> st.bestLapTime == LONG_MAX && st.worstLapTime == LONG_MIN
    ensures st.lapDurations != [] ==> st.bestLapTime in st.lapDurations && st.worstLapTime in st.lapDurations
    ensures forall i :: 0 <= i < |st.lapDurations| ==> st.bestLapTime <= st.lapDurations[i] <= st.worstLapTime
  {
  }

  /** Stop and the complete reset leave no laps, no sectors, zero counters and the sentinels. */
  lemma ResetClears(st: State)
    requires st.isPaused ==> st.isRunning
    ensures var r := ResetCompletely(st);
      && !r.isRunning && !r.isPaused
      && r.lapTimes == [] && r.sectorTimes == [] && r.currentLapSectors == []
      && r.lapCount == 0 && r.sectorCount == 0
      && r.bestLapTime == LONG_MAX && r.worstLapTime == LONG_MIN
      && r.sessions == st.sessions
  {
  }

  /**
    The transitions' guards: start only from not running, pause only from
    running and not paused, resume only from paused, stop only from
    running; each of them from any other state changes nothing.
   */
  lemma TransitionGuards(st: State, now: Long)
    ensures st.isRunning ==> Start(st, now) == st
    ensures !st.isRunning ==> Start(st, now).isRunning && !Start(st, now).isPaused
    ensures !(st.isRunning && !st.isPaused) ==> Pause(st, now) == st
    ensures st.isRunning && !st.isPaused ==> Pause(st, now).isPaused
    ensures !(st.isRunning && st.isPaused) ==> Resume(st, now) == st
    ensures st.isRunning && st.isPaused ==> Resume(st, now).isRunning && !Resume(st, now).isPaused
    ensures !st.isRunning ==> Stop(st) == st
    ensures st.isRunning ==> !Stop(st).isRunning
  {
  }

  /**
    The start/stop button cycles start, pause, resume and never stops the
    watch; a click within 500 ms of the last accepted start/stop or lap
    click changes nothing.
   */
  lemma StartStopCycle(st: State, now: Long)
    requires st.isPaused ==> st.isRunning
    ensures var r := ClickStartStop(st, now);
      && (!StartLapClickAccepted(st, now) ==> r == st)
      && (st.isRunning ==> r.isRunning)
      && (StartLapClickAccepted(st, now) ==> r.lastStartLapClickTime == now)
      && (StartLapClickAccepted(st, now) && !st.isRunning ==> r.isRunning && !r.isPaused)
      && (StartLapClickAccepted(st, now) && st.isRunning && !st.isPaused ==> r.isPaused)
      && (StartLapClickAccepted(st, now) && st.isPaused ==> r.isRunning && !r.isPaused)
  {
  }

  /**
    Start and lap clicks share one stamp: after an accepted start/stop
    click at t, a lap click up to 500 ms later is ignored, and the other
    way round. Sector clicks have their own stamp and 300 ms.
   */
  lemma SharedDebounce(st: State, t: Long, t2: Long, labels: Labels)
    requires t <= t2 <= t + START_LAP_DEBOUNCE
    ensures StartLapClickAccepted(st, t) ==>
      var r := ClickStartStop(st, t);
      ClickLap(r, t2, labels) == r
    ensures StartLapClickAccepted(st, t) ==>
      var r := ClickLap(st, t, labels);
      ClickStartStop(r, t2) == r
  {
  }

  /** A sector click within 300 ms of the last accepted one is ignored; one later than that is stamped. */
  lemma SectorDebounce(st: State, t: Long, t2: Long, labels: Labels)
    ensures t <= t2 <= t + SECTOR_DEBOUNCE && SectorClickAccepted(st, t) ==>
      var r := ClickSector(st, t, labels);
      ClickSector(r, t2, labels) == r
    ensures SectorClickAccepted(st, t2) ==> ClickSector(st, t2, labels).lastSectorClickTime == t2
  {
  }

  /**
    Resuming continues the total, lap and sector times from where the pause
    left them: at the moment of resuming each elapsed time is the one shown
    at the pause. Stated for clock readings that do not overflow a Long.
   */
  lemma ResumeContinues(st: State, now: Long)
    requires st.isRunning && st.isPaused
    requires 0 <= st.pauseTime <= now
    requires st.startTime <= st.pauseTime && st.lapStartTime <= st.pauseTime && st.sectorStartTime <= st.pauseTime
    ensures var r := Resume(st, now);
      && r.isRunning && !r.isPaused
      && now - r.startTime == st.pauseTime - st.startTime
      && now - r.lapStartTime == st.pauseTime - st.lapStartTime
      && now - r.sectorStartTime == st.pauseTime - st.sectorStartTime
  {
  }

  /**
    saveSession: nothing happens without laps, or when a stored session has
    the same laps and sectors; otherwise exactly one session is appended,
    holding the laps and the completed laps' sectors (a sector flushed into
    the buffer is not among them), with the summary texts of the lap list.
   */
  lemma {:induction false} SaveSessionSpec(st: State, now: Long, labels: Labels, ctx: SaveContext)
    requires Valid(st, labels)
    ensures st.lapTimes == [] ==> SaveSession(st, now, labels, ctx) == st
    ensures AlreadySaved(st.sessions, st.lapTimes, st.sectorTimes) ==> SaveSession(st, now, labels, ctx) == st
    ensures st.lapTimes != [] && !AlreadySaved(st.sessions, st.lapTimes, st.sectorTimes) ==>
      var r := SaveSession(st, now, labels, ctx);
      var s := r.sessions[|r.sessions| - 1];
      && |r.sessions| == |st.sessions| + 1
      && r.sessions[..|st.sessions|] == st.sessions
      && r.lapTimes == st.lapTimes && r.sectorTimes == st.sectorTimes
      && s.laps == st.lapTimes && s.sectors == st.sectorTimes
      && s.name == labels.sessionName(|st.sessions| + 1)
      && s.fastestLap == FastestLap(st.lapTimes, ParseTime)
      && s.slowestLap == SlowestLap(st.lapTimes, ParseTime)
      && s.averageLap == AverageLap(st.lapTimes, ParseTime)
      && !s.isLive && !s.isUploaded
      && s == SummarySession(ctx, labels.sessionName(|st.sessions| + 1), st.lapTimes, st.sectorTimes)
  {
    if st.lapTimes != [] && !AlreadySaved(st.sessions, st.lapTimes, st.sectorTimes) {
      var r := SaveSession(st, now, labels, ctx);
      assert r.sessions[..|st.sessions|] == st.sessions;
    }
  }

  /** Saving twice stores one session: the second save finds the first. */
  lemma {:induction false} SaveSessionIdempotent(st: State, t1: Long, t2: Long, labels: Labels, ctx1: SaveContext, ctx2: SaveContext)
    requires Valid(st, labels)
    ensures var r := SaveSession(st, t1, labels, ctx1);
      SaveSession(r, t2, labels, ctx2) == r
  {
    var r := SaveSession(st, t1, labels, ctx1);
    SaveSessionSpec(st, t1, labels, ctx1);
    if st.lapTimes != [] && !AlreadySaved(st.sessions, st.lapTimes, st.sectorTimes) {
      var last := |r.sessions| - 1;
      assert r.sessions[last].laps == r.lapTimes && r.sessions[last].sectors == r.sectorTimes;
      assert AlreadySaved(r.sessions, r.lapTimes, r.sectorTimes);
    }
  }

  /** A SECTOR broadcast does not reach the stopwatch. */
  lemma SectorBroadcastIgnored(st: State, n: Option<int>, now: Long, labels: Labels)
    ensures Receive(st, Sector(n), now, labels) == st
  {
  }
}
