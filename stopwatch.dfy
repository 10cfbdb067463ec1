/**
  MainActivity's stopwatch as the app runs it: fields updated in place by
  the button handlers, the broadcast receivers and the operations they
  call. Each method is proved to move the fields exactly as the matching
  function of StopwatchSpec moves a State, and the handlers keep
  StopwatchSpec.Valid.
 */
module Stopwatch {
  import opened KotlinText
  import opened TimeFormat
  import opened Sessions
  import opened SessionSummary
  import opened Broadcasts
  import StopwatchSpec

  class MainActivity {
    /** The string resources the lap, sector and session texts are built from. */
    const labels: StopwatchSpec.Labels

    var lastStartLapClickTime: Long
    var lastSectorClickTime: Long
    var isRunning: bool
    var isPaused: bool
    var startTime: Long
    var pauseTime: Long
    var lapStartTime: Long
    var sectorStartTime: Long
    var bestLapTime: Long
    var worstLapTime: Long
    var lapCount: nat
    var sectorCount: nat
    var lapTimes: seq<string>
    var sectorTimes: seq<seq<string>>
    var currentLapSectors: seq<string>
    var sessions: seq<Session>
    /** The lap durations since the last stop, which the app keeps only as text. */
    ghost var lapDurations: seq<Long>

    /** The fields as one value. */
    ghost function State(): StopwatchSpec.State
      reads this
    {
      StopwatchSpec.State(
        lastStartLapClickTime, lastSectorClickTime, isRunning, isPaused,
        startTime, pauseTime, lapStartTime, sectorStartTime,
        bestLapTime, worstLapTime, lapCount, sectorCount,
        lapTimes, sectorTimes, currentLapSectors, sessions, lapDurations)
    }

    ghost predicate Valid()
      reads this
    {
      StopwatchSpec.Valid(State(), labels)
    }

    /** The field initialisers, with the sessions loaded from storage. */
    constructor(labels: StopwatchSpec.Labels, saved: seq<Session>)
      ensures this.labels == labels
      ensures State() == StopwatchSpec.Initial(saved)
      ensures Valid()
    {
      this.labels := labels;
      lastStartLapClickTime, lastSectorClickTime := 0, 0;
      isRunning, isPaused := false, false;
      startTime, pauseTime, lapStartTime, sectorStartTime := 0, 0, 0, 0;
      bestLapTime, worstLapTime := LONG_MAX, LONG_MIN;
      lapCount, sectorCount := 0, 0;
      lapTimes, sectorTimes, currentLapSectors := [], [], [];
      sessions := saved;
      lapDurations := [];
      new;
      StopwatchSpec.InitialValid(saved, labels);
    }

    method StartStopwatch(now: Long)
      modifies this
      ensures State() == StopwatchSpec.Start(old(State()), now)
    {
      if !isRunning {
        isRunning := true;
        isPaused := false;
        startTime := now;
        lapStartTime := startTime;
        sectorStartTime := startTime;
      }
    }

    method PauseStopwatch(now: Long)
      modifies this
      ensures State() == StopwatchSpec.Pause(old(State()), now)
    {
      if isRunning && !isPaused {
        isPaused := true;
        pauseTime := now;
      }
    }

    method ResumeStopwatch(now: Long)
      modifies this
      ensures State() == StopwatchSpec.Resume(old(State()), now)
    {
      if isRunning && isPaused {
        isPaused := false;
        var pauseDuration := LongSub(now, pauseTime);
        ShiftAnchors(pauseDuration);
      }
    }

    /** resumeStopwatch's `+=` on the three anchors, in Long arithmetic. */
    method ShiftAnchors(pauseDuration: Long)
      modifies this`startTime, this`lapStartTime, this`sectorStartTime
      ensures startTime == LongAdd(old(startTime), pauseDuration)
      ensures lapStartTime == LongAdd(old(lapStartTime), pauseDuration)
      ensures sectorStartTime == LongAdd(old(sectorStartTime), pauseDuration)
    {
      startTime := LongAdd(startTime, pauseDuration);
      lapStartTime := LongAdd(lapStartTime, pauseDuration);
      sectorStartTime := LongAdd(sectorStartTime, pauseDuration);
    }

    method StopStopwatch()
      modifies this
      ensures State() == StopwatchSpec.Stop(old(State()))
    {
      if isRunning {
        isRunning := false;
        isPaused := false;
        Clear();
      }
    }

    /** The clock anchors, best and worst, the counters and the lists back at their initial values. */
    method Clear()
      modifies this`startTime, this`pauseTime, this`lapStartTime, this`sectorStartTime, this`bestLapTime, this`worstLapTime
      modifies this`lapCount, this`sectorCount, this`lapTimes, this`sectorTimes, this`currentLapSectors, this`lapDurations
      ensures State() == StopwatchSpec.Cleared(old(State()))
    {
      ghost var s0 := State();
      ClearTimes();
      assert State() == s0.(startTime := 0, pauseTime := 0, lapStartTime := 0, sectorStartTime := 0,
        bestLapTime := LONG_MAX, worstLapTime := LONG_MIN);
      ClearLaps();
    }

    /** The clock anchors and the best and worst lap back at their initial values. */
    method ClearTimes()
      modifies this`startTime, this`pauseTime, this`lapStartTime, this`sectorStartTime, this`bestLapTime, this`worstLapTime
      ensures startTime == 0 && pauseTime == 0 && lapStartTime == 0 && sectorStartTime == 0
      ensures bestLapTime == LONG_MAX && worstLapTime == LONG_MIN
    {
      startTime, pauseTime, lapStartTime, sectorStartTime := 0, 0, 0, 0;
      bestLapTime, worstLapTime := LONG_MAX, LONG_MIN;
    }

    /** The counters and the lap and sector lists emptied. */
    method ClearLaps()
      modifies this`lapCount, this`sectorCount, this`lapTimes, this`sectorTimes, this`currentLapSectors, this`lapDurations
      ensures lapCount == 0 && sectorCount == 0
      ensures lapTimes == [] && sectorTimes == [] && currentLapSectors == [] && lapDurations == []
    {
      lapCount, sectorCount := 0, 0;
      lapTimes, sectorTimes, currentLapSectors := [], [], [];
      lapDurations := [];
    }

    method ResetStopwatchCompletely()
      modifies this
      ensures State() == StopwatchSpec.ResetCompletely(old(State()))
    {
      if isRunning || isPaused {
        StopStopwatch();
      }
      Clear();
    }

    method AddLap(now: Long)
      modifies this
      ensures State() == StopwatchSpec.AddLap(old(State()), now, labels)
    {
      if isRunning && !isPaused {
        ghost var s0 := State();
        var lapTime := LongSub(now, lapStartTime);
        RecordLap(lapTime);
        assert State() == s0.(bestLapTime := bestLapTime, worstLapTime := worstLapTime, lapCount := lapCount,
          lapTimes := lapTimes, lapDurations := lapDurations);
        StartNextLap(now);
      }
    }

    /** addLap's bookkeeping of the finished lap: best, worst, the counter and the lap text. */
    method RecordLap(lapTime: Long)
      modifies this`bestLapTime, this`worstLapTime, this`lapCount, this`lapTimes, this`lapDurations
      ensures bestLapTime == if lapTime < old(bestLapTime) then lapTime else old(bestLapTime)
      ensures worstLapTime == if lapTime > old(worstLapTime) then lapTime else old(worstLapTime)
      ensures lapCount == old(lapCount) + 1
      ensures lapTimes == old(lapTimes) + [StopwatchSpec.LapText(labels, lapCount, lapTime)]
      ensures lapDurations == old(lapDurations) + [lapTime]
    {
      if lapTime < bestLapTime {
        bestLapTime := lapTime;
      }
      if lapTime > worstLapTime {
        worstLapTime := lapTime;
      }
      lapCount := lapCount + 1;
      lapTimes := lapTimes + [StopwatchSpec.LapText(labels, lapCount, lapTime)];
      lapDurations := lapDurations + [lapTime];
    }

    /** addLap's hand-over to the next lap: the buffered sectors are filed and both anchors restart at now. */
    method StartNextLap(now: Long)
      modifies this`sectorTimes, this`currentLapSectors, this`lapStartTime, this`sectorStartTime, this`sectorCount
      ensures sectorTimes == old(sectorTimes) + [old(currentLapSectors)] && currentLapSectors == []
      ensures lapStartTime == now && sectorStartTime == now && sectorCount == 0
    {
      sectorTimes := sectorTimes + [currentLapSectors];
      currentLapSectors := [];
      lapStartTime := now;
      sectorStartTime := lapStartTime;
      sectorCount := 0;
    }

    method AddSector(now: Long)
      modifies this
      ensures State() == StopwatchSpec.AddSector(old(State()), now, labels)
    {
      if isRunning && !isPaused {
        var sectorTime := LongSub(now, sectorStartTime);
        RecordSector(sectorTime, now);
      }
    }

    /** addSector's update: the counter, the sector text in the current lap's buffer and the sector anchor. */
    method RecordSector(sectorTime: Long, now: Long)
      modifies this`sectorCount, this`currentLapSectors, this`sectorStartTime
      ensures sectorCount == old(sectorCount) + 1
      ensures currentLapSectors == old(currentLapSectors) + [StopwatchSpec.SectorText(labels, sectorCount, sectorTime)]
      ensures sectorStartTime == now
    {
      sectorCount := sectorCount + 1;
      currentLapSectors := currentLapSectors + [StopwatchSpec.SectorText(labels, sectorCount, sectorTime)];
      sectorStartTime := now;
    }

    method SaveSession(now: Long, ctx: SaveContext)
      modifies this
      ensures State() == StopwatchSpec.SaveSession(old(State()), now, labels, ctx)
    {
      if lapTimes == [] && sectorTimes == [] {
        return;
      }
      if AlreadySaved(sessions, lapTimes, sectorTimes) {
        return;
      }
      FlushSector(now);
      AppendSession(ctx);
    }

    /** saveSession's call of addSector when a sector is under way. */
    method FlushSector(now: Long)
      modifies this
      ensures State() == StopwatchSpec.FlushSector(old(State()), now, labels)
    {
      if isRunning && !isPaused && sectorStartTime != lapStartTime {
        AddSector(now);
      }
    }

    /** saveSession's `sessions.add(session)`. */
    method AppendSession(ctx: SaveContext)
      modifies this`sessions
      ensures State() == StopwatchSpec.AppendSession(old(State()), labels, ctx)
    {
      var name := labels.sessionName(|sessions| + 1);
      sessions := sessions + [SummarySession(ctx, name, lapTimes, sectorTimes)];
    }

    /** The start/stop button's click listener. */
    method ClickStartStop(now: Long)
      requires Valid()
      modifies this
      ensures State() == StopwatchSpec.ClickStartStop(old(State()), now)
      ensures Valid()
    {
      StopwatchSpec.ClickStartStopValid(State(), now, labels);
      if LongSub(now, lastStartLapClickTime) > StopwatchSpec.START_LAP_DEBOUNCE {
        lastStartLapClickTime := now;
        if isRunning {
          if isPaused {
            ResumeStopwatch(now);
          } else {
            PauseStopwatch(now);
          }
        } else {
          StartStopwatch(now);
        }
      }
    }

    /** The lap button's click listener. */
    method ClickLap(now: Long)
      requires Valid()
      modifies this
      ensures State() == StopwatchSpec.ClickLap(old(State()), now, labels)
      ensures Valid()
    {
      StopwatchSpec.ClickLapValid(State(), now, labels);
      if LongSub(now, lastStartLapClickTime) > StopwatchSpec.START_LAP_DEBOUNCE {
        lastStartLapClickTime := now;
        AddLap(now);
      }
    }

    /** The sector button's click listener. */
    method ClickSector(now: Long)
      requires Valid()
      modifies this
      ensures State() == StopwatchSpec.ClickSector(old(State()), now, labels)
      ensures Valid()
    {
      StopwatchSpec.ClickSectorValid(State(), now, labels);
      if LongSub(now, lastSectorClickTime) > StopwatchSpec.SECTOR_DEBOUNCE {
        lastSectorClickTime := now;
        AddSector(now);
      }
    }

    /** The reset button's click listener, with the dialog's answer as a parameter. */
    method ClickReset(choice: StopwatchSpec.ResetChoice, now: Long, ctx: SaveContext)
      requires Valid()
      modifies this
      ensures State() == StopwatchSpec.ClickReset(old(State()), choice, now, labels, ctx)
      ensures Valid()
    {
      StopwatchSpec.ClickResetValid(State(), choice, now, labels, ctx);
      if isRunning || isPaused {
        match choice
        case SaveAndReset =>
          SaveSession(now, ctx);
          ResetStopwatchCompletely();
        case JustReset =>
          ResetStopwatchCompletely();
        case Cancel =>
      } else {
        ResetStopwatchCompletely();
      }
    }

    /** The START_LAP and LAP receivers perform a click; nothing listens for SECTOR. */
    method Receive(intent: Broadcast, now: Long)
      requires Valid()
      modifies this
      ensures State() == StopwatchSpec.Receive(old(State()), intent, now, labels)
      ensures Valid()
    {
      match intent
      case StartLap => ClickStartStop(now);
      case Lap => ClickLap(now);
      case Sector(_) =>
    }
  }
}
