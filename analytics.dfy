/**
  The analytics screen's list rules: which saved session has the fastest
  and which the slowest lap, deleting a session and renaming one by id.
  Its parseTime is a textual copy of MainActivity's and is TimeFormat.ParseTime.
 */
module Analytics {
  import opened KotlinText
  import opened KotlinLists
  import opened TimeFormat
  import opened Sessions

  /** The key `minByOrNull` compares: the fastest lap in milliseconds, Long.MAX_VALUE when unreadable. */
  function FastestKey(s: Session): int
  {
    ParseTime(s.fastestLap)
  }

  /** The key `maxByOrNull` compares: the slowest lap in milliseconds, Long.MAX_VALUE when unreadable. */
  function SlowestKey(s: Session): int
  {
    ParseTime(s.slowestLap)
  }

  /** The screen's `fastestSession` and `slowestSession` state. */
  datatype Extremes = Extremes(fastest: Option<Session>, slowest: Option<Session>)

  /** `minByOrNull { parseTime(it.fastestLap) }` on a non-empty list: the first session with the least key. */
  function Fastest(sessions: seq<Session>): (r: Session)
    requires sessions != []
    ensures exists k ::
      0 <= k < |sessions| && r == sessions[k] &&
      (forall j :: 0 <= j < |sessions| ==> FastestKey(sessions[k]) <= FastestKey(sessions[j])) &&
      (forall j :: 0 <= j < k ==> FastestKey(sessions[j]) > FastestKey(sessions[k]))
  {
    var k := MinBy(sessions, FastestKey);
    sessions[k]
  }

  /** `maxByOrNull { parseTime(it.slowestLap) }` on a non-empty list: the first session with the greatest key. */
  function Slowest(sessions: seq<Session>): (r: Session)
    requires sessions != []
    ensures exists k ::
      0 <= k < |sessions| && r == sessions[k] &&
      (forall j :: 0 <= j < |sessions| ==> SlowestKey(sessions[j]) <= SlowestKey(sessions[k])) &&
      (forall j :: 0 <= j < k ==> SlowestKey(sessions[j]) < SlowestKey(sessions[k]))
  {
    var k := MaxBy(sessions, SlowestKey);
    sessions[k]
  }

  /**
    The LaunchedEffect on the session list: both picks recomputed on a
    non-empty list; an empty list leaves them as they were.
   */
  function Recompute(prev: Extremes, sessions: seq<Session>): (r: Extremes)
    ensures sessions == [] ==> r == prev
    ensures sessions != [] ==> r.fastest.Some? && r.slowest.Some? && r.fastest.value in sessions && r.slowest.value in sessions
  {
    if sessions == [] then prev
    else Extremes(Some(Fastest(sessions)), Some(Slowest(sessions)))
  }

  /** A session whose fastest lap cannot be read ("N/A") is the fastest only when no session's can be. */
  lemma {:induction false} UnreadableFastest(prev: Extremes, sessions: seq<Session>)
    requires sessions != [] && !Parseable(Recompute(prev, sessions).fastest.value.fastestLap)
    ensures forall j :: 0 <= j < |sessions| ==> !Parseable(sessions[j].fastestLap)
  {
    var f := Fastest(sessions);
    ParseTimeSpec(f.fastestLap);
    forall j | 0 <= j < |sessions|
      ensures !Parseable(sessions[j].fastestLap)
    {
      ParseTimeSpec(sessions[j].fastestLap);
    }
  }

  /** When some session's slowest lap cannot be read ("N/A"), the first such session is the slowest. */
  lemma {:induction false} UnreadableSlowest(prev: Extremes, sessions: seq<Session>, i: int)
    requires 0 <= i < |sessions| && !Parseable(sessions[i].slowestLap)
    requires forall j :: 0 <= j < i ==> Parseable(sessions[j].slowestLap)
    ensures Recompute(prev, sessions).slowest == Some(sessions[i])
  {
    var k :| 0 <= k < |sessions| && Slowest(sessions) == sessions[k] &&
      (forall j :: 0 <= j < |sessions| ==> SlowestKey(sessions[j]) <= SlowestKey(sessions[k])) &&
      (forall j :: 0 <= j < k ==> SlowestKey(sessions[j]) < SlowestKey(sessions[k]));
    ParseTimeSpec(sessions[i].slowestLap);
    ParseTimeSpec(sessions[k].slowestLap);
  }

  /** The delete button: `localSessions - session`, the first equal session removed. */
  function DeleteSession(sessions: seq<Session>, session: Session): (r: seq<Session>)
    ensures session !in sessions ==> r == sessions
    ensures session in sessions ==> |r| == |sessions| - 1 && multiset(r) + multiset{session} == multiset(sessions)
    ensures session in sessions ==> r == sessions[..IndexOf(sessions, session)] + sessions[IndexOf(sessions, session) + 1..]
  {
    RemoveFirstSpec(sessions, session);
    if session in sessions then RemoveFirstCount(sessions, session); RemoveFirst(sessions, session)
    else RemoveFirst(sessions, session)
  }

  /**
    Deleting the only session leaves the fastest and slowest picks showing
    the deleted session: the recomputation skips empty lists.
   */
  lemma DeleteLastKeepsPicks(session: Session)
    ensures var prev := Recompute(Extremes(None, None), [session]);
      && prev == Extremes(Some(session), Some(session))
      && Recompute(prev, DeleteSession([session], session)) == prev
  {
    var prev := Recompute(Extremes(None, None), [session]);
    assert prev.fastest == Some(session) && prev.slowest == Some(session);
  }

  /**
    The rename dialog's Save: every session with the selected session's id
    becomes the selected session (as it was when the dialog opened) under
    the new name.
   */
  function RenameSession(sessions: seq<Session>, selected: Session, newName: string): (r: seq<Session>)
    ensures |r| == |sessions|
    ensures forall i :: 0 <= i < |r| ==> r[i].id == sessions[i].id
    ensures forall i :: 0 <= i < |r| && sessions[i].id != selected.id ==> r[i] == sessions[i]
    ensures forall i :: 0 <= i < |r| && sessions[i].id == selected.id ==> r[i] == selected.(name := newName)
  {
    seq(|sessions|, i requires 0 <= i < |sessions| =>
      if sessions[i].id == selected.id then selected.(name := newName) else sessions[i])
  }

  /** Saving the same name twice changes nothing the second time. */
  lemma RenameIdempotent(sessions: seq<Session>, selected: Session, newName: string)
    ensures RenameSession(RenameSession(sessions, selected, newName), selected, newName)
      == RenameSession(sessions, selected, newName)
  {
    var once := RenameSession(sessions, selected, newName);
    var twice := RenameSession(once, selected, newName);
    assert forall i :: 0 <= i < |once| ==> twice[i] == once[i];
  }

  /** With no session carrying the selected id, Save changes nothing. */
  lemma RenameUnknownId(sessions: seq<Session>, selected: Session, newName: string)
    requires forall i :: 0 <= i < |sessions| ==> sessions[i].id != selected.id
    ensures RenameSession(sessions, selected, newName) == sessions
  {
  }
}
