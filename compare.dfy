/**
  The compare screen: picking at most two sessions to show side by side,
  and the activity's own session list, which the edit dialog updates by id
  and the delete action shrinks in place.
 */
module Compare {
  import opened KotlinLists
  import opened Sessions

  // ---------------------------------------------------------------------
  // The selection
  // ---------------------------------------------------------------------

  /** No session is selected twice. */
  predicate NoDuplicates(sel: seq<Session>)
  {
    forall i, j :: 0 <= i < j < |sel| ==> sel[i] != sel[j]
  }

  /** What the selection may look like: at most two sessions, all different. */
  predicate ValidSelection(sel: seq<Session>)
  {
    |sel| <= 2 && NoDuplicates(sel)
  }

  /**
    A tap on a session's button: a selected session is deselected (its
    first copy removed), an unselected one is appended while fewer than two
    are selected, and otherwise the tap is ignored.
   */
  function Toggle(sel: seq<Session>, session: Session): (r: seq<Session>)
    ensures session in sel ==> |r| == |sel| - 1
    ensures session in sel ==> r == sel[..IndexOf(sel, session)] + sel[IndexOf(sel, session) + 1..]
    ensures session !in sel && |sel| < 2 ==> r == sel + [session]
    ensures session !in sel && |sel| >= 2 ==> r == sel
  {
    if session in sel then RemoveFirstCount(sel, session); RemoveFirstSpec(sel, session); RemoveFirst(sel, session)
    else if |sel| < 2 then sel + [session]
    else sel
  }

  /** Every tap keeps the selection valid, and a selected session is no longer selected after its tap. */
  lemma ToggleKeepsValid(sel: seq<Session>, session: Session)
    requires ValidSelection(sel)
    ensures ValidSelection(Toggle(sel, session))
    ensures session in sel ==> session !in Toggle(sel, session)
  {
    var r := Toggle(sel, session);
    if session in sel {
      RemoveFirstSpec(sel, session);
      var k := IndexOf(sel, session);
      assert r == sel[..k] + sel[k + 1..];
      forall i | 0 <= i < |r|
        ensures r[i] != session
      {
        var i' := if i < k then i else i + 1;
        assert r[i] == sel[i'] && i' != k;
      }
    }
  }

  /** Selecting a session and tapping it again restores the selection. */
  lemma ToggleTwice(sel: seq<Session>, session: Session)
    requires session !in sel && |sel| < 2
    ensures Toggle(Toggle(sel, session), session) == sel
  {
    var r := sel + [session];
    RemoveFirstSpec(r, session);
    assert IndexOf(r, session) == |sel| by {
      assert r[|sel|] == session && session !in r[..|sel|];
      IndexOfFirst(r, session, |sel|);
    }
    assert r[..|sel|] == sel;
  }

  /** indexOf is the first position holding the element. */
  lemma IndexOfFirst(xs: seq<Session>, x: Session, k: int)
    requires 0 <= k < |xs| && xs[k] == x && x !in xs[..k]
    ensures IndexOf(xs, x) == k
  {
  }

  /** What the screen shows under the list. */
  datatype Comparison =
    | SideBySide(first: Session, second: Session)
    | PleaseSelectTwo
    | NoComparison

  /** The comparison block renders with exactly 2 selected; 1 (or more) selected shows the hint. */
  function Shown(sel: seq<Session>): (r: Comparison)
    ensures r.SideBySide? <==> |sel| == 2
    ensures r.PleaseSelectTwo? <==> |sel| != 2 && sel != []
    ensures r.SideBySide? ==> r.first == sel[0] && r.second == sel[1]
  {
    if |sel| == 2 then SideBySide(sel[0], sel[1])
    else if sel != [] then PleaseSelectTwo
    else NoComparison
  }

  /** Two different sessions are always what the side-by-side view compares. */
  lemma SideBySideDistinct(sel: seq<Session>)
    requires ValidSelection(sel) && Shown(sel).SideBySide?
    ensures Shown(sel).first != Shown(sel).second
  {
  }

  // ---------------------------------------------------------------------
  // The session list
  // ---------------------------------------------------------------------

  /** `indexOfFirst { it.id == id }`: the first position with that id, or -1. */
  function IndexOfId(sessions: seq<Session>, id: string): (k: int)
    ensures -1 <= k < |sessions|
    ensures k >= 0 ==> sessions[k].id == id && forall j :: 0 <= j < k ==> sessions[j].id != id
    ensures k < 0 ==> forall j :: 0 <= j < |sessions| ==> sessions[j].id != id
  {
    if sessions == [] then -1
    else
      var k := IndexOfId(sessions[..|sessions| - 1], id);
      if k >= 0 then k
      else if sessions[|sessions| - 1].id == id then |sessions| - 1
      else -1
  }

  /** onUpdateSession on a list: the first session with the same id is replaced, or nothing changes. */
  function UpdateFirst(sessions: seq<Session>, updated: Session): (r: seq<Session>)
    ensures |r| == |sessions|
  {
    var k := IndexOfId(sessions, updated.id);
    if k >= 0 then sessions[k := updated] else sessions
  }

  /**
    Only the first matching position changes, and it now holds the update;
    a second identical update changes nothing more.
   */
  lemma UpdateFirstSpec(sessions: seq<Session>, updated: Session)
    ensures var r := UpdateFirst(sessions, updated);
      var k := IndexOfId(sessions, updated.id);
      && (k >= 0 ==> r[k] == updated && forall j :: 0 <= j < |r| && j != k ==> r[j] == sessions[j])
      && (k < 0 ==> r == sessions)
      && UpdateFirst(r, updated) == r
  {
    var r := UpdateFirst(sessions, updated);
    var k := IndexOfId(sessions, updated.id);
    if k >= 0 {
      assert forall j :: 0 <= j < k ==> r[j] == sessions[j];
      assert IndexOfId(r, updated.id) == k by {
        IndexOfIdAt(r, updated.id, k);
      }
    }
  }

  /** The first position holding an id is what indexOfFirst finds. */
  lemma IndexOfIdAt(sessions: seq<Session>, id: string, k: int)
    requires 0 <= k < |sessions| && sessions[k].id == id
    requires forall j :: 0 <= j < k ==> sessions[j].id != id
    ensures IndexOfId(sessions, id) == k
  {
  }

  /** The compare activity's own session list. */
  class CompareActivity {
    var sessions: seq<Session>

    /** onCreate, with the list passed in the intent. */
    constructor(received: seq<Session>)
      ensures sessions == received
    {
      sessions := received;
    }

    /** onDeleteSession: `sessions.remove(session)`, the first equal session taken out in place. */
    method OnDeleteSession(session: Session)
      modifies this
      ensures sessions == RemoveFirst(old(sessions), session)
      ensures session in old(sessions) ==> multiset(sessions) + multiset{session} == multiset(old(sessions))
      ensures session !in old(sessions) ==> sessions == old(sessions)
    {
      RemoveFirstSpec(sessions, session);
      var i := Position(session);
      if i >= 0 {
        RemoveFirstCount(sessions, session);
        sessions := sessions[..i] + sessions[i + 1..];
      }
    }

    /** The scan `remove` makes for the first equal session: its index, or -1. */
    method Position(session: Session) returns (i: int)
      ensures i == IndexOf(sessions, session)
    {
      i := 0;
      while i < |sessions| && sessions[i] != session
        invariant 0 <= i <= |sessions|
        invariant session !in sessions[..i]
      {
        assert sessions[..i + 1] == sessions[..i] + [sessions[i]];
        i := i + 1;
      }
      if i < |sessions| {
        IndexOfFirst(sessions, session, i);
      } else {
        assert sessions[..i] == sessions;
        i := -1;
      }
    }

    /**
      onUpdateSession: the first session with the update's id is replaced in
      place; `saved` says whether the list was saved and returned, which
      happens only when some id matched.
     */
    method OnUpdateSession(updated: Session) returns (saved: bool)
      modifies this
      ensures sessions == UpdateFirst(old(sessions), updated)
      ensures saved <==> exists j :: 0 <= j < |old(sessions)| && old(sessions)[j].id == updated.id
    {
      var index := 0;
      while index < |sessions| && sessions[index].id != updated.id
        invariant 0 <= index <= |sessions|
        invariant forall j :: 0 <= j < index ==> sessions[j].id != updated.id
      {
        index := index + 1;
      }
      if index < |sessions| {
        IndexOfIdAt(sessions, updated.id, index);
        sessions := sessions[index := updated];
        saved := true;
      } else {
        saved := false;
      }
    }
  }
}
