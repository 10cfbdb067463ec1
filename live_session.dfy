/**
  LiveSession.kt: how a live session's sectors are written to the realtime
  database (toFirebaseFormat, inside toMap) and how a session is read back
  from a DataSnapshot (fromSnapshot with parseStringList, parseParticipants
  and parseSectors).

  A snapshot is a tree: a leaf holding a string, a number or a boolean, or a
  node whose children are listed in the order `snapshot.children` visits
  them. The database lists keys that are 32-bit integers first, in numeric
  order, so the lists written here come back in index order. Reading a
  value as a type it does not have gives `null` here.
 */
module LiveSessions {
  import opened KotlinText

  datatype Value = Text(text: string) | Number(number: Long) | Flag(flag: bool)

  datatype Tree = Leaf(value: Value) | Node(children: seq<Entry>)

  datatype Entry = Entry(key: string, tree: Tree)

  /** `snapshot.children`: a leaf has none. */
  function Children(t: Tree): seq<Entry>
  {
    if t.Node? then t.children else []
  }

  /** The first entry under `key`, or an empty snapshot when there is none. */
  function Find(es: seq<Entry>, key: string): (t: Tree)
    ensures (forall i :: 0 <= i < |es| ==> es[i].key != key) ==> t == Node([])
  {
    if es == [] then Node([])
    else if es[0].key == key then es[0].tree
    else Find(es[1..], key)
  }

  /** The entry at index i is found when no earlier entry has its key. */
  lemma {:induction false} FindAt(es: seq<Entry>, i: int)
    requires 0 <= i < |es| && forall j :: 0 <= j < i ==> es[j].key != es[i].key
    ensures Find(es, es[i].key) == es[i].tree
  {
    if i > 0 {
      var rest := es[1..];
      assert es[0].key != es[i].key;
      assert forall j :: 0 <= j < i - 1 ==> rest[j] == es[j + 1];
      FindAt(rest, i - 1);
    }
  }

  /** `snapshot.child(key)`. */
  function Child(t: Tree, key: string): Tree
  {
    Find(Children(t), key)
  }

  /** `getValue(String::class.java)`. */
  function GetString(t: Tree): Option<string>
  {
    if t.Leaf? && t.value.Text? then Some(t.value.text) else None
  }

  /** `getValue(Long::class.java)`. */
  function GetLong(t: Tree): Option<Long>
  {
    if t.Leaf? && t.value.Number? then Some(t.value.number) else None
  }

  /** `getValue(Boolean::class.java)`. */
  function GetBool(t: Tree): Option<bool>
  {
    if t.Leaf? && t.value.Flag? then Some(t.value.flag) else None
  }

  /** `getValue(String::class.java) ?: default`. */
  function StringOr(t: Tree, default: string): string
  {
    match GetString(t)
    case Some(s) => s
    case None => default
  }

  /** A Kotlin list of strings as the database stores it: one child per index, keyed by the index. */
  function ListNode(xs: seq<string>): Tree
  {
    Node(seq(|xs|, i requires 0 <= i < |xs| => Entry(NatToString(i), Leaf(Text(xs[i])))))
  }

  // ---------------------------------------------------------------------
  // parseStringList and parseParticipants
  // ---------------------------------------------------------------------

  /** `children.mapNotNull { it.getValue(String::class.java) }`: the string children, in order. */
  function Texts(es: seq<Entry>): (r: seq<string>)
    ensures |r| <= |es|
  {
    if es == [] then []
    else Texts(es[..|es| - 1]) + TextOf(es[|es| - 1])
  }

  /** The string an entry contributes to Texts: none, or one. */
  function TextOf(e: Entry): seq<string>
  {
    match GetString(e.tree) case Some(s) => [s] case None => []
  }

  /** Texts grows one entry at a time. */
  lemma TextsSnoc(es: seq<Entry>, j: int)
    requires 0 <= j < |es|
    ensures Texts(es[..j + 1]) == Texts(es[..j]) + TextOf(es[j])
  {
    assert es[..j + 1][..j] == es[..j];
  }

  /** When every child holds a string, Texts keeps them all, in order. */
  lemma {:induction false} TextsAll(es: seq<Entry>)
    requires forall i :: 0 <= i < |es| ==> GetString(es[i].tree).Some?
    ensures |Texts(es)| == |es|
    ensures forall i :: 0 <= i < |es| ==> Texts(es)[i] == GetString(es[i].tree).value
  {
    if es != [] {
      var init := es[..|es| - 1];
      assert forall i :: 0 <= i < |init| ==> init[i] == es[i];
      TextsAll(init);
    }
  }

  function ParseStringList(t: Tree): seq<string>
  {
    Texts(Children(t))
  }

  /** A list written by the app reads back as itself. */
  lemma {:induction false} StringListReadsBack(xs: seq<string>)
    ensures ParseStringList(ListNode(xs)) == xs
  {
    var es := Children(ListNode(xs));
    assert forall i :: 0 <= i < |es| ==> GetString(es[i].tree) == Some(xs[i]);
    TextsAll(es);
  }

  /**
    `children.associate { it.key to (it.getValue(String::class.java) ?: "") }`:
    one entry per key, a later child overriding an earlier one.
   */
  function Associate(es: seq<Entry>): (r: map<string, string>)
    ensures forall k :: k in r <==> exists i :: 0 <= i < |es| && es[i].key == k
  {
    if es == [] then map[]
    else
      var init := es[..|es| - 1];
      var last := es[|es| - 1];
      assert forall i :: 0 <= i < |init| ==> init[i] == es[i];
      Associate(init)[last.key := StringOr(last.tree, "")]
  }

  function ParseParticipants(t: Tree): map<string, string>
  {
    Associate(Children(t))
  }

  /** A key maps to the value of its last child, `""` when that child holds no string. */
  lemma {:induction false} AssociateLast(es: seq<Entry>, i: int)
    requires 0 <= i < |es|
    requires forall j :: i < j < |es| ==> es[j].key != es[i].key
    ensures es[i].key in Associate(es) && Associate(es)[es[i].key] == StringOr(es[i].tree, "")
  {
    var init := es[..|es| - 1];
    if i < |es| - 1 {
      assert forall j :: i < j < |init| ==> init[j] == es[j];
      AssociateLast(init, i);
    }
  }

  /** The participants node the app writes, its keys stored in the order `order`. */
  function ParticipantsNode(participants: map<string, string>, order: seq<string>): Tree
    requires forall i :: 0 <= i < |order| ==> order[i] in participants
  {
    Node(seq(|order|, i requires 0 <= i < |order| => Entry(order[i], Leaf(Text(participants[order[i]])))))
  }

  /** In whatever order its keys are stored, the participants map reads back as itself. */
  lemma ParticipantsReadBack(participants: map<string, string>, order: seq<string>)
    requires forall k :: k in participants <==> k in order
    ensures ParseParticipants(ParticipantsNode(participants, order)) == participants
  {
    var es := Children(ParticipantsNode(participants, order));
    AssociatePrefix(participants, order, es, |order|);
    assert es[..|order|] == es;
    var r := Associate(es);
    assert forall k :: k in r <==> k in participants;
    assert r.Keys == participants.Keys;
  }

  lemma {:induction false} AssociatePrefix(participants: map<string, string>, order: seq<string>, es: seq<Entry>, j: int)
    requires forall k :: k in order ==> k in participants
    requires es == Children(ParticipantsNode(participants, order))
    requires 0 <= j <= |order|
    ensures forall k :: k in Associate(es[..j]) <==> k in order[..j]
    ensures forall k :: k in Associate(es[..j]) ==> Associate(es[..j])[k] == participants[k]
  {
    if j > 0 {
      AssociatePrefix(participants, order, es, j - 1);
      assert es[..j][..j - 1] == es[..j - 1];
      assert order[..j] == order[..j - 1] + [order[j - 1]];
    }
  }

  // ---------------------------------------------------------------------
  // toFirebaseFormat
  // ---------------------------------------------------------------------

  /** No lap has a sector. */
  predicate AllEmpty(s: seq<seq<string>>)
  {
    forall i :: 0 <= i < |s| ==> s[i] == []
  }

  /** The `{"empty": true}` marker. */
  const EMPTY_MARKER: Tree := Node([Entry("empty", Leaf(Flag(true)))])

  /** The laps that have sectors, keyed by their index, each mapping sector index to sector text. */
  function LapEntries(s: seq<seq<string>>): (es: seq<Entry>)
    ensures |es| <= |s|
  {
    if s == [] then []
    else
      var last := s[|s| - 1];
      LapEntries(s[..|s| - 1]) + if last != [] then [Entry(NatToString(|s| - 1), ListNode(last))] else []
  }

  /** Some lap is written exactly when some lap has a sector. */
  lemma {:induction false} LapEntriesEmpty(s: seq<seq<string>>)
    ensures LapEntries(s) == [] <==> AllEmpty(s)
  {
    if s != [] {
      var init := s[..|s| - 1];
      assert forall i :: 0 <= i < |init| ==> init[i] == s[i];
      LapEntriesEmpty(init);
    }
  }

  function ToFirebaseFormat(s: seq<seq<string>>): Tree
  {
    if s == [] || AllEmpty(s) then EMPTY_MARKER else Node(LapEntries(s))
  }

  /** The marker is written exactly when no lap has a sector. */
  lemma MarkerIffNoSectors(s: seq<seq<string>>)
    ensures ToFirebaseFormat(s) == EMPTY_MARKER <==> AllEmpty(s)
  {
    if !AllEmpty(s) {
      LapEntriesEmpty(s);
      var es := LapEntries(s);
      assert es[0].key != "empty" by {
        LapEntryKeys(s, 0);
      }
    }
  }

  /**
    Entry k of the written laps is keyed by the decimal index of a lap that
    has sectors, holds that lap's sectors in order, and the indexes grow.
   */
  lemma {:induction false} LapEntryKeys(s: seq<seq<string>>, k: int)
    requires 0 <= k < |LapEntries(s)|
    ensures var e := LapEntries(s)[k];
      exists i :: 0 <= i < |s| && s[i] != [] && e == Entry(NatToString(i), ListNode(s[i]))
           && (k > 0 ==> LapIndex(LapEntries(s)[k - 1]) < i)
  {
    var init := s[..|s| - 1];
    var es := LapEntries(s);
    if k < |LapEntries(init)| {
      LapEntryKeys(init, k);
      assert es[k] == LapEntries(init)[k];
      if k > 0 {
        assert es[k - 1] == LapEntries(init)[k - 1];
      }
    } else {
      assert es[k] == Entry(NatToString(|s| - 1), ListNode(s[|s| - 1]));
      if k > 0 {
        LapEntryKeys(init, k - 1);
        assert es[k - 1] == LapEntries(init)[k - 1];
      }
    }
  }

  /** The index a key written by LapEntries stands for. */
  function LapIndex(e: Entry): int
  {
    if AllDigits(e.key) then DigitsValue(e.key) else -1
  }

  // ---------------------------------------------------------------------
  // parseSectors
  // ---------------------------------------------------------------------

  /** lapCount empty lists, as `repeat(lapCount) { result.add(mutableListOf()) }` leaves them. */
  function Blank(n: nat): (r: seq<seq<string>>)
    ensures |r| == n && AllEmpty(r)
  {
    seq(n, i => [])
  }

  /**
    One lap entry applied to the lists read so far: a key that is not an
    Int or not below lapCount is skipped; otherwise the entry's string
    children are appended to that lap's list. A negative key passes the
    guard, and its first string child indexes out of bounds: `None`.
   */
  function ApplyLap(acc: seq<seq<string>>, e: Entry, lapCount: nat): (r: Option<seq<seq<string>>>)
    requires |acc| == lapCount
    ensures r.Some? ==> |r.value| == lapCount
  {
    match ToIntOrNull(e.key)
    case None => Some(acc)
    case Some(i) =>
      if i >= lapCount then Some(acc)
      else if i < 0 then (if Texts(Children(e.tree)) == [] then Some(acc) else None)
      else Some(acc[i := acc[i] + Texts(Children(e.tree))])
  }

  /** parseSectors as a fold over the entries in the order they are visited. */
  function SectorsOf(es: seq<Entry>, lapCount: nat): (r: Option<seq<seq<string>>>)
    ensures r.Some? ==> |r.value| == lapCount
  {
    if es == [] then Some(Blank(lapCount))
    else
      match SectorsOf(es[..|es| - 1], lapCount)
      case None => None
      case Some(acc) => ApplyLap(acc, es[|es| - 1], lapCount)
  }

  /** Once an entry has failed, the whole read fails. */
  lemma {:induction false} SectorsOfFailed(es: seq<Entry>, i: int, lapCount: nat)
    requires 0 <= i <= |es| && SectorsOf(es[..i], lapCount) == None
    ensures SectorsOf(es, lapCount) == None
    decreases |es| - i
  {
    if i < |es| {
      assert es[..i + 1][..i] == es[..i];
      SectorsOfFailed(es, i + 1, lapCount);
    } else {
      assert es[..i] == es;
    }
  }

  /** parseSectors(snapshot, lapCount), in place on a local list of lists. */
  method ParseSectors(snapshot: Tree, lapCount: nat) returns (r: Option<seq<seq<string>>>)
    ensures r == SectorsOf(Children(snapshot), lapCount)
    ensures r.Some? ==> |r.value| == lapCount
  {
    var result: seq<seq<string>> := [];
    var n := 0;
    while n < lapCount
      invariant 0 <= n <= lapCount && result == Blank(n)
    {
      result := result + [[]];
      n := n + 1;
    }
    var entries := Children(snapshot);
    var i := 0;
    while i < |entries|
      invariant 0 <= i <= |entries|
      invariant SectorsOf(entries[..i], lapCount) == Some(result)
    {
      assert entries[..i + 1][..i] == entries[..i];
      var next := ReadLapEntry(result, entries[i], lapCount);
      if next.None? {
        SectorsOfFailed(entries, i + 1, lapCount);
        return None;
      }
      result := next.value;
      i := i + 1;
    }
    assert entries[..i] == entries;
    r := Some(result);
  }

  /** One `lapEntry` of parseSectors' outer forEach: its string children appended one by one. */
  method ReadLapEntry(result: seq<seq<string>>, lapEntry: Entry, lapCount: nat) returns (r: Option<seq<seq<string>>>)
    requires |result| == lapCount
    ensures r == ApplyLap(result, lapEntry, lapCount)
  {
    var key := ToIntOrNull(lapEntry.key);
    if key.None? || key.value >= lapCount {
      return Some(result);
    }
    var lapIndex := key.value;
    var sectors := Children(lapEntry.tree);
    var acc := result;
    var j := 0;
    assert sectors[..0] == [];
    if lapIndex >= 0 {
      assert result[lapIndex] + [] == result[lapIndex];
      assert result[lapIndex := result[lapIndex]] == result;
    }
    while j < |sectors|
      invariant 0 <= j <= |sectors|
      invariant lapIndex >= 0 ==> acc == result[lapIndex := result[lapIndex] + Texts(sectors[..j])]
      invariant lapIndex < 0 ==> acc == result && Texts(sectors[..j]) == []
    {
      TextsSnoc(sectors, j);
      var s := GetString(sectors[j].tree);
      if s.Some? {
        if lapIndex < 0 {
          TextsGrow(sectors, j + 1);
          return None;
        }
        ghost var before := result[lapIndex] + Texts(sectors[..j]);
        assert acc[lapIndex] == before;
        acc := acc[lapIndex := acc[lapIndex] + [s.value]];
        assert acc == result[lapIndex := before + [s.value]];
        assert before + [s.value] == result[lapIndex] + Texts(sectors[..j + 1]);
      } else {
        assert Texts(sectors[..j]) + [] == Texts(sectors[..j]);
        assert Texts(sectors[..j + 1]) == Texts(sectors[..j]);
      }
      j := j + 1;
    }
    assert sectors[..j] == sectors;
    return Some(acc);
  }

  /** A prefix with a string child keeps a non-empty reading when the list grows. */
  lemma {:induction false} TextsGrow(es: seq<Entry>, j: int)
    requires 0 < j <= |es| && Texts(es[..j]) != []
    ensures Texts(es) != []
    decreases |es| - j
  {
    if j < |es| {
      assert es[..j + 1][..j] == es[..j];
      TextsGrow(es, j + 1);
    } else {
      assert es[..j] == es;
    }
  }

  /** The first n laps of s, padded with empty lists when s has fewer. */
  function Fit(s: seq<seq<string>>, n: nat): seq<seq<string>>
  {
    seq(n, i requires 0 <= i < n => if i < |s| then s[i] else [])
  }

  /**
    Round trip: the sectors written by toFirebaseFormat read back as the
    first lapCount laps, padded with empty lists; in particular as s itself
    when lapCount == |s|.
   */
  lemma SectorsReadBack(s: seq<seq<string>>, lapCount: nat)
    requires |s| <= INT_MAX
    ensures SectorsOf(Children(ToFirebaseFormat(s)), lapCount) == Some(Fit(s, lapCount))
  {
    if s == [] || AllEmpty(s) {
      var es := Children(EMPTY_MARKER);
      assert es[..0] == [];
      assert ToIntOrNull("empty") == None;
      assert Blank(lapCount) == Fit(s, lapCount);
    } else {
      LapEntriesReadBack(s, |s|, lapCount);
      assert s[..|s|] == s;
    }
  }

  /** With lapCount equal to the number of laps, the written sectors read back unchanged. */
  lemma {:induction false} SectorsReadBackExactly(s: seq<seq<string>>)
    requires |s| <= INT_MAX
    ensures SectorsOf(Children(ToFirebaseFormat(s)), |s|) == Some(s)
  {
    SectorsReadBack(s, |s|);
    assert Fit(s, |s|) == s;
  }

  lemma {:induction false} LapEntriesReadBack(s: seq<seq<string>>, k: int, lapCount: nat)
    requires |s| <= INT_MAX && 0 <= k <= |s|
    ensures SectorsOf(LapEntries(s[..k]), lapCount) == Some(Fit(s[..k], lapCount))
  {
    if k == 0 {
      assert Blank(lapCount) == Fit(s[..0], lapCount);
    } else {
      LapEntriesReadBack(s, k - 1, lapCount);
      if s[k - 1] == [] {
        EmptyLapWritesNothing(s, k, lapCount);
      } else {
        var e := Entry(NatToString(k - 1), ListNode(s[k - 1]));
        LapEntriesSnoc(s, k);
        SectorsOfSnoc(LapEntries(s[..k - 1]), e, lapCount);
        WrittenLapReadBack(s, k, lapCount);
      }
    }
  }

  /** A lap without sectors adds no entry and leaves the fitted lists as they were. */
  lemma EmptyLapWritesNothing(s: seq<seq<string>>, k: int, lapCount: nat)
    requires 0 < k <= |s| && s[k - 1] == []
    ensures LapEntries(s[..k]) == LapEntries(s[..k - 1])
    ensures Fit(s[..k], lapCount) == Fit(s[..k - 1], lapCount)
  {
    var p := s[..k];
    assert p[..k - 1] == s[..k - 1];
    assert forall i :: 0 <= i < lapCount ==> Fit(p, lapCount)[i] == Fit(s[..k - 1], lapCount)[i];
  }

  /** A lap with sectors adds its entry, keyed by its index, after the earlier ones. */
  lemma LapEntriesSnoc(s: seq<seq<string>>, k: int)
    requires 0 < k <= |s| && s[k - 1] != []
    ensures LapEntries(s[..k]) == LapEntries(s[..k - 1]) + [Entry(NatToString(k - 1), ListNode(s[k - 1]))]
  {
    var p := s[..k];
    assert p[..k - 1] == s[..k - 1];
  }

  /** Reading one more entry applies it to what the earlier entries gave. */
  lemma SectorsOfSnoc(es: seq<Entry>, e: Entry, lapCount: nat)
    ensures SectorsOf(es + [e], lapCount)
      == match SectorsOf(es, lapCount) case None => None case Some(acc) => ApplyLap(acc, e, lapCount)
  {
    assert (es + [e])[..|es|] == es;
  }

  /** The entry written for lap k - 1 fills exactly that lap's list. */
  lemma WrittenLapReadBack(s: seq<seq<string>>, k: int, lapCount: nat)
    requires |s| <= INT_MAX && 0 < k <= |s|
    ensures ApplyLap(Fit(s[..k - 1], lapCount), Entry(NatToString(k - 1), ListNode(s[k - 1])), lapCount)
      == Some(Fit(s[..k], lapCount))
  {
    var e := Entry(NatToString(k - 1), ListNode(s[k - 1]));
    ToIntOrNullOfNatToString(k - 1);
    StringListReadsBack(s[k - 1]);
    ApplyLapAt(Fit(s[..k - 1], lapCount), e, lapCount, k - 1, s[k - 1]);
    FitSnoc(s, k, lapCount);
  }

  /** An entry keyed by a non-negative index appends its strings to that lap, when there is one. */
  lemma ApplyLapAt(acc: seq<seq<string>>, e: Entry, lapCount: nat, i: int, xs: seq<string>)
    requires |acc| == lapCount && 0 <= i
    requires ToIntOrNull(e.key) == Some(i) && Texts(Children(e.tree)) == xs
    ensures ApplyLap(acc, e, lapCount) == if i < lapCount then Some(acc[i := acc[i] + xs]) else Some(acc)
  {
  }

  /** Fitting one more lap fills that lap's slot, which was empty. */
  lemma FitSnoc(s: seq<seq<string>>, k: int, n: nat)
    requires 0 < k <= |s|
    ensures k - 1 < n ==> Fit(s[..k - 1], n)[k - 1] == [] && Fit(s[..k], n) == Fit(s[..k - 1], n)[k - 1 := [] + s[k - 1]]
    ensures k - 1 >= n ==> Fit(s[..k], n) == Fit(s[..k - 1], n)
  {
    var a, b := Fit(s[..k - 1], n), Fit(s[..k], n);
    assert [] + s[k - 1] == s[k - 1];
    if k - 1 < n {
      assert forall i :: 0 <= i < n ==> b[i] == a[k - 1 := s[k - 1]][i];
    } else {
      assert forall i :: 0 <= i < n ==> b[i] == a[i];
    }
  }

  /** parseSectors never returns other than lapCount lists. */
  lemma SectorsCount(es: seq<Entry>, lapCount: nat)
    ensures SectorsOf(es, lapCount).Some? ==> |SectorsOf(es, lapCount).value| == lapCount
  {
  }

  /** Keys that are not Int numbers, such as the marker's "empty", and keys from lapCount on are skipped. */
  lemma SkippedKeys(acc: seq<seq<string>>, e: Entry, lapCount: nat)
    requires |acc| == lapCount
    requires ToIntOrNull(e.key).None? || ToIntOrNull(e.key).value >= lapCount
    ensures ApplyLap(acc, e, lapCount) == Some(acc)
  {
  }

  // ---------------------------------------------------------------------
  // LiveSession, toMap and fromSnapshot
  // ---------------------------------------------------------------------

  datatype LiveSession = LiveSession(
    sessionId: string,
    hostId: string,
    hostName: string,
    sessionName: string,
    participants: map<string, string>,
    laps: seq<string>,
    sectors: seq<seq<string>>,
    timestamp: Long,
    isActive: bool,
    location: string,
    bestLap: string,
    worstLap: string,
    totalTime: string,
    createdAt: Long)

  /**
    toMap as the database stores it, the participants' keys in the order
    `order`.
   */
  function ToMap(ls: LiveSession, order: seq<string>): Tree
    requires forall i :: 0 <= i < |order| ==> order[i] in ls.participants
  {
    Node([
      Entry("sessionId", Leaf(Text(ls.sessionId))),
      Entry("hostId", Leaf(Text(ls.hostId))),
      Entry("hostName", Leaf(Text(ls.hostName))),
      Entry("sessionName", Leaf(Text(ls.sessionName))),
      Entry("participants", ParticipantsNode(ls.participants, order)),
      Entry("laps", ListNode(ls.laps)),
      Entry("sectors", ToFirebaseFormat(ls.sectors)),
      Entry("timestamp", Leaf(Number(ls.timestamp))),
      Entry("isActive", Leaf(Flag(ls.isActive))),
      Entry("location", Leaf(Text(ls.location))),
      Entry("bestLap", Leaf(Text(ls.bestLap))),
      Entry("worstLap", Leaf(Text(ls.worstLap))),
      Entry("totalTime", Leaf(Text(ls.totalTime))),
      Entry("createdAt", Leaf(Number(ls.createdAt)))])
  }

  /**
    fromSnapshot; `now` is the clock reading that stands in for a missing
    timestamp or createdAt. `None` is the exception parseSectors throws on a
    negative lap key.
   */
  function FromSnapshot(snapshot: Tree, now: Long): Option<LiveSession>
  {
    var laps := ParseStringList(Child(snapshot, "laps"));
    match SectorsOf(Children(Child(snapshot, "sectors")), |laps|)
    case None => None
    case Some(sectors) =>
      Some(LiveSession(
        StringOr(Child(snapshot, "sessionId"), ""),
        StringOr(Child(snapshot, "hostId"), ""),
        StringOr(Child(snapshot, "hostName"), ""),
        StringOr(Child(snapshot, "sessionName"), "Live Session"),
        ParseParticipants(Child(snapshot, "participants")),
        laps,
        sectors,
        match GetLong(Child(snapshot, "timestamp")) case Some(t) => t case None => now,
        match GetBool(Child(snapshot, "isActive")) case Some(b) => b case None => true,
        StringOr(Child(snapshot, "location"), "Unknown Location"),
        StringOr(Child(snapshot, "bestLap"), "N/A"),
        StringOr(Child(snapshot, "worstLap"), "N/A"),
        StringOr(Child(snapshot, "totalTime"), "00:00:00"),
        match GetLong(Child(snapshot, "createdAt")) case Some(t) => t case None => now))
  }

  /** An empty snapshot gives the listed defaults, with no laps and no sectors. */
  lemma EmptySnapshotDefaults(now: Long)
    ensures FromSnapshot(Node([]), now) == Some(LiveSession(
      "", "", "", "Live Session", map[], [], [], now, true, "Unknown Location", "N/A", "N/A", "00:00:00", now))
  {
    assert Blank(0) == [];
  }

  /** A session read from a snapshot has one sectors list per lap. */
  lemma SectorsPerLap(snapshot: Tree, now: Long)
    requires FromSnapshot(snapshot, now).Some?
    ensures |FromSnapshot(snapshot, now).value.sectors| == |FromSnapshot(snapshot, now).value.laps|
  {
  }

  /**
    What toMap writes, fromSnapshot reads back: every field, with the
    sectors cut or padded to the number of laps (the host's trailing list
    for the lap in progress is dropped).
   */
  lemma SessionReadsBack(ls: LiveSession, order: seq<string>, now: Long)
    requires forall k :: k in ls.participants <==> k in order
    requires |ls.sectors| <= INT_MAX
    ensures FromSnapshot(ToMap(ls, order), now) == Some(ls.(sectors := Fit(ls.sectors, |ls.laps|)))
  {
    var t := ToMap(ls, order);
    ToMapChildren(ls, order);
    StringListReadsBack(ls.laps);
    SectorsReadBack(ls.sectors, |ls.laps|);
    ParticipantsReadBack(ls.participants, order);
    ReadsFields(t, ls.(sectors := Fit(ls.sectors, |ls.laps|)), now);
  }

  /** A snapshot whose children hold the fields of ls reads back as ls. */
  lemma ReadsFields(t: Tree, ls: LiveSession, now: Long)
    requires Child(t, "sessionId") == Leaf(Text(ls.sessionId))
    requires Child(t, "hostId") == Leaf(Text(ls.hostId))
    requires Child(t, "hostName") == Leaf(Text(ls.hostName))
    requires Child(t, "sessionName") == Leaf(Text(ls.sessionName))
    requires ParseParticipants(Child(t, "participants")) == ls.participants
    requires ParseStringList(Child(t, "laps")) == ls.laps
    requires SectorsOf(Children(Child(t, "sectors")), |ls.laps|) == Some(ls.sectors)
    requires Child(t, "timestamp") == Leaf(Number(ls.timestamp))
    requires Child(t, "isActive") == Leaf(Flag(ls.isActive))
    requires Child(t, "location") == Leaf(Text(ls.location))
    requires Child(t, "bestLap") == Leaf(Text(ls.bestLap))
    requires Child(t, "worstLap") == Leaf(Text(ls.worstLap))
    requires Child(t, "totalTime") == Leaf(Text(ls.totalTime))
    requires Child(t, "createdAt") == Leaf(Number(ls.createdAt))
    ensures FromSnapshot(t, now) == Some(ls)
  {
  }

  /** The keys toMap writes, in its order. */
  const FIELDS: seq<string> := ["sessionId", "hostId", "hostName", "sessionName", "participants", "laps",
    "sectors", "timestamp", "isActive", "location", "bestLap", "worstLap", "totalTime", "createdAt"]

  /** Length and first two characters: enough to tell the toMap keys apart. */
  function Signature(k: string): (int, char, char)
  {
    if |k| >= 2 then (|k|, k[0], k[1]) else (|k|, ' ', ' ')
  }

  lemma FieldsDistinct()
    ensures forall i, j :: 0 <= i < j < |FIELDS| ==> FIELDS[i] != FIELDS[j]
  {
    var sigs := [(9, 's', 'e'), (6, 'h', 'o'), (8, 'h', 'o'), (11, 's', 'e'), (12, 'p', 'a'), (4, 'l', 'a'), (7, 's', 'e'),
      (9, 't', 'i'), (8, 'i', 's'), (8, 'l', 'o'), (7, 'b', 'e'), (8, 'w', 'o'), (9, 't', 'o'), (9, 'c', 'r')];
    assert forall i :: 0 <= i < |FIELDS| ==> Signature(FIELDS[i]) == sigs[i];
  }

  /** Each field of toMap is found under its own key. */
  lemma ToMapChildren(ls: LiveSession, order: seq<string>)
    requires forall i :: 0 <= i < |order| ==> order[i] in ls.participants
    ensures var t := ToMap(ls, order);
      && Child(t, "sessionId") == Leaf(Text(ls.sessionId))
      && Child(t, "hostId") == Leaf(Text(ls.hostId))
      && Child(t, "hostName") == Leaf(Text(ls.hostName))
      && Child(t, "sessionName") == Leaf(Text(ls.sessionName))
      && Child(t, "participants") == ParticipantsNode(ls.participants, order)
      && Child(t, "laps") == ListNode(ls.laps)
      && Child(t, "sectors") == ToFirebaseFormat(ls.sectors)
      && Child(t, "timestamp") == Leaf(Number(ls.timestamp))
      && Child(t, "isActive") == Leaf(Flag(ls.isActive))
      && Child(t, "location") == Leaf(Text(ls.location))
      && Child(t, "bestLap") == Leaf(Text(ls.bestLap))
      && Child(t, "worstLap") == Leaf(Text(ls.worstLap))
      && Child(t, "totalTime") == Leaf(Text(ls.totalTime))
      && Child(t, "createdAt") == Leaf(Number(ls.createdAt))
  {
    ToMapChild(ls, order, 0); ToMapChild(ls, order, 1); ToMapChild(ls, order, 2); ToMapChild(ls, order, 3);
    ToMapChild(ls, order, 4); ToMapChild(ls, order, 5); ToMapChild(ls, order, 6); ToMapChild(ls, order, 7);
    ToMapChild(ls, order, 8); ToMapChild(ls, order, 9); ToMapChild(ls, order, 10); ToMapChild(ls, order, 11);
    ToMapChild(ls, order, 12); ToMapChild(ls, order, 13);
  }

  lemma ToMapChild(ls: LiveSession, order: seq<string>, i: int)
    requires forall i :: 0 <= i < |order| ==> order[i] in ls.participants
    requires 0 <= i < |FIELDS|
    ensures Child(ToMap(ls, order), FIELDS[i]) == Children(ToMap(ls, order))[i].tree
  {
    var es := Children(ToMap(ls, order));
    FieldsDistinct();
    assert |es| == |FIELDS| && forall j :: 0 <= j < |FIELDS| ==> es[j].key == FIELDS[j];
    FindAt(es, i);
  }

  // ---------------------------------------------------------------------
  // The stale-session filter of the session list
  // ---------------------------------------------------------------------

  const SESSION_TIMEOUT_MS: int := 30000

  /** What the join dialog offers for one child: its session when it reads and is active and fresh. */
  function Offer(e: Entry, now: Long): (r: seq<LiveSession>)
    ensures |r| <= 1
    ensures forall i :: 0 <= i < |r| ==> r[i].isActive && LongSub(now, r[i].timestamp) < SESSION_TIMEOUT_MS
  {
    match FromSnapshot(e.tree, now)
    case Some(s) => if s.isActive && LongSub(now, s.timestamp) < SESSION_TIMEOUT_MS then [s] else []
    case None => []
  }

  /** The per-child offer at clock reading now, as a function value. */
  function OfferAt(now: Long): Entry -> seq<LiveSession>
  {
    e => Offer(e, now)
  }

  /** `children.forEach { … sessions.add(…) }`: the children's offers, concatenated in order. */
  function Offers(children: seq<Entry>, offer: Entry -> seq<LiveSession>): seq<LiveSession>
  {
    if children == [] then [] else Offers(children[..|children| - 1], offer) + offer(children[|children| - 1])
  }

  /**
    The sessions the join dialog's filter keeps: readable, active and
    stamped less than 30 s ago, in the children's order (before the
    dialog sorts them by createdAt).
   */
  function ActiveSessions(children: seq<Entry>, now: Long): (r: seq<LiveSession>)
    ensures |r| <= |children|
    ensures forall i :: 0 <= i < |r| ==> r[i].isActive && LongSub(now, r[i].timestamp) < SESSION_TIMEOUT_MS
  {
    OffersFresh(children, now);
    Offers(children, OfferAt(now))
  }

  /** Each child contributes at most one session, and only an active and fresh one. */
  lemma {:induction false} OffersFresh(children: seq<Entry>, now: Long)
    ensures var r := Offers(children, OfferAt(now));
      && |r| <= |children|
      && forall i :: 0 <= i < |r| ==> r[i].isActive && LongSub(now, r[i].timestamp) < SESSION_TIMEOUT_MS
  {
    if children != [] {
      var init, last := children[..|children| - 1], children[|children| - 1];
      OffersFresh(init, now);
      assert OfferAt(now)(last) == Offer(last, now);
    }
  }

  /** Whether the join dialog offers a child: it reads, and it is active and fresh. */
  predicate Offered(e: Entry, now: Long)
  {
    match FromSnapshot(e.tree, now)
    case Some(s) => s.isActive && LongSub(now, s.timestamp) < SESSION_TIMEOUT_MS
    case None => false
  }

  /** Concatenating offers works child by child, whatever the per-child offer. */
  lemma {:induction false} OffersAppend(a: seq<Entry>, b: seq<Entry>, offer: Entry -> seq<LiveSession>)
    ensures Offers(a + b, offer) == Offers(a, offer) + Offers(b, offer)
    decreases |b|
  {
    if b == [] {
      assert a + b == a;
    } else {
      var front := b[..|b| - 1];
      assert (a + b)[..|a + b| - 1] == a + front;
      assert (a + b)[|a + b| - 1] == b[|b| - 1];
      OffersAppend(a, front, offer);
    }
  }

  /**
    The filter works child by child: the offer for two runs of children is
    the offer for the first followed by the offer for the second, so the
    filter keeps the children's relative order.
   */
  lemma ActiveSessionsAppend(a: seq<Entry>, b: seq<Entry>, now: Long)
    ensures ActiveSessions(a + b, now) == ActiveSessions(a, now) + ActiveSessions(b, now)
  {
    OffersAppend(a, b, OfferAt(now));
  }

  /** A single child is offered exactly when it reads and is active and fresh. */
  lemma ActiveSessionsOne(e: Entry, now: Long)
    ensures Offered(e, now) ==> ActiveSessions([e], now) == [FromSnapshot(e.tree, now).value]
    ensures !Offered(e, now) ==> ActiveSessions([e], now) == []
  {
    assert [e][..0] == [];
    assert Offers([e], OfferAt(now)) == Offer(e, now);
    OfferIff(e, now);
  }

  lemma OfferIff(e: Entry, now: Long)
    ensures Offered(e, now) ==> Offer(e, now) == [FromSnapshot(e.tree, now).value]
    ensures !Offered(e, now) ==> Offer(e, now) == []
  {
  }

  /** The offer for the children is the offer before child j, then child j's, then the offer after it. */
  lemma {:induction false} ActiveSessionsAt(children: seq<Entry>, now: Long, j: int)
    requires 0 <= j < |children|
    ensures ActiveSessions(children, now)
      == ActiveSessions(children[..j], now) + Offer(children[j], now) + ActiveSessions(children[j + 1..], now)
  {
    var pre, e, post := children[..j], children[j], children[j + 1..];
    var offer := OfferAt(now);
    assert children == (pre + [e]) + post;
    assert (pre + [e])[..|pre + [e]| - 1] == pre;
    assert Offers(pre + [e], offer) == Offers(pre, offer) + Offer(e, now);
    OffersAppend(pre + [e], post, offer);
  }

  /** Every child that reads, is active and is fresh is offered. */
  lemma {:induction false} ActiveSessionsComplete(children: seq<Entry>, now: Long, j: int)
    requires 0 <= j < |children| && Offered(children[j], now)
    ensures FromSnapshot(children[j].tree, now).value in ActiveSessions(children, now)
  {
    ActiveSessionsAt(children, now, j);
    OfferIff(children[j], now);
  }
}
