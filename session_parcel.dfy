/**
  The Parcelable side of Session (Session.kt): `writeToParcel` writes the
  fields in declaration order, the sectors as a count followed by one string
  list per lap, and the two flags as bytes; the Parcel constructor reads
  them back in the same order. The Parcel itself is a sequence of tagged
  items with a read cursor.
 */
module SessionParcel {
  import opened KotlinText
  import opened Sessions

  /** What one writeString, writeStringList, writeInt or writeByte leaves in the parcel. */
  datatype Item =
    | Str(str: Option<string>)
    | StrList(list: Option<seq<string>>)
    | Int32(number: int)
    | Byte(byte: int)

  /** Kotlin's `?:` on a nullable value. */
  function OrElse<T>(o: Option<T>, default: T): T
  {
    if o.Some? then o.value else default
  }

  // ---------------------------------------------------------------------
  // Reading, as functions of the items and the cursor. Reading past the end
  // yields the type's default and leaves the cursor; reading an item of
  // another kind yields the default and moves past it.
  // ---------------------------------------------------------------------

  function ReadStringAt(items: seq<Item>, pos: nat): (Option<string>, nat)
  {
    if pos >= |items| then (None, pos)
    else if items[pos].Str? then (items[pos].str, pos + 1)
    else (None, pos + 1)
  }

  function ReadStringListAt(items: seq<Item>, pos: nat): (Option<seq<string>>, nat)
  {
    if pos >= |items| then (None, pos)
    else if items[pos].StrList? then (items[pos].list, pos + 1)
    else (None, pos + 1)
  }

  function ReadIntAt(items: seq<Item>, pos: nat): (int, nat)
  {
    if pos >= |items| then (0, pos)
    else if items[pos].Int32? then (items[pos].number, pos + 1)
    else (0, pos + 1)
  }

  function ReadByteAt(items: seq<Item>, pos: nat): (int, nat)
  {
    if pos >= |items| then (0, pos)
    else if items[pos].Byte? then (items[pos].byte, pos + 1)
    else (0, pos + 1)
  }

  /** The counted loop of the Parcel constructor: `count` string lists, a missing one read as empty. */
  function ReadListsAt(items: seq<Item>, pos: nat, count: nat): (r: (seq<seq<string>>, nat))
    ensures |r.0| == count
    ensures pos <= r.1 <= pos + count
    ensures pos + count <= |items| ==> r.1 == pos + count
  {
    if count == 0 then ([], pos)
    else
      var (prev, p) := ReadListsAt(items, pos, count - 1);
      var (l, q) := ReadStringListAt(items, p);
      (prev + [OrElse(l, [])], q)
  }

  /** The items writeToParcel appends for a session. */
  function Encode(s: Session): seq<Item>
  {
    Head(s) + ListItems(s.sectors) + Tail(s)
  }

  /** The twelve strings, the laps and the sectors count. */
  function Head(s: Session): seq<Item>
  {
    [ Str(Some(s.id)), Str(Some(s.name)), Str(Some(s.username)), Str(Some(s.date)),
      Str(Some(s.startTime)), Str(Some(s.fastestLap)), Str(Some(s.slowestLap)),
      Str(Some(s.averageLap)), Str(Some(s.consistency)), Str(Some(s.totalTime)),
      Str(Some(s.location)), Str(Some(s.dateTime)),
      StrList(Some(s.laps)),
      Int32(|s.sectors|) ]
  }

  /** The two flags, the live-session id, the speeds and the upload error. */
  function Tail(s: Session): seq<Item>
  {
    [ Byte(if s.isLive then 1 else 0), Str(s.liveSessionId),
        Str(Some(s.topSpeed)), Str(Some(s.averageSpeed)),
        Byte(if s.isUploaded then 1 else 0), Str(s.uploadError) ]
  }

  /** One string-list item per lap of sectors. */
  function ListItems(lists: seq<seq<string>>): (r: seq<Item>)
    ensures |r| == |lists|
    ensures forall i :: 0 <= i < |r| ==> r[i] == StrList(Some(lists[i]))
  {
    if lists == [] then [] else ListItems(lists[..|lists| - 1]) + [StrList(Some(lists[|lists| - 1]))]
  }

  /** The Parcel constructor, as a function of the items and the cursor: the session and the new cursor. */
  function DecodeAt(items: seq<Item>, pos: nat): (Session, nat)
  {
    var (id, p1) := ReadStringAt(items, pos);
    var (name, p2) := ReadStringAt(items, p1);
    var (username, p3) := ReadStringAt(items, p2);
    var (date, p4) := ReadStringAt(items, p3);
    var (startTime, p5) := ReadStringAt(items, p4);
    var (fastestLap, p6) := ReadStringAt(items, p5);
    var (slowestLap, p7) := ReadStringAt(items, p6);
    var (averageLap, p8) := ReadStringAt(items, p7);
    var (consistency, p9) := ReadStringAt(items, p8);
    var (totalTime, p10) := ReadStringAt(items, p9);
    var (location, p11) := ReadStringAt(items, p10);
    var (dateTime, p12) := ReadStringAt(items, p11);
    var (laps, p13) := ReadStringListAt(items, p12);
    var (size, p14) := ReadIntAt(items, p13);
    var (sectors, p15) := ReadListsAt(items, p14, if size < 0 then 0 else size);
    var (isLive, p16) := ReadByteAt(items, p15);
    var (liveSessionId, p17) := ReadStringAt(items, p16);
    var (topSpeed, p18) := ReadStringAt(items, p17);
    var (averageSpeed, p19) := ReadStringAt(items, p18);
    var (isUploaded, p20) := ReadByteAt(items, p19);
    var (uploadError, p21) := ReadStringAt(items, p20);
    (Session(
      OrElse(id, ""), OrElse(name, ""), OrElse(username, ""), OrElse(date, ""),
      OrElse(startTime, ""), OrElse(fastestLap, ""), OrElse(slowestLap, ""),
      OrElse(averageLap, ""), OrElse(consistency, ""), OrElse(totalTime, ""),
      OrElse(location, ""), OrElse(dateTime, ""),
      OrElse(laps, []), sectors,
      isLive != 0, liveSessionId,
      OrElse(topSpeed, "N/A"), OrElse(averageSpeed, "N/A"),
      isUploaded != 0, uploadError),
     p21)
  }

  // ---------------------------------------------------------------------
  // The parcel object
  // ---------------------------------------------------------------------

  /** android.os.Parcel, reduced to its items and its read cursor. */
  class Parcel {
    var items: seq<Item>
    var pos: nat

    /** An empty parcel to write into. */
    constructor ()
      ensures items == [] && pos == 0
    {
      items := [];
      pos := 0;
    }

    /** A received parcel, to be read from the start. */
    constructor Received(received: seq<Item>)
      ensures items == received && pos == 0
    {
      items := received;
      pos := 0;
    }

    method WriteString(s: Option<string>)
      modifies this
      ensures items == old(items) + [Str(s)] && pos == old(pos)
    {
      items := items + [Str(s)];
    }

    method WriteStringList(l: seq<string>)
      modifies this
      ensures items == old(items) + [StrList(Some(l))] && pos == old(pos)
    {
      items := items + [StrList(Some(l))];
    }

    method WriteInt(n: int)
      modifies this
      ensures items == old(items) + [Int32(n)] && pos == old(pos)
    {
      items := items + [Int32(n)];
    }

    method WriteByte(b: int)
      modifies this
      ensures items == old(items) + [Byte(b)] && pos == old(pos)
    {
      items := items + [Byte(b)];
    }

    method ReadString() returns (s: Option<string>)
      modifies this
      ensures items == old(items)
      ensures (s, pos) == ReadStringAt(items, old(pos))
    {
      if pos < |items| {
        s := if items[pos].Str? then items[pos].str else None;
        pos := pos + 1;
      } else {
        s := None;
      }
    }

    method CreateStringArrayList() returns (l: Option<seq<string>>)
      modifies this
      ensures items == old(items)
      ensures (l, pos) == ReadStringListAt(items, old(pos))
    {
      if pos < |items| {
        l := if items[pos].StrList? then items[pos].list else None;
        pos := pos + 1;
      } else {
        l := None;
      }
    }

    method ReadInt() returns (n: int)
      modifies this
      ensures items == old(items)
      ensures (n, pos) == ReadIntAt(items, old(pos))
    {
      if pos < |items| {
        n := if items[pos].Int32? then items[pos].number else 0;
        pos := pos + 1;
      } else {
        n := 0;
      }
    }

    method ReadByte() returns (b: int)
      modifies this
      ensures items == old(items)
      ensures (b, pos) == ReadByteAt(items, old(pos))
    {
      if pos < |items| {
        b := if items[pos].Byte? then items[pos].byte else 0;
        pos := pos + 1;
      } else {
        b := 0;
      }
    }
  }

  /** Session.writeToParcel: appends exactly the session's encoding. */
  method WriteToParcel(s: Session, parcel: Parcel)
    modifies parcel
    ensures parcel.items == old(parcel.items) + Encode(s)
    ensures parcel.pos == old(parcel.pos)
  {
    WriteHead(s, parcel);
    ghost var head := parcel.items;
    for i := 0 to |s.sectors|
      invariant parcel.items == head + ListItems(s.sectors[..i])
      invariant parcel.pos == old(parcel.pos)
    {
      assert s.sectors[..i + 1][..i] == s.sectors[..i];
      parcel.WriteStringList(s.sectors[i]);
    }
    assert s.sectors[..|s.sectors|] == s.sectors;
    WriteTail(s, parcel);
    AppendThree(old(parcel.items), Head(s), ListItems(s.sectors), Tail(s));
  }

  /** The writes before the sectors loop: twelve strings, the laps and the count. */
  method WriteHead(s: Session, parcel: Parcel)
    modifies parcel
    ensures parcel.items == old(parcel.items) + Head(s)
    ensures parcel.pos == old(parcel.pos)
  {
    WriteNames(s, parcel);
    WriteResults(s, parcel);
  }

  /** The first half of the head: id, name, user name, date, start time and the fastest lap. */
  method WriteNames(s: Session, parcel: Parcel)
    modifies parcel
    ensures parcel.items == old(parcel.items) + Head(s)[..6]
    ensures parcel.pos == old(parcel.pos)
  {
    parcel.WriteString(Some(s.id));
    parcel.WriteString(Some(s.name));
    parcel.WriteString(Some(s.username));
    parcel.WriteString(Some(s.date));
    parcel.WriteString(Some(s.startTime));
    parcel.WriteString(Some(s.fastestLap));
  }

  /** The second half of the head: the other summary strings, the laps and the sectors count. */
  method WriteResults(s: Session, parcel: Parcel)
    modifies parcel
    ensures parcel.items == old(parcel.items) + Head(s)[6..]
    ensures parcel.pos == old(parcel.pos)
  {
    parcel.WriteString(Some(s.slowestLap));
    parcel.WriteString(Some(s.averageLap));
    parcel.WriteString(Some(s.consistency));
    parcel.WriteString(Some(s.totalTime));
    parcel.WriteString(Some(s.location));
    parcel.WriteString(Some(s.dateTime));
    parcel.WriteStringList(s.laps);
    parcel.WriteInt(|s.sectors|);
  }

  /** The writes after the sectors loop: flags as bytes, nullable strings as they are. */
  method WriteTail(s: Session, parcel: Parcel)
    modifies parcel
    ensures parcel.items == old(parcel.items) + Tail(s)
    ensures parcel.pos == old(parcel.pos)
  {
    parcel.WriteByte(if s.isLive then 1 else 0);
    parcel.WriteString(s.liveSessionId);
    parcel.WriteString(Some(s.topSpeed));
    parcel.WriteString(Some(s.averageSpeed));
    parcel.WriteByte(if s.isUploaded then 1 else 0);
    parcel.WriteString(s.uploadError);
  }

  lemma AppendThree<T>(a: seq<T>, b: seq<T>, c: seq<T>, d: seq<T>)
    ensures a + (b + c + d) == a + b + c + d
  {
  }

  /** Session's Parcel constructor (CREATOR.createFromParcel): reads the fields in order. */
  method CreateFromParcel(parcel: Parcel) returns (s: Session)
    modifies parcel
    ensures parcel.items == old(parcel.items)
    ensures (s, parcel.pos) == DecodeAt(parcel.items, old(parcel.pos))
  {
    var id := parcel.ReadString();
    var name := parcel.ReadString();
    var username := parcel.ReadString();
    var date := parcel.ReadString();
    var startTime := parcel.ReadString();
    var fastestLap := parcel.ReadString();
    var slowestLap := parcel.ReadString();
    var averageLap := parcel.ReadString();
    var consistency := parcel.ReadString();
    var totalTime := parcel.ReadString();
    var location := parcel.ReadString();
    var dateTime := parcel.ReadString();
    var laps := parcel.CreateStringArrayList();
    var size := parcel.ReadInt();
    ghost var start := parcel.pos;
    var sectors: seq<seq<string>> := [];
    var count: nat := if size < 0 then 0 else size;
    for i := 0 to count
      invariant parcel.items == old(parcel.items)
      invariant (sectors, parcel.pos) == ReadListsAt(parcel.items, start, i)
    {
      var l := parcel.CreateStringArrayList();
      sectors := sectors + [OrElse(l, [])];
    }
    var isLive := parcel.ReadByte();
    var liveSessionId := parcel.ReadString();
    var topSpeed := parcel.ReadString();
    var averageSpeed := parcel.ReadString();
    var isUploaded := parcel.ReadByte();
    var uploadError := parcel.ReadString();
    s := Session(
      OrElse(id, ""), OrElse(name, ""), OrElse(username, ""), OrElse(date, ""),
      OrElse(startTime, ""), OrElse(fastestLap, ""), OrElse(slowestLap, ""),
      OrElse(averageLap, ""), OrElse(consistency, ""), OrElse(totalTime, ""),
      OrElse(location, ""), OrElse(dateTime, ""),
      OrElse(laps, []), sectors,
      isLive != 0, liveSessionId,
      OrElse(topSpeed, "N/A"), OrElse(averageSpeed, "N/A"),
      isUploaded != 0, uploadError);
  }

  // ---------------------------------------------------------------------
  // Properties
  // ---------------------------------------------------------------------

  /** The reader consumes exactly as many string lists as the count says, one item each. */
  lemma {:induction false} ReadListsOf(items: seq<Item>, pos: nat, lists: seq<seq<string>>)
    requires pos + |lists| <= |items|
    requires forall i :: 0 <= i < |lists| ==> items[pos + i] == StrList(Some(lists[i]))
    ensures ReadListsAt(items, pos, |lists|) == (lists, pos + |lists|)
  {
    if lists != [] {
      var n := |lists| - 1;
      ReadListsOf(items, pos, lists[..n]);
      assert lists[..n] + [lists[n]] == lists;
    }
  }

  /**
    Reading back what writeToParcel wrote, wherever in a parcel it sits,
    yields the same session and leaves the cursor just past it: the field
    order matches, the flags come back from their 1/0 bytes, and a null
    liveSessionId or uploadError comes back null.
   */
  lemma {:induction false} ParcelRoundTrip(before: seq<Item>, s: Session, after: seq<Item>)
    ensures DecodeAt(before + Encode(s) + after, |before|) == (s, |before| + |Encode(s)|)
  {
    var items := before + Encode(s) + after;
    var k := |before|;
    var n := |s.sectors|;
    EncodedLayout(before, s, after);
    HeadReads(items, k, s);
    ReadListsOf(items, k + 14, s.sectors);
    TailReads(items, k + 14 + n, s);
  }

  /** Where the head, the sector lists and the tail sit in a parcel holding an encoded session. */
  lemma EncodedLayout(before: seq<Item>, s: Session, after: seq<Item>)
    ensures var items := before + Encode(s) + after;
      var k, n := |before|, |s.sectors|;
      && |Encode(s)| == 20 + n
      && items[k..k + 14] == Head(s)
      && (forall i :: 0 <= i < n ==> items[k + 14 + i] == StrList(Some(s.sectors[i])))
      && items[k + 14 + n..k + 20 + n] == Tail(s)
  {
    var items := before + Encode(s) + after;
    var k, n := |before|, |s.sectors|;
    assert items == before + Head(s) + ListItems(s.sectors) + Tail(s) + after;
    forall i | 0 <= i < n ensures items[k + 14 + i] == StrList(Some(s.sectors[i])) {
      assert items[k + 14 + i] == ListItems(s.sectors)[i];
    }
  }

  /** Reading the head fields where Head(s) sits. */
  lemma HeadReads(items: seq<Item>, k: nat, s: Session)
    requires k + 14 <= |items| && items[k..k + 14] == Head(s)
    ensures ReadStringAt(items, k) == (Some(s.id), k + 1)
    ensures ReadStringAt(items, k + 1) == (Some(s.name), k + 2)
    ensures ReadStringAt(items, k + 2) == (Some(s.username), k + 3)
    ensures ReadStringAt(items, k + 3) == (Some(s.date), k + 4)
    ensures ReadStringAt(items, k + 4) == (Some(s.startTime), k + 5)
    ensures ReadStringAt(items, k + 5) == (Some(s.fastestLap), k + 6)
    ensures ReadStringAt(items, k + 6) == (Some(s.slowestLap), k + 7)
    ensures ReadStringAt(items, k + 7) == (Some(s.averageLap), k + 8)
    ensures ReadStringAt(items, k + 8) == (Some(s.consistency), k + 9)
    ensures ReadStringAt(items, k + 9) == (Some(s.totalTime), k + 10)
    ensures ReadStringAt(items, k + 10) == (Some(s.location), k + 11)
    ensures ReadStringAt(items, k + 11) == (Some(s.dateTime), k + 12)
    ensures ReadStringListAt(items, k + 12) == (Some(s.laps), k + 13)
    ensures ReadIntAt(items, k + 13) == (|s.sectors|, k + 14)
  {
    var h := Head(s);
    assert items[k] == h[0] && items[k + 1] == h[1] && items[k + 2] == h[2] && items[k + 3] == h[3];
    assert items[k + 4] == h[4] && items[k + 5] == h[5] && items[k + 6] == h[6] && items[k + 7] == h[7];
    assert items[k + 8] == h[8] && items[k + 9] == h[9] && items[k + 10] == h[10] && items[k + 11] == h[11];
    assert items[k + 12] == h[12] && items[k + 13] == h[13];
  }

  /** Reading the tail fields where Tail(s) sits. */
  lemma TailReads(items: seq<Item>, m: nat, s: Session)
    requires m + 6 <= |items| && items[m..m + 6] == Tail(s)
    ensures ReadByteAt(items, m) == (if s.isLive then 1 else 0, m + 1)
    ensures ReadStringAt(items, m + 1) == (s.liveSessionId, m + 2)
    ensures ReadStringAt(items, m + 2) == (Some(s.topSpeed), m + 3)
    ensures ReadStringAt(items, m + 3) == (Some(s.averageSpeed), m + 4)
    ensures ReadByteAt(items, m + 4) == (if s.isUploaded then 1 else 0, m + 5)
    ensures ReadStringAt(items, m + 5) == (s.uploadError, m + 6)
  {
    var t := Tail(s);
    assert items[m] == t[0] && items[m + 1] == t[1] && items[m + 2] == t[2];
    assert items[m + 3] == t[3] && items[m + 4] == t[4] && items[m + 5] == t[5];
  }

  /** The same round trip through the parcel object: write into a fresh parcel, then read it from the start. */
  method WriteThenRead(s: Session) returns (r: Session)
    ensures r == s
  {
    var out := new Parcel();
    WriteToParcel(s, out);
    var received := new Parcel.Received(out.items);
    r := CreateFromParcel(received);
    ParcelRoundTrip([], s, []);
    assert [] + Encode(s) + [] == out.items;
  }
}
