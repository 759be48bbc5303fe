/** The uploads table of the cleaner: one row per logged media event, keyed by its
    event id, filled by `log_upload` (an INSERT OR IGNORE) and by `sync_uploads`,
    which walks the recent history of every joined room. */
module Uploads {
  import opened Wrappers
  import opened PyValue
  import opened Text
  import opened Numerals
  import opened Media

  /** A row of the `uploads` table. */
  datatype UploadRecord = UploadRecord(
    eventId: string, roomId: string, sender: string, mxcUri: string,
    mimetype: string, size: int, timestamp: int)

  /** A room event as the homeserver returns it; `content` is the serialised
      content dict. */
  datatype Event = Event(
    eventId: string, roomId: string, sender: string, eventType: string,
    content: Dict, timestamp: int)

  /** The table, keyed by its primary key `event_id`. */
  type Rows = map<string, UploadRecord>

  /** A value `log_upload` accepts as a media reference: a string starting with
      `mxc://` (such a string is never falsy). */
  predicate IsMediaRef(v: Value)
  {
    v.Str? && StartsWith(v.s, MxcScheme)
  }

  /** A row the cleaner can have written: stored under its own event id and holding
      a media reference. */
  predicate LoggedRow(k: string, rec: UploadRecord)
  {
    rec.eventId == k && StartsWith(rec.mxcUri, MxcScheme)
  }

  predicate WellFormed(rows: Rows)
  {
    forall k :: k in rows ==> LoggedRow(k, rows[k])
  }

  /** The text that the TEXT column `mimetype` keeps for a bound value: a string
      as it is, an integer (a `bool` is one) as its decimal digits, a float as
      SQLite's text for a REAL. A list or dict cannot be bound, nor can an integer
      outside 64 bits; both raise. `None` never reaches it: `or ""` replaced it. */
  function StoredMimetype(v: Value): (r: Result<string>)
    requires !v.Null?
    ensures v.Str? ==> r == Ok(v.s)
    ensures v.Int? && r.Ok? ==> ParseInt(r.value) == Some(v.i)
    ensures v.Bool? ==> r == Ok(if v.b then "1" else "0")
    ensures r.Ok? && !v.Str? ==> |r.value| >= 1 && (IsDigit(r.value[0]) || r.value[0] == '-')
    ensures r.Raises? <==> v.List? || v.Obj? || (v.Int? && !InInt64(v.i))
  {
    match v
    case Str(s) => Ok(s)
    case Int(i) => if InInt64(i) then (ParseIntText(i); Ok(IntText(i))) else Raises
    case Bool(b) => Ok(if b then "1" else "0")
    case Float(x) => Ok(FloatText(x))
    case _ => Raises
  }

  /** The row `log_upload` binds for `ev` with media fields `info`, or `Raises`
      when one of its parameters cannot be bound: the mimetype as above, or a size
      or timestamp outside 64 bits. */
  function BoundRow(ev: Event, info: MediaInfo): (r: Result<UploadRecord>)
    requires IsMediaRef(info.url) && !info.mimetype.Null?
    ensures r.Raises? <==> StoredMimetype(info.mimetype).Raises? || !InInt64(info.size) || !InInt64(ev.timestamp)
    ensures r.Ok? ==> r.value.eventId == ev.eventId && r.value.roomId == ev.roomId && r.value.sender == ev.sender
    ensures r.Ok? ==> r.value.mxcUri == info.url.s && r.value.mimetype == StoredMimetype(info.mimetype).value
    ensures r.Ok? ==> r.value.size == info.size && r.value.timestamp == ev.timestamp
  {
    match StoredMimetype(info.mimetype)
    case Raises => Raises
    case Ok(m) =>
      if InInt64(info.size) && InInt64(ev.timestamp) then
        Ok(UploadRecord(ev.eventId, ev.roomId, ev.sender, info.url.s, m, info.size, ev.timestamp))
      else Raises
  }

  /** Whether `log_upload(conn, ev)` raises: the content cannot be read, or its url
      is a media reference and a parameter of the INSERT cannot be bound. The bind
      happens whether or not the row already exists. */
  predicate LogRaises(ev: Event)
  {
    match ExtractMediaInfo(ev.content)
    case Raises => true
    case Ok(info) => IsMediaRef(info.url) && BoundRow(ev, info).Raises?
  }

  /** `log_upload(conn, ev)` on the table `rows`: raises as `LogRaises` says,
      inserts nothing unless the url is a media reference, never touches a row that
      is already there, and a new row holds the event's fields and its bound media
      fields. */
  function Log(rows: Rows, ev: Event): (r: Result<Rows>)
    ensures r.Raises? <==> LogRaises(ev)
    ensures r.Ok? ==> forall k :: k in rows ==> k in r.value && r.value[k] == rows[k]
    ensures r.Ok? ==> r.value.Keys <= rows.Keys + {ev.eventId}
    ensures r.Ok? ==> (ev.eventId in r.value <==> ev.eventId in rows || IsMediaRef(UrlOf(ev.content)))
    ensures r.Ok? && ev.eventId in r.value && ev.eventId !in rows ==>
              var rec := r.value[ev.eventId];
              var info := ExtractMediaInfo(ev.content).value;
              LoggedRow(ev.eventId, rec) && rec.mxcUri == UrlOf(ev.content).s
              && rec.roomId == ev.roomId && rec.sender == ev.sender && rec.timestamp == ev.timestamp
              && rec.size == info.size && rec.mimetype == StoredMimetype(info.mimetype).value
    ensures r.Ok? && WellFormed(rows) ==> WellFormed(r.value)
  {
    match ExtractMediaInfo(ev.content)
    case Raises => Raises
    case Ok(info) =>
      if !IsMediaRef(info.url) then Ok(rows)
      else match BoundRow(ev, info)
        case Raises => Raises
        case Ok(rec) => if ev.eventId in rows then Ok(rows) else Ok(rows[ev.eventId := rec])
  }

  /** A content whose mimetype and size are an absent key, a string or a
      64-bit integer, logged at a 64-bit timestamp, never makes `log_upload`
      raise. */
  lemma LogPlainNeverRaises(ev: Event)
    requires var info := InfoOf(ev.content);
             ("mimetype" !in info || info["mimetype"].Str? || (info["mimetype"].Int? && InInt64(info["mimetype"].i)))
             && ("size" !in info || (info["size"].Int? && InInt64(info["size"].i)))
             && InInt64(ev.timestamp)
    ensures !LogRaises(ev)
  {
  }

  /** A mimetype that is a list or a dict makes `log_upload` raise for an event
      with a media reference, and only then. */
  lemma LogRaisesOnContainerMimetype(ev: Event)
    requires ExtractMediaInfo(ev.content).Ok?
    requires var m := ExtractMediaInfo(ev.content).value.mimetype; m.List? || m.Obj?
    ensures LogRaises(ev) <==> IsMediaRef(UrlOf(ev.content))
  {
  }

  /** Logging the same event twice is logging it once. */
  lemma LogIdempotent(rows: Rows, ev: Event)
    requires Log(rows, ev).Ok?
    ensures Log(Log(rows, ev).value, ev) == Log(rows, ev)
  {
  }

  /** The event types `sync_uploads` hands to `log_upload`. */
  predicate IsMediaEventType(t: string)
  {
    t == "m.room.message" || t == "m.sticker"
  }

  /** The inner loop of `sync_uploads` for one room: logs the media events of `evs` in
      order; the first event whose logging raises ends the room (its exception is
      caught outside the loop), and what was logged before it stays. */
  function IngestEvents(rows: Rows, evs: seq<Event>): (r: Rows)
    ensures forall k :: k in rows ==> k in r && r[k] == rows[k]
    ensures WellFormed(rows) ==> WellFormed(r)
    decreases |evs|
  {
    if evs == [] then rows
    else if !IsMediaEventType(evs[0].eventType) then IngestEvents(rows, evs[1..])
    else match Log(rows, evs[0])
      case Raises => rows
      case Ok(m) => IngestEvents(m, evs[1..])
  }

  /** `[r for r in rooms if str(r) in rooms_allowlist]`. */
  function Filter(rooms: seq<string>, allow: seq<string>): (r: seq<string>)
    ensures |r| <= |rooms|
    ensures forall x :: x in r <==> x in rooms && x in allow
  {
    if rooms == [] then []
    else (if rooms[0] in allow then [rooms[0]] else []) + Filter(rooms[1..], allow)
  }

  /** The rooms `sync_uploads` visits: all joined rooms when the allowlist is empty,
      otherwise those on it, in joined order. */
  function AllowedRooms(joined: seq<string>, allow: seq<string>): (r: seq<string>)
    ensures allow == [] ==> r == joined
    ensures allow != [] ==> forall x :: x in r <==> x in joined && x in allow
  {
    if allow == [] then joined else Filter(joined, allow)
  }

  /** The outer loop of `sync_uploads`: `history[room]` is the chunk that
      `get_messages(room, limit=200)` returns, and a room without one is a fetch that
      raised, which skips the room. */
  function IngestRooms(rows: Rows, rooms: seq<string>, history: map<string, seq<Event>>): (r: Rows)
    ensures forall k :: k in rows ==> k in r && r[k] == rows[k]
    ensures WellFormed(rows) ==> WellFormed(r)
    decreases |rooms|
  {
    if rooms == [] then rows
    else
      var next := if rooms[0] in history then IngestEvents(rows, history[rooms[0]]) else rows;
      IngestRooms(next, rooms[1..], history)
  }

  /** A row that ingestion adds comes from a media event of the list, logged under
      that event's id. */
  lemma {:induction false} IngestEventsOrigin(rows: Rows, evs: seq<Event>, k: string)
    requires k in IngestEvents(rows, evs) && k !in rows
    ensures exists j :: 0 <= j < |evs| && evs[j].eventId == k && IsMediaEventType(evs[j].eventType)
    decreases |evs|
  {
    var e := evs[0];
    if !IsMediaEventType(e.eventType) {
      IngestEventsOrigin(rows, evs[1..], k);
      var j :| 0 <= j < |evs[1..]| && evs[1..][j].eventId == k && IsMediaEventType(evs[1..][j].eventType);
      assert evs[j + 1] == evs[1..][j];
    } else {
      var m := Log(rows, e).value;
      if k in m {
        assert e.eventId == k;
      } else {
        IngestEventsOrigin(m, evs[1..], k);
        var j :| 0 <= j < |evs[1..]| && evs[1..][j].eventId == k && IsMediaEventType(evs[1..][j].eventType);
        assert evs[j + 1] == evs[1..][j];
      }
    }
  }

  /** A row that a sync adds comes from a media event in the fetched history of a
      room it visited. */
  lemma {:induction false} IngestRoomsOrigin(rows: Rows, rooms: seq<string>, history: map<string, seq<Event>>, k: string)
    requires k in IngestRooms(rows, rooms, history) && k !in rows
    ensures exists room :: room in rooms && room in history &&
              exists j :: 0 <= j < |history[room]| && history[room][j].eventId == k
                          && IsMediaEventType(history[room][j].eventType)
    decreases |rooms|
  {
    var room := rooms[0];
    var next := if room in history then IngestEvents(rows, history[room]) else rows;
    if k in next {
      IngestEventsOrigin(rows, history[room], k);
    } else {
      IngestRoomsOrigin(next, rooms[1..], history, k);
      var other :| other in rooms[1..] && other in history &&
              exists j :: 0 <= j < |history[other]| && history[other][j].eventId == k
                          && IsMediaEventType(history[other][j].eventType);
      assert other in rooms;
    }
  }

  /** A sync only logs events from the rooms it may visit: joined rooms, and with a
      non-empty allowlist only those on it. */
  lemma SyncOrigin(rows: Rows, joined: seq<string>, allow: seq<string>, history: map<string, seq<Event>>, k: string)
    requires k in IngestRooms(rows, AllowedRooms(joined, allow), history) && k !in rows
    ensures exists room :: room in joined && (allow == [] || room in allow) && room in history &&
              exists j :: 0 <= j < |history[room]| && history[room][j].eventId == k
                          && IsMediaEventType(history[room][j].eventType)
  {
    IngestRoomsOrigin(rows, AllowedRooms(joined, allow), history, k);
  }

  /** Ingesting a list into a table that already holds every key the list would add
      changes nothing. Whether an event raises does not depend on the table, so both
      runs stop at the same event. */
  lemma {:induction false} IngestEventsAbsorbed(m: Rows, n: Rows, evs: seq<Event>)
    requires m.Keys <= n.Keys && IngestEvents(m, evs).Keys <= n.Keys
    ensures IngestEvents(n, evs) == n
    decreases |evs|
  {
    if evs != [] {
      var e := evs[0];
      if !IsMediaEventType(e.eventType) {
        IngestEventsAbsorbed(m, n, evs[1..]);
      } else if Log(m, e).Ok? {
        var m' := Log(m, e).value;
        assert m'.Keys <= IngestEvents(m', evs[1..]).Keys;
        assert Log(n, e) == Ok(n);
        IngestEventsAbsorbed(m', n, evs[1..]);
      }
    }
  }

  /** Re-reading the same history is harmless: a room's events logged twice give the
      table they gave once. */
  lemma IngestEventsIdempotent(rows: Rows, evs: seq<Event>)
    ensures IngestEvents(IngestEvents(rows, evs), evs) == IngestEvents(rows, evs)
  {
    IngestEventsAbsorbed(rows, IngestEvents(rows, evs), evs);
  }

  lemma {:induction false} IngestRoomsAbsorbed(m: Rows, n: Rows, rooms: seq<string>, history: map<string, seq<Event>>)
    requires m.Keys <= n.Keys && IngestRooms(m, rooms, history).Keys <= n.Keys
    ensures IngestRooms(n, rooms, history) == n
    decreases |rooms|
  {
    if rooms != [] {
      var room := rooms[0];
      var m' := if room in history then IngestEvents(m, history[room]) else m;
      assert m'.Keys <= IngestRooms(m', rooms[1..], history).Keys;
      if room in history {
        IngestEventsAbsorbed(m, n, history[room]);
      }
      IngestRoomsAbsorbed(m', n, rooms[1..], history);
    }
  }

  /** Syncing twice over the same history gives the table one sync gives. */
  lemma SyncIdempotent(rows: Rows, rooms: seq<string>, history: map<string, seq<Event>>)
    ensures IngestRooms(IngestRooms(rows, rooms, history), rooms, history) == IngestRooms(rows, rooms, history)
  {
    IngestRoomsAbsorbed(rows, IngestRooms(rows, rooms, history), rooms, history);
  }
}
