/** The uploads table as the cleaner keeps it between runs: written by `log_upload`
    and `sync_uploads`, read by the two candidate queries, and shrunk one row at a
    time as media is evicted. */
module Ledger {
  import opened PyValue
  import opened Text
  import opened Media
  import opened Uploads
  import opened Selection

  class UploadLedger {
    var rows: Rows

    /** Every row is stored under its own event id and holds a media reference. */
    ghost predicate Valid()
      reads this
    {
      WellFormed(rows)
    }

    /** `init_db` on a fresh database. */
    constructor ()
      ensures Valid() && rows == map[]
    {
      rows := map[];
    }

    /** `log_upload(conn, ev)`; `raised` is the exception that escapes it. */
    method LogUpload(ev: Event) returns (raised: bool)
      requires Valid()
      modifies this
      ensures Valid()
      ensures raised <==> Log(old(rows), ev).Raises?
      ensures rows == if raised then old(rows) else Log(old(rows), ev).value
    {
      var info := ExtractMediaInfo(ev.content);
      if info.Raises? {
        return true;
      }
      var url := info.value.url;
      if !url.Str? || !StartsWith(url.s, MxcScheme) {
        return false;
      }
      var rec := BoundRow(ev, info.value);
      if rec.Raises? {
        return true;
      }
      raised := false;
      if ev.eventId !in rows {
        rows := rows[ev.eventId := rec.value];
      }
    }

    /** `sync_uploads(session, conn, allowlist)`, where `joined` is what
        `get_joined_rooms` returns and `history[room]` what `get_messages` returns
        for `room` (a room without an entry is a fetch that raised). */
    method SyncUploads(joined: seq<string>, allowlist: seq<string>, history: map<string, seq<Event>>)
      requires Valid()
      modifies this
      ensures Valid()
      ensures rows == IngestRooms(old(rows), AllowedRooms(joined, allowlist), history)
    {
      var rooms := joined;
      if allowlist != [] {
        rooms := Filter(joined, allowlist);
      }
      ghost var target := IngestRooms(rows, rooms, history);
      var r := 0;
      while r < |rooms|
        invariant 0 <= r <= |rooms|
        invariant Valid()
        invariant IngestRooms(rows, rooms[r..], history) == target
      {
        assert rooms[r..][1..] == rooms[r + 1..];
        var room := rooms[r];
        if room in history {
          var chunk := history[room];
          ghost var expected := IngestEvents(rows, chunk);
          var e := 0;
          while e < |chunk|
            invariant 0 <= e <= |chunk|
            invariant Valid()
            invariant IngestEvents(rows, chunk[e..]) == expected
          {
            assert chunk[e..][1..] == chunk[e + 1..];
            var ev := chunk[e];
            if IsMediaEventType(ev.eventType) {
              var raised := LogUpload(ev);
              if raised {
                break;
              }
            }
            e := e + 1;
          }
        }
        r := r + 1;
      }
    }

    /** The SELECT of either query: some list the database may return, that is,
        every selected row once and in the query's order. */
    method Select(q: Query) returns (cands: seq<UploadRecord>)
      requires Valid()
      ensures IsSelection(rows, q, cands)
    {
      cands := [];
      var todo := rows.Keys;
      while todo != {}
        invariant todo <= rows.Keys
        invariant Ordered(q, cands) && DistinctIds(cands)
        invariant forall r :: r in cands <==>
                    r.eventId in rows.Keys - todo && rows[r.eventId] == r && Selected(q, r)
        decreases |todo|
      {
        var k :| k in todo;
        var rec := rows[k];
        if Selected(q, rec) {
          InsertSortedOrdered(q, rec, cands);
          InsertSortedDistinct(q, rec, cands);
          var next := InsertSorted(q, rec, cands);
          assert forall y :: y in next <==> y == rec || y in cands by {
            forall y ensures y in next <==> y == rec || y in cands {
              assert y in next <==> y in multiset(next);
              assert y in cands <==> y in multiset(cands);
            }
          }
          cands := next;
        }
        todo := todo - {k};
      }
    }

    /** `DELETE FROM uploads WHERE event_id = ?`. */
    method Delete(eventId: string)
      requires Valid()
      modifies this
      ensures Valid()
      ensures rows == old(rows) - {eventId}
    {
      rows := rows - {eventId};
    }
  }
}
