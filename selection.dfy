/** The two queries by which the cleaner reads its candidates from the uploads
    table: which rows each one selects and the order it returns them in. */
module Selection {
  import opened PyValue
  import opened Text
  import opened Uploads

  /** SQLite's `mimetype LIKE 'image/%'`: a prefix test that ignores the case of
      ASCII letters. */
  predicate IsImage(m: string)
  {
    |m| >= 6 && Lower(m[..6]) == "image/"
  }

  lemma IsImageExamples()
    ensures IsImage("image/png") && IsImage("IMAGE/JPEG")
    ensures !IsImage("video/mp4") && !IsImage("") && !IsImage("image")
  {
    assert Lower("image/png"[..6]) == "image/";
    assert Lower("IMAGE/JPEG"[..6]) == "image/";
    assert Lower("video/mp4"[..6])[0] == 'v';
  }

  /** A mimetype stored from a number, a bool or a float never passes the
      image test: its text starts with a digit or a minus sign. */
  lemma StoredNumberNotImage(v: Value)
    requires !v.Null? && !v.Str? && StoredMimetype(v).Ok?
    ensures !IsImage(StoredMimetype(v).value)
  {
    var m := StoredMimetype(v).value;
    if |m| >= 6 {
      assert Lower(m[..6])[0] == LowerChar(m[0]);
    }
  }

  /** The retention query with its two cutoffs, or the pressure query over every
      row. */
  datatype Query = RetentionQuery(cutoffImage: int, cutoffOther: int) | PressureQuery

  /** The WHERE clause: an image older than the image cutoff, or any other file
      older than the other cutoff. The pressure query has none. */
  predicate Selected(q: Query, r: UploadRecord)
  {
    match q
    case RetentionQuery(ci, co) =>
      (IsImage(r.mimetype) && r.timestamp < ci) || (!IsImage(r.mimetype) && r.timestamp < co)
    case PressureQuery => true
  }

  /** `(mimetype LIKE 'image/%') ASC`: non-images sort first. */
  function Rank(r: UploadRecord): nat
  {
    if IsImage(r.mimetype) then 1 else 0
  }

  /** The ORDER BY of each query: `a` may come before `b`. Retention orders by
      timestamp ascending then size descending, pressure by size descending then
      timestamp ascending, both after the image rank. */
  predicate Before(q: Query, a: UploadRecord, b: UploadRecord)
  {
    Rank(a) < Rank(b)
    || (Rank(a) == Rank(b) &&
        match q
        case RetentionQuery(_, _) =>
          a.timestamp < b.timestamp || (a.timestamp == b.timestamp && a.size >= b.size)
        case PressureQuery =>
          a.size > b.size || (a.size == b.size && a.timestamp <= b.timestamp))
  }

  predicate Ordered(q: Query, s: seq<UploadRecord>)
  {
    forall i, j :: 0 <= i < j < |s| ==> Before(q, s[i], s[j])
  }

  predicate DistinctIds(s: seq<UploadRecord>)
  {
    forall i, j :: 0 <= i < j < |s| ==> s[i].eventId != s[j].eventId
  }

  /** A list the query may return over `rows`: every selected row once, in the
      query's order. Rows that tie on every sort key may come in any order. */
  ghost predicate IsSelection(rows: Rows, q: Query, cands: seq<UploadRecord>)
  {
    Ordered(q, cands) && DistinctIds(cands)
    && forall r :: r in cands <==> r.eventId in rows && rows[r.eventId] == r && Selected(q, r)
  }

  /** Any two rows are comparable. */
  lemma BeforeTotal(q: Query, a: UploadRecord, b: UploadRecord)
    ensures Before(q, a, b) || Before(q, b, a)
  {
  }

  lemma BeforeTransitive(q: Query, a: UploadRecord, b: UploadRecord, c: UploadRecord)
    requires Before(q, a, b) && Before(q, b, c)
    ensures Before(q, a, c)
  {
  }

  /** Inserting `x` into a list before the first element it may precede. */
  function InsertSorted(q: Query, x: UploadRecord, s: seq<UploadRecord>): (r: seq<UploadRecord>)
    ensures multiset(r) == multiset(s) + multiset{x}
  {
    if s == [] then [x]
    else if Before(q, x, s[0]) then [x] + s
    else
      assert s == [s[0]] + s[1..];
      [s[0]] + InsertSorted(q, x, s[1..])
  }

  /** Insertion keeps a list ordered. */
  lemma {:induction false} InsertSortedOrdered(q: Query, x: UploadRecord, s: seq<UploadRecord>)
    requires Ordered(q, s)
    ensures Ordered(q, InsertSorted(q, x, s))
  {
    if s != [] {
      if Before(q, x, s[0]) {
        forall j | 0 < j < |s| ensures Before(q, x, s[j]) {
          BeforeTransitive(q, x, s[0], s[j]);
        }
      } else {
        BeforeTotal(q, x, s[0]);
        var rest := InsertSorted(q, x, s[1..]);
        InsertSortedOrdered(q, x, s[1..]);
        assert s == [s[0]] + s[1..];
        forall y | y in rest ensures Before(q, s[0], y) {
          assert y in multiset(rest);
          if y != x {
            assert y in multiset(s[1..]);
            var j :| 0 <= j < |s[1..]| && s[1..][j] == y;
            assert s[j + 1] == y;
          }
        }
        var r := [s[0]] + rest;
        assert forall j :: 0 < j < |r| ==> r[j] == rest[j - 1];
      }
    }
  }

  /** Insertion of a row whose id the list lacks keeps the ids distinct. */
  lemma {:induction false} InsertSortedDistinct(q: Query, x: UploadRecord, s: seq<UploadRecord>)
    requires DistinctIds(s) && forall y :: y in s ==> y.eventId != x.eventId
    ensures DistinctIds(InsertSorted(q, x, s))
  {
    if s != [] && !Before(q, x, s[0]) {
      var rest := InsertSorted(q, x, s[1..]);
      InsertSortedDistinct(q, x, s[1..]);
      assert s == [s[0]] + s[1..];
      forall y | y in rest ensures y.eventId != s[0].eventId {
        assert y in multiset(rest);
        if y != x {
          assert y in multiset(s[1..]);
          var j :| 0 <= j < |s[1..]| && s[1..][j] == y;
          assert s[j + 1] == y;
        }
      }
      var r := [s[0]] + rest;
      assert forall j :: 0 < j < |r| ==> r[j] == rest[j - 1];
    }
  }

  /** The order refines the image rank: once an image is listed, only images
      follow. */
  lemma OrderedImagesLast(q: Query, s: seq<UploadRecord>, i: int, j: int)
    requires Ordered(q, s) && 0 <= i < j < |s| && IsImage(s[i].mimetype)
    ensures IsImage(s[j].mimetype)
  {
    assert Before(q, s[i], s[j]);
  }

  /** Within one class, retention lists the oldest first and, at one timestamp, the
      largest first. */
  lemma RetentionOrder(ci: int, co: int, s: seq<UploadRecord>, i: int, j: int)
    requires Ordered(RetentionQuery(ci, co), s) && 0 <= i < j < |s|
    requires IsImage(s[i].mimetype) == IsImage(s[j].mimetype)
    ensures s[i].timestamp <= s[j].timestamp
    ensures s[i].timestamp == s[j].timestamp ==> s[i].size >= s[j].size
  {
    assert Before(RetentionQuery(ci, co), s[i], s[j]);
  }

  /** Within one class, pressure lists the largest first and, at one size, the
      oldest first. */
  lemma PressureOrder(s: seq<UploadRecord>, i: int, j: int)
    requires Ordered(PressureQuery, s) && 0 <= i < j < |s|
    requires IsImage(s[i].mimetype) == IsImage(s[j].mimetype)
    ensures s[i].size >= s[j].size
    ensures s[i].size == s[j].size ==> s[i].timestamp <= s[j].timestamp
  {
    assert Before(PressureQuery, s[i], s[j]);
  }

  /** A retention candidate is older than the cutoff of its class, and an image
      between the two cutoffs is kept. */
  lemma RetentionSelects(ci: int, co: int, r: UploadRecord)
    ensures Selected(RetentionQuery(ci, co), r) <==>
              r.timestamp < (if IsImage(r.mimetype) then ci else co)
  {
  }

  /** Every selected candidate is a row of the table, under its own id. */
  lemma SelectionInRows(rows: Rows, q: Query, cands: seq<UploadRecord>, j: int)
    requires IsSelection(rows, q, cands) && 0 <= j < |cands|
    ensures cands[j].eventId in rows && rows[cands[j].eventId] == cands[j]
  {
    assert cands[j] in cands;
  }
}
