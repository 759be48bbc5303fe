/** The eviction runs of the cleaner: `run_retention` deletes every upload older
    than the policy allows, `run_pressure` deletes the largest uploads while the disk
    stays above the pressure threshold. Each deletion redacts the event, unlinks its
    files and drops its row; a failure anywhere in that sequence is caught and the
    run goes on with the next candidate. */
module Eviction {
  import opened Wrappers
  import opened PyValue
  import opened Text
  import opened Media
  import opened Uploads
  import opened Selection
  import opened Ledger

  /** `Policy`: retention windows in days and disk-use thresholds as fractions. */
  datatype Policy = Policy(imageDays: int, nonImageDays: int, pressure: real, emergency: real)

  const DefaultPolicy: Policy := Policy(90, 30, 0.85, 0.92)

  const MsPerDay: int := 86400000

  /** The retention query of a run at `nowMs`, milliseconds since the epoch: each
      cutoff lies its window of days before now. */
  function RetentionQueryAt(policy: Policy, nowMs: int): Query
  {
    RetentionQuery(nowMs - policy.imageDays * MsPerDay, nowMs - policy.nonImageDays * MsPerDay)
  }

  /** With the default policy, images go after 90 days and other files after 30. */
  lemma DefaultRetentionWindows(nowMs: int, r: UploadRecord)
    ensures Selected(RetentionQueryAt(DefaultPolicy, nowMs), r) <==>
              nowMs - r.timestamp > (if IsImage(r.mimetype) then 90 else 30) * MsPerDay
  {
  }

  /** The reason given with a redaction. */
  datatype Reason = RetentionReason | PressureReason | EmergencyReason

  function ReasonText(reason: Reason): string
  {
    match reason
    case RetentionReason => "Catcord cleanup: retention"
    case PressureReason => "Catcord cleanup: pressure"
    case EmergencyReason => "Catcord cleanup: emergency"
  }

  /** The reason of a pressure deletion made at disk use `used`. */
  function ReasonAt(policy: Policy, used: real): (r: Reason)
    ensures r == EmergencyReason <==> used >= policy.emergency
    ensures r != RetentionReason
  {
    if used >= policy.emergency then EmergencyReason else PressureReason
  }

  /** A `redact` call sent to the homeserver. */
  datatype Redaction = Redaction(roomId: string, eventId: string, reason: Reason)

  /** The homeserver as the cleaner sees it: the redactions asked of it, and the
      events whose redaction raises. */
  class Homeserver {
    var redactions: seq<Redaction>
    const redactFails: set<string>

    constructor (redactFails: set<string>)
      ensures redactions == [] && this.redactFails == redactFails
    {
      redactions := [];
      this.redactFails := redactFails;
    }

    /** `session.client.redact(room, event, reason=...)`. */
    method Redact(roomId: string, eventId: string, reason: Reason) returns (raised: bool)
      modifies this
      ensures redactions == old(redactions) + [Redaction(roomId, eventId, reason)]
      ensures raised <==> eventId in redactFails
    {
      redactions := redactions + [Redaction(roomId, eventId, reason)];
      raised := eventId in redactFails;
    }
  }

  /** Everything that can raise inside the eviction of one candidate. */
  datatype Faults = Faults(fs: FsFaults, redactFails: set<string>)

  /** The state an eviction run works on and the two counters it keeps. */
  datatype Tally = Tally(rows: Rows, files: seq<FileEntry>, redactions: seq<Redaction>, deleted: nat, freed: nat)

  /** Where the unlink loop of one candidate ended. */
  datatype Removal = Removal(files: seq<FileEntry>, freed: nat, raised: bool)

  /** `for p in paths: if p.exists(): freed += p.stat().st_size; p.unlink()` from
      path `i` on: missing paths are skipped, and the first `stat` or `unlink` that
      raises ends the loop, after the size of a file whose unlink fails was already
      counted. */
  function RemoveFrom(files: seq<FileEntry>, freed: nat, paths: seq<FilePath>, i: nat, fs: FsFaults): (r: Removal)
    requires i <= |paths|
    decreases |paths| - i
  {
    if i == |paths| then Removal(files, freed, false)
    else
      var p := paths[i];
      if !Exists(files, p) then RemoveFrom(files, freed, paths, i + 1, fs)
      else if p in fs.statFails then Removal(files, freed, true)
      else
        var freed' := freed + SizeAt(files, p);
        if p in fs.unlinkFails then Removal(files, freed', true)
        else RemoveFrom(Without(files, p), freed', paths, i + 1, fs)
  }

  /** The unlink loop only adds to the counter, raises only at a failing `stat` or
      `unlink`, and in a tree without shared paths counts at least (and, when no
      unlink fails, exactly) the bytes that left the tree. */
  lemma {:induction false} RemoveFromFrees(files: seq<FileEntry>, freed: nat, paths: seq<FilePath>, i: nat, fs: FsFaults)
    requires i <= |paths|
    ensures var r := RemoveFrom(files, freed, paths, i, fs);
            r.freed >= freed
            && (fs.statFails == {} && fs.unlinkFails == {} ==> !r.raised)
            && (UniquePaths(files) ==> UniquePaths(r.files))
            && (UniquePaths(files) ==> r.freed - freed >= TotalSize(files) - TotalSize(r.files))
            && (UniquePaths(files) && fs.unlinkFails == {} ==>
                  r.freed - freed == TotalSize(files) - TotalSize(r.files))
    decreases |paths| - i
  {
    if i < |paths| {
      var p := paths[i];
      if !Exists(files, p) {
        RemoveFromFrees(files, freed, paths, i + 1, fs);
      } else if p !in fs.statFails && p !in fs.unlinkFails {
        WithoutSize(files, p);
        RemoveFromFrees(Without(files, p), freed + SizeAt(files, p), paths, i + 1, fs);
      }
    }
  }

  /** The unlink loop raises exactly when one of the paths still to visit holds a
      file whose `stat` or `unlink` fails. */
  lemma {:induction false} RemoveFromRaises(files: seq<FileEntry>, freed: nat, paths: seq<FilePath>, i: nat, fs: FsFaults)
    requires i <= |paths|
    ensures RemoveFrom(files, freed, paths, i, fs).raised <==>
              exists j :: i <= j < |paths| && Exists(files, paths[j])
                          && (paths[j] in fs.statFails || paths[j] in fs.unlinkFails)
    decreases |paths| - i
  {
    if i < |paths| {
      var p := paths[i];
      if !Exists(files, p) {
        RemoveFromRaises(files, freed, paths, i + 1, fs);
      } else if p in fs.statFails || p in fs.unlinkFails {
        assert Exists(files, paths[i]);
      } else {
        RemoveFromRaises(Without(files, p), freed + SizeAt(files, p), paths, i + 1, fs);
      }
    }
  }

  /** In a tree without shared paths, the unlink loop counts exactly the bytes that
      left the tree, plus, when it ended at a failing `unlink`, the size of the one
      file that stayed. */
  lemma {:induction false} RemoveFromFreedBound(files: seq<FileEntry>, freed: nat, paths: seq<FilePath>, i: nat, fs: FsFaults)
    requires i <= |paths| && UniquePaths(files)
    ensures var r := RemoveFrom(files, freed, paths, i, fs);
            r.freed - freed == TotalSize(files) - TotalSize(r.files)
            || (r.raised && exists k :: 0 <= k < |r.files| && r.files[k].path in fs.unlinkFails
                                        && r.freed - freed == TotalSize(files) - TotalSize(r.files) + r.files[k].size)
    decreases |paths| - i
  {
    if i < |paths| {
      var p := paths[i];
      if !Exists(files, p) {
        RemoveFromFreedBound(files, freed, paths, i + 1, fs);
      } else if p in fs.statFails {
      } else if p in fs.unlinkFails {
        SizeAtEntry(files, p);
      } else {
        WithoutSize(files, p);
        RemoveFromFreedBound(Without(files, p), freed + SizeAt(files, p), paths, i + 1, fs);
      }
    }
  }

  /** The `try` block of one candidate: redact, unlink its files, delete its row and
      count it. A failed redaction changes nothing further; a failed unlink keeps
      the row and the count but not the bytes and files already handled. */
  function Evict(t: Tally, rec: UploadRecord, reason: Reason, f: Faults): (r: Tally)
    ensures r.redactions == t.redactions + [Redaction(rec.roomId, rec.eventId, reason)]
  {
    var t1 := t.(redactions := t.redactions + [Redaction(rec.roomId, rec.eventId, reason)]);
    if rec.eventId in f.redactFails then t1
    else
      var rm := RemoveFrom(t.files, t.freed, MediaFilesOf(t.files, rec.mxcUri), 0, f.fs);
      if rm.raised then t1.(files := rm.files, freed := rm.freed)
      else t1.(rows := t.rows - {rec.eventId}, files := rm.files, freed := rm.freed, deleted := t.deleted + 1)
  }

  /** One eviction drops the candidate's row and counts it exactly when the
      redaction and every `stat` and `unlink` of its existing files succeed;
      otherwise rows and count stay. A failed redaction touches no file, and
      after a successful one the tree and the bytes are where the unlink loop
      left them. */
  lemma EvictRows(t: Tally, rec: UploadRecord, reason: Reason, f: Faults)
    ensures var r := Evict(t, rec, reason, f);
            var paths := MediaFilesOf(t.files, rec.mxcUri);
            var rm := RemoveFrom(t.files, t.freed, paths, 0, f.fs);
            var failing := exists j :: 0 <= j < |paths| && Exists(t.files, paths[j])
                                       && (paths[j] in f.fs.statFails || paths[j] in f.fs.unlinkFails);
            (rec.eventId !in f.redactFails && !failing ==>
               r.rows == t.rows - {rec.eventId} && r.deleted == t.deleted + 1)
            && (rec.eventId in f.redactFails || failing ==> r.rows == t.rows && r.deleted == t.deleted)
            && (rec.eventId in f.redactFails ==> r.files == t.files && r.freed == t.freed)
            && (rec.eventId !in f.redactFails ==> r.files == rm.files && r.freed == rm.freed)
  {
    RemoveFromRaises(t.files, t.freed, MediaFilesOf(t.files, rec.mxcUri), 0, f.fs);
  }

  lemma EvictFaultFree(t: Tally, rec: UploadRecord, reason: Reason, f: Faults)
    requires f.redactFails == {} && f.fs.statFails == {} && f.fs.unlinkFails == {}
    ensures var r := Evict(t, rec, reason, f);
            r.rows == t.rows - {rec.eventId} && r.deleted == t.deleted + 1
  {
    RemoveFromFrees(t.files, t.freed, MediaFilesOf(t.files, rec.mxcUri), 0, f.fs);
  }

  /** One eviction only adds to the freed counter, keeps paths apart, and without
      failing unlinks counts exactly the bytes that left the tree. */
  lemma EvictFrees(t: Tally, rec: UploadRecord, reason: Reason, f: Faults)
    ensures var r := Evict(t, rec, reason, f);
            r.freed >= t.freed
            && (UniquePaths(t.files) ==> UniquePaths(r.files))
            && (UniquePaths(t.files) && f.fs.unlinkFails == {} ==>
                  r.freed - t.freed == TotalSize(t.files) - TotalSize(r.files))
  {
    RemoveFromFrees(t.files, t.freed, MediaFilesOf(t.files, rec.mxcUri), 0, f.fs);
  }

  /** In a tree without shared paths, one eviction counts exactly the bytes that
      left the tree, plus at most the size of one file whose `unlink` failed and
      which is still there. */
  lemma EvictFreedBound(t: Tally, rec: UploadRecord, reason: Reason, f: Faults)
    requires UniquePaths(t.files)
    ensures var r := Evict(t, rec, reason, f);
            r.freed - t.freed == TotalSize(t.files) - TotalSize(r.files)
            || exists k :: 0 <= k < |r.files| && r.files[k].path in f.fs.unlinkFails
                           && r.freed - t.freed == TotalSize(t.files) - TotalSize(r.files) + r.files[k].size
  {
    RemoveFromFreedBound(t.files, t.freed, MediaFilesOf(t.files, rec.mxcUri), 0, f.fs);
  }

  /** A dry-run step: the candidate is only counted. */
  function Pretend(t: Tally): Tally
  {
    t.(deleted := t.deleted + 1)
  }

  /** The loop of `run_retention` from candidate `i` on. */
  function RetentionFrom(t: Tally, cands: seq<UploadRecord>, i: nat, f: Faults, dry: bool): Tally
    requires i <= |cands|
    decreases |cands| - i
  {
    if i == |cands| then t
    else
      var t' := if dry then Pretend(t) else Evict(t, cands[i], RetentionReason, f);
      RetentionFrom(t', cands, i + 1, f, dry)
  }

  /** How the loop of `run_pressure` ended: out of candidates, at a reading below the
      threshold (the `break`), or at a reading that raised. */
  datatype Stop = Exhausted | Relieved | ProbeRaised

  /** The state after the loop and the number of candidates it reached. */
  datatype PressureEnd = PressureEnd(tally: Tally, stop: Stop, visited: nat)

  /** The loop of `run_pressure` from candidate `i` on; `probe(j)` is the disk use
      measured before candidate `j` (`None` when the measurement raises). */
  function PressureFrom(t: Tally, cands: seq<UploadRecord>, i: nat, policy: Policy,
                        probe: nat -> Option<real>, f: Faults, dry: bool): (r: PressureEnd)
    requires i <= |cands|
    ensures i <= r.visited <= |cands|
    decreases |cands| - i
  {
    if i == |cands| then PressureEnd(t, Exhausted, i)
    else match probe(i)
      case None => PressureEnd(t, ProbeRaised, i)
      case Some(used) =>
        if used < policy.pressure then PressureEnd(t, Relieved, i)
        else
          var t' := if dry then Pretend(t) else Evict(t, cands[i], ReasonAt(policy, used), f);
          PressureFrom(t', cands, i + 1, policy, probe, f, dry)
  }

  /** The pressure loop reaches exactly the candidates read at or above the
      threshold, and stops at the end of the list, at the first reading below it,
      or at the first reading that raised. */
  lemma {:induction false} PressureStops(t: Tally, cands: seq<UploadRecord>, i: nat, policy: Policy,
                                         probe: nat -> Option<real>, f: Faults, dry: bool)
    requires i <= |cands|
    ensures var r := PressureFrom(t, cands, i, policy, probe, f, dry);
            (forall j :: i <= j < r.visited ==> probe(j).Some? && probe(j).value >= policy.pressure)
            && (r.stop == Exhausted <==> r.visited == |cands|)
            && (r.stop == Relieved ==> probe(r.visited).Some? && probe(r.visited).value < policy.pressure)
            && (r.stop == ProbeRaised ==> probe(r.visited).None?)
    decreases |cands| - i
  {
    if i < |cands| && probe(i).Some? && probe(i).value >= policy.pressure {
      var t' := if dry then Pretend(t) else Evict(t, cands[i], ReasonAt(policy, probe(i).value), f);
      PressureStops(t', cands, i + 1, policy, probe, f, dry);
    }
  }

  /** Which run a notice reports. */
  datatype RunKind = RetentionRun | PressureRun

  /** The summary sent to the notifications room; the `[DRY-RUN] ` prefix is sent
      exactly when `dryRun` holds. */
  datatype Notice = Notice(room: string, kind: RunKind, dryRun: bool, deleted: nat, freed: nat)

  /** `if notifications_room and (deleted > 0 or send_zero or dry_run)`. */
  function NoticeFor(room: Option<string>, kind: RunKind, sendZero: bool, dry: bool,
                     deleted: nat, freed: nat): (r: Option<Notice>)
    ensures r.Some? <==> room.Some? && room.value != "" && (deleted > 0 || sendZero || dry)
    ensures r.Some? ==> r.value == Notice(room.value, kind, dry, deleted, freed)
  {
    if room.Some? && room.value != "" && (deleted > 0 || sendZero || dry) then
      Some(Notice(room.value, kind, dry, deleted, freed))
    else None
  }

  // ---------------------------------------------------------------------------
  // What the runs promise

  /** A dry retention run only counts its candidates: no redaction, no unlink, no
      row deleted, nothing freed. */
  lemma {:induction false} RetentionDryRun(t: Tally, cands: seq<UploadRecord>, i: nat, f: Faults)
    requires i <= |cands|
    ensures RetentionFrom(t, cands, i, f, true) == t.(deleted := t.deleted + (|cands| - i))
    decreases |cands| - i
  {
    if i < |cands| {
      RetentionDryRun(Pretend(t), cands, i + 1, f);
    }
  }

  /** A dry pressure run only counts the candidates it reaches. */
  lemma {:induction false} PressureDryRun(t: Tally, cands: seq<UploadRecord>, i: nat, policy: Policy,
                                          probe: nat -> Option<real>, f: Faults)
    requires i <= |cands|
    ensures var e := PressureFrom(t, cands, i, policy, probe, f, true);
            e.tally == t.(deleted := t.deleted + (e.visited - i))
    decreases |cands| - i
  {
    if i < |cands| && probe(i).Some? && probe(i).value >= policy.pressure {
      PressureDryRun(Pretend(t), cands, i + 1, policy, probe, f);
    }
  }

  /** A run never adds or changes rows, deletes at most one row per candidate, and
      its freed counter only grows. */
  lemma {:induction false} RetentionBounds(t: Tally, cands: seq<UploadRecord>, i: nat, f: Faults, dry: bool)
    requires i <= |cands|
    ensures var e := RetentionFrom(t, cands, i, f, dry);
            e.deleted <= t.deleted + (|cands| - i) && e.freed >= t.freed
            && e.rows.Keys <= t.rows.Keys && (forall k :: k in e.rows ==> e.rows[k] == t.rows[k])
    decreases |cands| - i
  {
    if i < |cands| {
      var t' := if dry then Pretend(t) else Evict(t, cands[i], RetentionReason, f);
      if !dry {
        EvictRows(t, cands[i], RetentionReason, f);
        EvictFrees(t, cands[i], RetentionReason, f);
      }
      RetentionBounds(t', cands, i + 1, f, dry);
    }
  }

  lemma {:induction false} PressureBounds(t: Tally, cands: seq<UploadRecord>, i: nat, policy: Policy,
                                          probe: nat -> Option<real>, f: Faults, dry: bool)
    requires i <= |cands|
    ensures var e := PressureFrom(t, cands, i, policy, probe, f, dry);
            e.tally.deleted <= t.deleted + (e.visited - i) && e.tally.freed >= t.freed
            && e.tally.rows.Keys <= t.rows.Keys
            && (forall k :: k in e.tally.rows ==> e.tally.rows[k] == t.rows[k])
    decreases |cands| - i
  {
    if i < |cands| && probe(i).Some? && probe(i).value >= policy.pressure {
      var t' := if dry then Pretend(t) else Evict(t, cands[i], ReasonAt(policy, probe(i).value), f);
      if !dry {
        EvictRows(t, cands[i], ReasonAt(policy, probe(i).value), f);
        EvictFrees(t, cands[i], ReasonAt(policy, probe(i).value), f);
      }
      PressureBounds(t', cands, i + 1, policy, probe, f, dry);
    }
  }

  /** A live retention run asks for one redaction per candidate, in candidate order,
      each with the retention reason, whatever fails. */
  lemma {:induction false} RetentionRedactions(t: Tally, cands: seq<UploadRecord>, i: nat, f: Faults)
    requires i <= |cands|
    ensures var e := RetentionFrom(t, cands, i, f, false);
            |e.redactions| == |t.redactions| + (|cands| - i)
            && e.redactions[..|t.redactions|] == t.redactions
            && forall j :: i <= j < |cands| ==>
                 e.redactions[|t.redactions| + (j - i)] == Redaction(cands[j].roomId, cands[j].eventId, RetentionReason)
    decreases |cands| - i
  {
    if i < |cands| {
      var t' := Evict(t, cands[i], RetentionReason, f);
      RetentionRedactions(t', cands, i + 1, f);
      var e := RetentionFrom(t', cands, i + 1, f, false);
      assert e.redactions[..|t'.redactions|] == t'.redactions;
      assert e.redactions[..|t.redactions|] == t'.redactions[..|t.redactions|];
      assert e.redactions[|t.redactions|] == t'.redactions[|t.redactions|];
    }
  }

  /** The reason a pressure deletion gives after reading `reading`. */
  function ReadingReason(policy: Policy, reading: Option<real>): Reason
  {
    if reading.Some? then ReasonAt(policy, reading.value) else PressureReason
  }

  /** The redactions a live pressure run asks for when it reaches candidates `i` up
      to `n`: one per candidate, in order, each with the reason of its reading. */
  function PressureAsked(cands: seq<UploadRecord>, i: nat, n: nat, policy: Policy,
                         probe: nat -> Option<real>): (r: seq<Redaction>)
    requires i <= n <= |cands|
    ensures |r| == n - i
    decreases n - i
  {
    if i == n then []
    else [Redaction(cands[i].roomId, cands[i].eventId, ReadingReason(policy, probe(i)))]
         + PressureAsked(cands, i + 1, n, policy, probe)
  }

  lemma {:induction false} PressureAskedAt(cands: seq<UploadRecord>, i: nat, n: nat, policy: Policy,
                                           probe: nat -> Option<real>, j: nat)
    requires i <= j < n <= |cands|
    ensures PressureAsked(cands, i, n, policy, probe)[j - i]
            == Redaction(cands[j].roomId, cands[j].eventId, ReadingReason(policy, probe(j)))
    decreases j - i
  {
    if i < j {
      PressureAskedAt(cands, i + 1, n, policy, probe, j);
    }
  }

  /** The log of a live pressure run is the log it started from followed by what
      it asked for. */
  lemma {:induction false} PressureLog(t: Tally, cands: seq<UploadRecord>, i: nat, policy: Policy,
                                       probe: nat -> Option<real>, f: Faults)
    requires i <= |cands|
    ensures var e := PressureFrom(t, cands, i, policy, probe, f, false);
            e.tally.redactions == t.redactions + PressureAsked(cands, i, e.visited, policy, probe)
    decreases |cands| - i
  {
    if i < |cands| && probe(i).Some? && probe(i).value >= policy.pressure {
      var x := Redaction(cands[i].roomId, cands[i].eventId, ReadingReason(policy, probe(i)));
      var t' := Evict(t, cands[i], ReasonAt(policy, probe(i).value), f);
      PressureLog(t', cands, i + 1, policy, probe, f);
      var v := PressureFrom(t', cands, i + 1, policy, probe, f, false).visited;
      assert PressureAsked(cands, i, v, policy, probe) == [x] + PressureAsked(cands, i + 1, v, policy, probe);
      assert t'.redactions == t.redactions + [x];
    }
  }

  /** A live pressure run asks for one redaction per candidate it reaches, and the
      reason is `emergency` exactly when the reading before that candidate is at or
      above the emergency threshold. */
  lemma PressureRedactions(t: Tally, cands: seq<UploadRecord>, i: nat, policy: Policy,
                           probe: nat -> Option<real>, f: Faults)
    requires i <= |cands|
    ensures var e := PressureFrom(t, cands, i, policy, probe, f, false);
            |e.tally.redactions| == |t.redactions| + (e.visited - i)
            && e.tally.redactions[..|t.redactions|] == t.redactions
            && forall j :: i <= j < e.visited ==>
                 probe(j).Some? &&
                 e.tally.redactions[|t.redactions| + (j - i)]
                   == Redaction(cands[j].roomId, cands[j].eventId, ReasonAt(policy, probe(j).value))
  {
    PressureLog(t, cands, i, policy, probe, f);
    PressureStops(t, cands, i, policy, probe, f, false);
    var e := PressureFrom(t, cands, i, policy, probe, f, false);
    var asked := PressureAsked(cands, i, e.visited, policy, probe);
    assert e.tally.redactions == t.redactions + asked;
    forall j | i <= j < e.visited
      ensures e.tally.redactions[|t.redactions| + (j - i)]
              == Redaction(cands[j].roomId, cands[j].eventId, ReadingReason(policy, probe(j)))
    {
      PressureAskedAt(cands, i, e.visited, policy, probe, j);
    }
  }

  /** A row a retention run removes belongs to a candidate whose redaction
      succeeded; in particular a row whose redaction raises stays. */
  lemma {:induction false} RetentionRemovesRedacted(t: Tally, cands: seq<UploadRecord>, i: nat, f: Faults, dry: bool, k: string)
    requires i <= |cands|
    requires k in t.rows && k !in RetentionFrom(t, cands, i, f, dry).rows
    ensures !dry && k !in f.redactFails
    ensures exists j :: i <= j < |cands| && cands[j].eventId == k
    decreases |cands| - i
  {
    if dry {
      RetentionDryRun(t, cands, i, f);
    } else {
      var t' := Evict(t, cands[i], RetentionReason, f);
      EvictRows(t, cands[i], RetentionReason, f);
      if k in t'.rows {
        RetentionRemovesRedacted(t', cands, i + 1, f, dry, k);
      }
    }
  }

  lemma {:induction false} PressureRemovesRedacted(t: Tally, cands: seq<UploadRecord>, i: nat, policy: Policy,
                                                   probe: nat -> Option<real>, f: Faults, dry: bool, k: string)
    requires i <= |cands|
    requires k in t.rows && k !in PressureFrom(t, cands, i, policy, probe, f, dry).tally.rows
    ensures !dry && k !in f.redactFails
    ensures exists j :: i <= j < PressureFrom(t, cands, i, policy, probe, f, dry).visited && cands[j].eventId == k
    decreases |cands| - i
  {
    if dry {
      PressureDryRun(t, cands, i, policy, probe, f);
    } else {
      var used := probe(i).value;
      var t' := Evict(t, cands[i], ReasonAt(policy, used), f);
      EvictRows(t, cands[i], ReasonAt(policy, used), f);
      if k in t'.rows {
        PressureRemovesRedacted(t', cands, i + 1, policy, probe, f, dry, k);
      }
    }
  }

  /** Candidates with distinct ids that are all rows: every deletion the live run
      counts is one row gone, so rows plus count is constant. */
  lemma {:induction false} RetentionAccounting(t: Tally, cands: seq<UploadRecord>, i: nat, f: Faults)
    requires i <= |cands| && DistinctIds(cands)
    requires forall j :: i <= j < |cands| ==> cands[j].eventId in t.rows
    ensures var e := RetentionFrom(t, cands, i, f, false);
            |e.rows| + e.deleted == |t.rows| + t.deleted
    decreases |cands| - i
  {
    if i < |cands| {
      var t' := Evict(t, cands[i], RetentionReason, f);
      EvictRows(t, cands[i], RetentionReason, f);
      assert forall j :: i + 1 <= j < |cands| ==> cands[j].eventId != cands[i].eventId;
      RetentionAccounting(t', cands, i + 1, f);
    }
  }

  lemma {:induction false} PressureAccounting(t: Tally, cands: seq<UploadRecord>, i: nat, policy: Policy,
                                              probe: nat -> Option<real>, f: Faults)
    requires i <= |cands| && DistinctIds(cands)
    requires forall j :: i <= j < |cands| ==> cands[j].eventId in t.rows
    ensures var e := PressureFrom(t, cands, i, policy, probe, f, false);
            |e.tally.rows| + e.tally.deleted == |t.rows| + t.deleted
    decreases |cands| - i
  {
    if i < |cands| && probe(i).Some? && probe(i).value >= policy.pressure {
      var reason := ReasonAt(policy, probe(i).value);
      var t' := Evict(t, cands[i], reason, f);
      EvictRows(t, cands[i], reason, f);
      assert |t'.rows| + t'.deleted == |t.rows| + t.deleted;
      assert forall j :: i + 1 <= j < |cands| ==> cands[j].eventId != cands[i].eventId;
      PressureAccounting(t', cands, i + 1, policy, probe, f);
      assert PressureFrom(t, cands, i, policy, probe, f, false) == PressureFrom(t', cands, i + 1, policy, probe, f, false);
    }
  }

  /** Without failing unlinks, the freed counter of a run is exactly the number of
      bytes that left the tree. */
  lemma {:induction false} RetentionFreed(t: Tally, cands: seq<UploadRecord>, i: nat, f: Faults, dry: bool)
    requires i <= |cands| && UniquePaths(t.files) && f.fs.unlinkFails == {}
    ensures var e := RetentionFrom(t, cands, i, f, dry);
            e.freed - t.freed == TotalSize(t.files) - TotalSize(e.files)
    decreases |cands| - i
  {
    if i < |cands| {
      var t' := if dry then Pretend(t) else Evict(t, cands[i], RetentionReason, f);
      if !dry {
        EvictFrees(t, cands[i], RetentionReason, f);
      }
      RetentionFreed(t', cands, i + 1, f, dry);
    }
  }

  lemma {:induction false} PressureFreed(t: Tally, cands: seq<UploadRecord>, i: nat, policy: Policy,
                                         probe: nat -> Option<real>, f: Faults, dry: bool)
    requires i <= |cands| && UniquePaths(t.files) && f.fs.unlinkFails == {}
    ensures var e := PressureFrom(t, cands, i, policy, probe, f, dry);
            e.tally.freed - t.freed == TotalSize(t.files) - TotalSize(e.tally.files)
    decreases |cands| - i
  {
    if i < |cands| && probe(i).Some? && probe(i).value >= policy.pressure {
      var reason := ReasonAt(policy, probe(i).value);
      var t' := if dry then Pretend(t) else Evict(t, cands[i], reason, f);
      if !dry {
        EvictFrees(t, cands[i], reason, f);
      }
      assert t'.freed - t.freed == TotalSize(t.files) - TotalSize(t'.files) && UniquePaths(t'.files);
      PressureFreed(t', cands, i + 1, policy, probe, f, dry);
      var e := PressureFrom(t', cands, i + 1, policy, probe, f, dry);
      assert PressureFrom(t, cands, i, policy, probe, f, dry) == e;
    }
  }

  /** Without faults, a live retention run deletes every candidate: each row goes and
      each is counted. */
  lemma {:induction false} RetentionFaultFree(t: Tally, cands: seq<UploadRecord>, i: nat, f: Faults)
    requires i <= |cands|
    requires f.redactFails == {} && f.fs.statFails == {} && f.fs.unlinkFails == {}
    ensures var e := RetentionFrom(t, cands, i, f, false);
            e.deleted == t.deleted + (|cands| - i)
            && forall j :: i <= j < |cands| ==> cands[j].eventId !in e.rows
    decreases |cands| - i
  {
    if i < |cands| {
      var t' := Evict(t, cands[i], RetentionReason, f);
      EvictFaultFree(t, cands[i], RetentionReason, f);
      RetentionFaultFree(t', cands, i + 1, f);
      RetentionBounds(t', cands, i + 1, f, false);
    }
  }

  // ---------------------------------------------------------------------------
  // The runs, on the ledger, the media tree and the homeserver

  /** The unlink loop of one candidate; `freed` is the run's counter. */
  method RemoveFiles(store: MediaStore, paths: seq<FilePath>, freed: nat) returns (freed': nat, raised: bool)
    modifies store
    ensures RemoveFrom(old(store.files), freed, paths, 0, store.faults) == Removal(store.files, freed', raised)
  {
    freed', raised := freed, false;
    var i := 0;
    while i < |paths|
      invariant 0 <= i <= |paths|
      invariant RemoveFrom(store.files, freed', paths, i, store.faults)
                == RemoveFrom(old(store.files), freed, paths, 0, store.faults)
    {
      ghost var before, counted := store.files, freed';
      var p := paths[i];
      if Exists(store.files, p) {
        var size, statRaised := store.Stat(p);
        if statRaised {
          raised := true;
          return;
        }
        freed' := freed' + size;
        var unlinkRaised := store.Unlink(p);
        if unlinkRaised {
          raised := true;
          return;
        }
        assert RemoveFrom(before, counted, paths, i, store.faults)
               == RemoveFrom(store.files, freed', paths, i + 1, store.faults);
      }
      i := i + 1;
    }
  }

  /** The `try` block of one candidate, with `paths` as found before it. */
  method EvictOne(ledger: UploadLedger, store: MediaStore, server: Homeserver, rec: UploadRecord,
                  paths: seq<FilePath>, reason: Reason, deleted: nat, freed: nat)
      returns (deleted': nat, freed': nat)
    requires ledger.Valid() && paths == MediaFilesOf(store.files, rec.mxcUri)
    modifies ledger, store, server
    ensures ledger.Valid()
    ensures Tally(ledger.rows, store.files, server.redactions, deleted', freed')
            == Evict(Tally(old(ledger.rows), old(store.files), old(server.redactions), deleted, freed),
                     rec, reason, Faults(store.faults, server.redactFails))
  {
    deleted', freed' := deleted, freed;
    var redactRaised := server.Redact(rec.roomId, rec.eventId, reason);
    if redactRaised {
      return;
    }
    var removeRaised;
    freed', removeRaised := RemoveFiles(store, paths, freed);
    if removeRaised {
      return;
    }
    ledger.Delete(rec.eventId);
    deleted' := deleted + 1;
  }

  /** `run_retention` at `nowMs`. The out-parameters are the list the query
      returned, the two counters, and the notice sent. */
  method RunRetention(ledger: UploadLedger, store: MediaStore, server: Homeserver, policy: Policy,
                      nowMs: int, room: Option<string>, sendZero: bool, dry: bool)
      returns (cands: seq<UploadRecord>, deleted: nat, freed: nat, notice: Option<Notice>)
    requires ledger.Valid()
    modifies ledger, store, server
    ensures ledger.Valid()
    ensures IsSelection(old(ledger.rows), RetentionQueryAt(policy, nowMs), cands)
    ensures RetentionFrom(Tally(old(ledger.rows), old(store.files), old(server.redactions), 0, 0),
                          cands, 0, Faults(store.faults, server.redactFails), dry)
            == Tally(ledger.rows, store.files, server.redactions, deleted, freed)
    ensures notice == NoticeFor(room, RetentionRun, sendZero, dry, deleted, freed)
  {
    cands := ledger.Select(RetentionQueryAt(policy, nowMs));
    ghost var f := Faults(store.faults, server.redactFails);
    ghost var start := Tally(ledger.rows, store.files, server.redactions, 0, 0);
    deleted, freed := 0, 0;
    var i := 0;
    while i < |cands|
      invariant 0 <= i <= |cands|
      invariant ledger.Valid()
      invariant f == Faults(store.faults, server.redactFails)
      invariant RetentionFrom(Tally(ledger.rows, store.files, server.redactions, deleted, freed), cands, i, f, dry)
                == RetentionFrom(start, cands, 0, f, dry)
    {
      var rec := cands[i];
      var paths := store.FindMediaFiles(rec.mxcUri);
      if dry {
        deleted := deleted + 1;
      } else {
        deleted, freed := EvictOne(ledger, store, server, rec, paths, RetentionReason, deleted, freed);
      }
      i := i + 1;
    }
    notice := NoticeFor(room, RetentionRun, sendZero, dry, deleted, freed);
  }

  /** The loop of `run_pressure` over the candidates the query returned;
      `probeRaised` is a reading that raised inside it. */
  method PressureLoop(ledger: UploadLedger, store: MediaStore, server: Homeserver, policy: Policy,
                      cands: seq<UploadRecord>, probe: nat -> Option<real>, dry: bool)
      returns (deleted: nat, freed: nat, probeRaised: bool)
    requires ledger.Valid()
    modifies ledger, store, server
    ensures ledger.Valid()
    ensures var e := PressureFrom(Tally(old(ledger.rows), old(store.files), old(server.redactions), 0, 0),
                                  cands, 0, policy, probe, Faults(store.faults, server.redactFails), dry);
            e.tally == Tally(ledger.rows, store.files, server.redactions, deleted, freed)
            && (probeRaised <==> e.stop == ProbeRaised)
  {
    ghost var f := Faults(store.faults, server.redactFails);
    ghost var goal := PressureFrom(Tally(ledger.rows, store.files, server.redactions, 0, 0),
                                   cands, 0, policy, probe, f, dry);
    deleted, freed, probeRaised := 0, 0, false;
    var i := 0;
    while i < |cands|
      invariant 0 <= i <= |cands|
      invariant ledger.Valid()
      invariant f == Faults(store.faults, server.redactFails)
      invariant PressureFrom(Tally(ledger.rows, store.files, server.redactions, deleted, freed),
                             cands, i, policy, probe, f, dry) == goal
    {
      var used := probe(i);
      if used.None? {
        probeRaised := true;
        return;
      }
      if used.value < policy.pressure {
        break;
      }
      var rec := cands[i];
      var paths := store.FindMediaFiles(rec.mxcUri);
      if dry {
        deleted := deleted + 1;
      } else {
        deleted, freed := EvictOne(ledger, store, server, rec, paths, ReasonAt(policy, used.value), deleted, freed);
      }
      i := i + 1;
    }
  }

  /** `run_pressure`. `first` is the reading taken before the query and `probe(j)`
      the one taken before candidate `j`; `outcome` is `Raises` when a reading
      raised, which ends the run without a notice. */
  method RunPressure(ledger: UploadLedger, store: MediaStore, server: Homeserver, policy: Policy,
                     first: Option<real>, probe: nat -> Option<real>, room: Option<string>,
                     sendZero: bool, dry: bool)
      returns (cands: seq<UploadRecord>, deleted: nat, freed: nat, outcome: Result<Option<Notice>>)
    requires ledger.Valid()
    modifies ledger, store, server
    ensures ledger.Valid()
    ensures first.None? || first.value < policy.pressure ==>
              cands == [] && deleted == 0 && freed == 0
              && ledger.rows == old(ledger.rows) && store.files == old(store.files)
              && server.redactions == old(server.redactions)
              && outcome == if first.None? then Raises else Ok(None)
    ensures first.Some? && first.value >= policy.pressure ==>
              IsSelection(old(ledger.rows), PressureQuery, cands)
              && var e := PressureFrom(Tally(old(ledger.rows), old(store.files), old(server.redactions), 0, 0),
                                        cands, 0, policy, probe, Faults(store.faults, server.redactFails), dry);
                 e.tally == Tally(ledger.rows, store.files, server.redactions, deleted, freed)
                 && outcome == if e.stop == ProbeRaised then Raises
                               else Ok(NoticeFor(room, PressureRun, sendZero, dry, deleted, freed))
  {
    cands, deleted, freed := [], 0, 0;
    if first.None? {
      return cands, deleted, freed, Raises;
    }
    if first.value < policy.pressure {
      return cands, deleted, freed, Ok(None);
    }
    cands := ledger.Select(PressureQuery);
    var probeRaised;
    deleted, freed, probeRaised := PressureLoop(ledger, store, server, policy, cands, probe, dry);
    if probeRaised {
      outcome := Raises;
    } else {
      outcome := Ok(NoticeFor(room, PressureRun, sendZero, dry, deleted, freed));
    }
  }
}
