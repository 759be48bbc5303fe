/** The deterministic message text of the bots: the five-way storage label and the
    statistics blocks of a retention and of a pressure run.

    Numbers are rendered by a `Render` the caller supplies (`:.1f`, `:.2f` and
    `str()`), so the model fixes which line holds which rendered value without
    modelling float printing. */
module Formatting {
  import opened Wrappers
  import opened PyValue
  import opened Text

  /** The storage labels, from the least to the most full. */
  datatype Status = Healthy | Okay | Tight | Pressure | Critical

  function StatusText(s: Status): string
  {
    match s
    case Healthy => "healthy"
    case Okay => "OK"
    case Tight => "tight"
    case Pressure => "pressure"
    case Critical => "critical"
  }

  /** The position of a label in healthy < OK < tight < pressure < critical. */
  function StatusRank(s: Status): nat
  {
    match s
    case Healthy => 0
    case Okay => 1
    case Tight => 2
    case Pressure => 3
    case Critical => 4
  }

  /** `storage_status_label` on numbers: the first threshold, from the top, that
      the percentage reaches. A label is at least as severe as a step exactly when
      the percentage reaches that step's threshold or any above it, whatever the
      two configurable thresholds are. */
  function StatusLabel(percent: real, pressure: real, emergency: real): (s: Status)
    ensures s == Critical <==> percent >= emergency
    ensures StatusRank(s) >= 3 <==> percent >= emergency || percent >= pressure
    ensures StatusRank(s) >= 2 <==> percent >= emergency || percent >= pressure || percent >= 75.0
    ensures StatusRank(s) >= 1 <==>
              percent >= emergency || percent >= pressure || percent >= 75.0 || percent >= 50.0
  {
    if percent >= emergency then Critical
    else if percent >= pressure then Pressure
    else if percent >= 75.0 then Tight
    else if percent >= 50.0 then Okay
    else Healthy
  }

  /** With the thresholds fixed, a fuller disk never gets a milder label. */
  lemma StatusMonotone(p: real, q: real, pressure: real, emergency: real)
    requires p <= q
    ensures StatusRank(StatusLabel(p, pressure, emergency)) <= StatusRank(StatusLabel(q, pressure, emergency))
  {
  }

  /** The labels at the default thresholds 85 and 92. */
  lemma StatusExamples()
    ensures StatusLabel(30.0, 85.0, 92.0) == Healthy
    ensures StatusLabel(60.0, 85.0, 92.0) == Okay
    ensures StatusLabel(80.0, 85.0, 92.0) == Tight
    ensures StatusLabel(87.0, 85.0, 92.0) == Pressure
    ensures StatusLabel(95.0, 85.0, 92.0) == Critical
  {
  }

  /** `storage_status_label` on the values read from a payload. A comparison of a
      non-number raises; the pressure threshold is only compared once the
      emergency one is not reached. */
  function StatusOf(percent: Value, pressure: Value, emergency: Value): (r: Result<Status>)
    ensures r.Ok? <==> AsNumber(percent).Some? && AsNumber(emergency).Some?
                       && (AsNumber(percent).value >= AsNumber(emergency).value || AsNumber(pressure).Some?)
    ensures r.Ok? && AsNumber(pressure).Some? ==>
              r.value == StatusLabel(AsNumber(percent).value, AsNumber(pressure).value, AsNumber(emergency).value)
  {
    match (AsNumber(percent), AsNumber(emergency))
    case (Some(p), Some(e)) =>
      if p >= e then Ok(Critical)
      else (match AsNumber(pressure)
            case Some(t) => Ok(StatusLabel(p, t, e))
            case None => Raises)
    case _ => Raises
  }

  /** How numbers are turned into text: `{x:.1f}`, `{x:.2f}` and `{x}`. */
  datatype Render = Render(fixed1: real -> string, fixed2: real -> string, show: Value -> string)

  /** `{v:.1f}` (or `:.2f`): only numbers can be formatted with a precision. */
  function Fixed(f: real -> string, v: Value): (r: Result<string>)
    ensures r.Ok? <==> AsNumber(v).Some?
    ensures r.Ok? ==> r.value == f(AsNumber(v).value)
  {
    match AsNumber(v)
    case Some(x) => Ok(f(x))
    case None => Raises
  }

  /** The fields both statistics blocks read, each already defaulted. */
  datatype Summary = Summary(
    percentBefore: Value, percentAfter: Value, pressure: Value, emergency: Value,
    deleted: Value, freed: Value, images: Value, nonImages: Value,
    candidates: Value, totalFiles: Value, duration: Value)

  /** The sections `disk`, `actions`, `timing` and `actions.deleted_by_type`, each
      read as `x or {}`. */
  function SectionsOf(payload: Dict): (r: Result<(Dict, Dict, Dict, Dict)>)
    ensures r.Raises? <==>
              Section(Get(payload, "disk")).Raises? || Section(Get(payload, "actions")).Raises?
              || Section(Get(payload, "timing")).Raises?
              || (Section(Get(payload, "actions")).Ok?
                  && Section(Get(Section(Get(payload, "actions")).value, "deleted_by_type")).Raises?)
    ensures r.Ok? && !Truthy(Get(payload, "disk")) ==> r.value.0 == map[]
    ensures r.Ok? && !Truthy(Get(payload, "actions")) ==> r.value.1 == map[] && r.value.3 == map[]
    ensures r.Ok? && !Truthy(Get(payload, "timing")) ==> r.value.2 == map[]
    ensures r.Ok? ==> r.value.0 == Section(Get(payload, "disk")).value
                      && r.value.1 == Section(Get(payload, "actions")).value
                      && r.value.2 == Section(Get(payload, "timing")).value
                      && r.value.3 == Section(Get(r.value.1, "deleted_by_type")).value
  {
    match (Section(Get(payload, "disk")), Section(Get(payload, "actions")), Section(Get(payload, "timing")))
    case (Ok(disk), Ok(actions), Ok(timing)) =>
      (match Section(Get(actions, "deleted_by_type"))
       case Ok(byType) => Ok((disk, actions, timing, byType))
       case Raises => Raises)
    case _ => Raises
  }

  /** The `.get` calls of either formatter, with their defaults. Reading never
      raises beyond the sections themselves; a missing section or key gives
      percentages of 0, thresholds of 85 and 92 and counts, sizes and durations
      of 0. */
  function SummaryOf(payload: Dict): (r: Result<Summary>)
    ensures r.Ok? <==> SectionsOf(payload).Ok?
    ensures r.Ok? && !Truthy(Get(payload, "disk")) ==>
              r.value.percentBefore == Float(0.0) && r.value.percentAfter == Float(0.0)
              && r.value.pressure == Float(85.0) && r.value.emergency == Float(92.0)
    ensures r.Ok? && !Truthy(Get(payload, "actions")) ==>
              r.value.deleted == Int(0) && r.value.freed == Float(0.0)
              && r.value.images == Int(0) && r.value.nonImages == Int(0)
    ensures r.Ok? && !Truthy(Get(payload, "timing")) ==> r.value.duration == Int(0)
    ensures r.Ok? && "candidates_count" !in payload ==> r.value.candidates == Int(0)
    ensures r.Ok? && "total_files_count" !in payload ==> r.value.totalFiles == Int(0)
    ensures r.Ok? ==> var disk := Section(Get(payload, "disk")).value;
              r.value.percentBefore == GetOr(disk, "percent_before", Float(0.0))
              && r.value.percentAfter == GetOr(disk, "percent_after", Float(0.0))
              && r.value.pressure == GetOr(disk, "pressure_threshold", Float(85.0))
              && r.value.emergency == GetOr(disk, "emergency_threshold", Float(92.0))
    ensures r.Ok? ==> var actions := Section(Get(payload, "actions")).value;
              var byType := Section(Get(actions, "deleted_by_type")).value;
              r.value.deleted == GetOr(actions, "deleted_count", Int(0))
              && r.value.freed == GetOr(actions, "freed_gb", Float(0.0))
              && r.value.images == GetOr(byType, "images", Int(0))
              && r.value.nonImages == GetOr(byType, "non_images", Int(0))
    ensures r.Ok? ==> r.value.candidates == GetOr(payload, "candidates_count", Int(0))
                      && r.value.totalFiles == GetOr(payload, "total_files_count", Int(0))
                      && r.value.duration == GetOr(Section(Get(payload, "timing")).value, "duration_seconds", Int(0))
  {
    match SectionsOf(payload)
    case Raises => Raises
    case Ok((disk, actions, timing, byType)) =>
      Ok(Summary(
        GetOr(disk, "percent_before", Float(0.0)), GetOr(disk, "percent_after", Float(0.0)),
        GetOr(disk, "pressure_threshold", Float(85.0)), GetOr(disk, "emergency_threshold", Float(92.0)),
        GetOr(actions, "deleted_count", Int(0)), GetOr(actions, "freed_gb", Float(0.0)),
        GetOr(byType, "images", Int(0)), GetOr(byType, "non_images", Int(0)),
        GetOr(payload, "candidates_count", Int(0)), GetOr(payload, "total_files_count", Int(0)),
        GetOr(timing, "duration_seconds", Int(0))))
  }

  /** `"no action" if deleted == 0 else "cleanup performed"`. */
  function ResultText(deleted: Value): (r: string)
    ensures r == "no action" <==> EqualsZero(deleted)
    ensures r == "cleanup performed" <==> !EqualsZero(deleted)
  {
    if EqualsZero(deleted) then "no action" else "cleanup performed"
  }

  function DeletedLine(s: Summary, fmt: Render): string
  {
    "Deleted: " + fmt.show(s.deleted) + " (images=" + fmt.show(s.images)
    + ", non-images=" + fmt.show(s.nonImages) + ")"
  }

  /** A summary whose every field a retention block formats with a precision or
      compares is a number. */
  predicate RetentionNumeric(s: Summary)
  {
    AsNumber(s.percentBefore).Some? && AsNumber(s.pressure).Some? && AsNumber(s.emergency).Some?
    && AsNumber(s.freed).Some? && AsNumber(s.totalFiles).Some?
  }

  /** The lines of a retention block from the label and the rendered percentage,
      threshold and freed size; the "Files on disk" line is there when `files`
      holds. */
  function RetentionText(s: Summary, status: Status, percent: string, threshold: string,
                         freed: string, files: bool, fmt: Render): seq<string>
  {
    [ "Disk: " + percent + "% (threshold " + threshold + "%)",
      "Storage: " + StatusText(status),
      "Retention candidates: " + fmt.show(s.candidates),
      DeletedLine(s, fmt),
      "Freed: " + freed + " GB" ]
    + (if files then [FilesLabel + fmt.show(s.totalFiles)] else [])
    + [ "Duration: " + fmt.show(s.duration) + "s",
        "Result: " + ResultText(s.deleted) ]
  }

  /** The lines of a retention block for the values read from its payload. Every
      value it formats with a precision or compares must be a number; the label
      is the one of `percent_before` under the two thresholds. */
  function RetentionOf(s: Summary, fmt: Render): (r: Result<seq<string>>)
    ensures r.Ok? <==> RetentionNumeric(s)
  {
    if !RetentionNumeric(s) then Raises
    else
      var percent := AsNumber(s.percentBefore).value;
      var threshold := AsNumber(s.pressure).value;
      Ok(RetentionText(s, StatusLabel(percent, threshold, AsNumber(s.emergency).value),
                       fmt.fixed1(percent), fmt.fixed1(threshold), fmt.fixed2(AsNumber(s.freed).value),
                       AsNumber(s.totalFiles).value > 0.0, fmt))
  }

  /** The lines of `format_retention_stats`, before they are joined. */
  function RetentionLines(payload: Dict, fmt: Render): (r: Result<seq<string>>)
    ensures r.Ok? <==> SummaryOf(payload).Ok? && RetentionNumeric(SummaryOf(payload).value)
  {
    match SummaryOf(payload)
    case Raises => Raises
    case Ok(s) => RetentionOf(s, fmt)
  }

  /** The label of the file-count line. */
  const FilesLabel: string := "Files on disk: "

  /** "Result: " followed by different words gives different lines. */
  lemma ResultLine(x: string, y: string)
    ensures "Result: " + x == "Result: " + y <==> x == y
  {
    if "Result: " + x == "Result: " + y {
      assert x == ("Result: " + x)[8..];
    }
  }

  /** The file-count line is there exactly when asked for: no other line of the
      block starts like it. */
  lemma FilesLine(s: Summary, status: Status, percent: string, threshold: string,
                  freed: string, files: bool, fmt: Render)
    ensures var ls := RetentionText(s, status, percent, threshold, freed, files, fmt);
            && |ls| == (if files then 8 else 7)
            && ((exists k :: 0 <= k < |ls| && StartsWith(ls[k], FilesLabel)) <==> files)
  {
    var ls := RetentionText(s, status, percent, threshold, freed, files, fmt);
    if files {
      assert StartsWith(ls[5], FilesLabel);
    } else {
      forall k | 0 <= k < |ls| ensures !StartsWith(ls[k], FilesLabel) {
        if k == 4 {
          assert ls[k][1] == 'r';
        } else {
          assert ls[k][0] != 'F';
        }
      }
    }
  }

  /** A retention block has eight lines when the file count is positive, seven
      otherwise, and the "Files on disk" line among them exactly then. */
  lemma RetentionFilesLine(s: Summary, fmt: Render)
    requires RetentionOf(s, fmt).Ok?
    ensures var ls := RetentionOf(s, fmt).value;
            var files := AsNumber(s.totalFiles).value > 0.0;
            && |ls| == (if files then 8 else 7)
            && ((exists k :: 0 <= k < |ls| && StartsWith(ls[k], FilesLabel)) <==> files)
  {
    var percent := AsNumber(s.percentBefore).value;
    var threshold := AsNumber(s.pressure).value;
    var status := StatusLabel(percent, threshold, AsNumber(s.emergency).value);
    var freed := fmt.fixed2(AsNumber(s.freed).value);
    var files := AsNumber(s.totalFiles).value > 0.0;
    FilesLine(s, status, fmt.fixed1(percent), fmt.fixed1(threshold), freed, files, fmt);
  }

  /** The label of a retention block is the one of `percent_before` under the two
      thresholds. */
  lemma RetentionStatusLine(s: Summary, fmt: Render)
    requires RetentionOf(s, fmt).Ok?
    ensures var ls := RetentionOf(s, fmt).value;
            |ls| >= 7 && ls[1] == "Storage: " + StatusText(StatusLabel(AsNumber(s.percentBefore).value,
                                                  AsNumber(s.pressure).value, AsNumber(s.emergency).value))
  {
  }

  /** The last line of a retention block says "no action" exactly when nothing was
      deleted (and otherwise "cleanup performed", as `ResultText` states). */
  lemma RetentionResultLine(s: Summary, fmt: Render)
    requires RetentionOf(s, fmt).Ok?
    ensures var ls := RetentionOf(s, fmt).value;
            && |ls| >= 7 && ls[|ls| - 1] == "Result: " + ResultText(s.deleted)
            && (ls[|ls| - 1] == "Result: no action" <==> EqualsZero(s.deleted))
  {
    ResultLine(ResultText(s.deleted), "no action");
  }

  /** The arrow between the two percentages of the pressure block. */
  const Arrow: string := "\U{2192}"

  /** The arrow as `formatting.py` holds it: the UTF-8 bytes of U+2192 read back as
      cp1252, the three characters "\U{e2}\U{2020}\U{2019}". */
  const ArrowAsWritten: string := "\U{e2}\U{2020}\U{2019}"

  predicate PressureNumeric(s: Summary)
  {
    AsNumber(s.percentBefore).Some? && AsNumber(s.percentAfter).Some? && AsNumber(s.pressure).Some?
    && AsNumber(s.emergency).Some? && AsNumber(s.freed).Some?
  }

  /** The lines of a pressure block from the label, the rendered numbers and the
      arrow. */
  function PressureText(s: Summary, status: Status, before: string, after: string, threshold: string,
                        freed: string, arrow: string, fmt: Render): seq<string>
  {
    [ "Disk: " + before + "% " + arrow + " " + after + "% (threshold " + threshold + "%)",
      "Storage: " + StatusText(status),
      DeletedLine(s, fmt),
      "Freed: " + freed + " GB",
      "Duration: " + fmt.show(s.duration) + "s",
      "Result: " + ResultText(s.deleted) ]
  }

  /** The lines of a pressure block with a given arrow; the label is the one of
      `percent_before`. */
  function PressureOf(s: Summary, fmt: Render, arrow: string): (r: Result<seq<string>>)
    ensures r.Ok? <==> PressureNumeric(s)
  {
    if !PressureNumeric(s) then Raises
    else
      var before := AsNumber(s.percentBefore).value;
      var threshold := AsNumber(s.pressure).value;
      Ok(PressureText(s, StatusLabel(before, threshold, AsNumber(s.emergency).value),
                      fmt.fixed1(before), fmt.fixed1(AsNumber(s.percentAfter).value), fmt.fixed1(threshold),
                      fmt.fixed2(AsNumber(s.freed).value), arrow, fmt))
  }

  /** The lines of `format_pressure_stats` with a given arrow. */
  function PressureLinesWith(payload: Dict, fmt: Render, arrow: string): (r: Result<seq<string>>)
    ensures r.Ok? <==> SummaryOf(payload).Ok? && PressureNumeric(SummaryOf(payload).value)
  {
    match SummaryOf(payload)
    case Raises => Raises
    case Ok(s) => PressureOf(s, fmt, arrow)
  }

  /** `format_pressure_stats` as written, with the garbled arrow. It differs from
      the intended text in the disk line only. */
  function PressureLinesAsWritten(payload: Dict, fmt: Render): (r: Result<seq<string>>)
    ensures r.Ok? <==> PressureLines(payload, fmt).Ok?
    ensures r.Ok? ==> |r.value| == 6 && r.value[1..] == PressureLines(payload, fmt).value[1..]
  {
    PressureLinesWith(payload, fmt, ArrowAsWritten)
  }

  /** `format_pressure_stats` with the arrow its tests expect; the rest of the model
      uses this one. */
  function PressureLines(payload: Dict, fmt: Render): (r: Result<seq<string>>)
    ensures r.Ok? <==> SummaryOf(payload).Ok? && PressureNumeric(SummaryOf(payload).value)
  {
    PressureLinesWith(payload, fmt, Arrow)
  }

  /** The text a pressure block's disk line starts with. */
  function DiskChange(before: string, after: string): string
  {
    "Disk: " + before + "% " + Arrow + " " + after + "%"
  }

  /** A pressure block always has six lines, and its disk line starts with the
      percentage before, the arrow and the percentage after. */
  lemma PressureDiskLine(s: Summary, fmt: Render)
    requires PressureOf(s, fmt, Arrow).Ok?
    ensures var ls := PressureOf(s, fmt, Arrow).value;
            && |ls| == 6
            && StartsWith(ls[0], DiskChange(fmt.fixed1(AsNumber(s.percentBefore).value),
                                            fmt.fixed1(AsNumber(s.percentAfter).value)))
  {
    var ls := PressureOf(s, fmt, Arrow).value;
    var head := DiskChange(fmt.fixed1(AsNumber(s.percentBefore).value), fmt.fixed1(AsNumber(s.percentAfter).value));
    assert ls[0][..|head|] == head;
  }

  /** The label of a pressure block is computed from the percentage before the
      run, not after it. */
  lemma PressureStatusLine(s: Summary, fmt: Render, arrow: string)
    requires PressureOf(s, fmt, arrow).Ok?
    ensures var ls := PressureOf(s, fmt, arrow).value;
            |ls| == 6 && ls[1] == "Storage: " + StatusText(StatusLabel(AsNumber(s.percentBefore).value,
                                                  AsNumber(s.pressure).value, AsNumber(s.emergency).value))
  {
  }

  /** The last line of a pressure block says "no action" exactly when nothing was
      deleted (and otherwise "cleanup performed", as `ResultText` states). */
  lemma PressureResultLine(s: Summary, fmt: Render, arrow: string)
    requires PressureOf(s, fmt, arrow).Ok?
    ensures var ls := PressureOf(s, fmt, arrow).value;
            && |ls| == 6 && ls[5] == "Result: " + ResultText(s.deleted)
            && (ls[5] == "Result: no action" <==> EqualsZero(s.deleted))
  {
    ResultLine(ResultText(s.deleted), "no action");
  }

  /** `"\n".join(lines)`. */
  function Join(lines: seq<string>): (r: string)
    ensures |lines| == 1 ==> r == lines[0]
    decreases |lines|
  {
    if lines == [] then "" else if |lines| == 1 then lines[0] else lines[0] + "\n" + Join(lines[1..])
  }

  /** `s.split("\n")`. */
  function SplitLines(s: string): (r: seq<string>)
    ensures |r| >= 1
    ensures forall k :: 0 <= k < |r| ==> '\n' !in r[k]
    decreases |s|
  {
    var line := FirstLine(s);
    if |line| == |s| then [s] else [line] + SplitLines(s[|line| + 1..])
  }

  /** The first line of a newline-free text followed by a newline or by nothing is
      that text. */
  lemma {:induction false} FirstLineBefore(a: string, rest: string)
    requires '\n' !in a && (rest == [] || rest[0] == '\n')
    ensures FirstLine(a + rest) == a
    decreases |a|
  {
    if a != [] {
      assert (a + rest)[1..] == a[1..] + rest;
      FirstLineBefore(a[1..], rest);
    }
  }

  /** Splitting the joined text gives the lines back when none holds a newline. */
  lemma {:induction false} SplitJoin(lines: seq<string>)
    requires |lines| >= 1 && forall k :: 0 <= k < |lines| ==> '\n' !in lines[k]
    ensures SplitLines(Join(lines)) == lines
    decreases |lines|
  {
    var s := Join(lines);
    var a := lines[0];
    if |lines| > 1 {
      assert s == a + ("\n" + Join(lines[1..]));
      FirstLineBefore(a, "\n" + Join(lines[1..]));
      assert s[|a| + 1..] == Join(lines[1..]);
      SplitJoin(lines[1..]);
      assert lines == [a] + lines[1..];
    } else {
      assert s == a + "";
      FirstLineBefore(a, "");
    }
  }

  /** Every line occurs in the joined text. */
  lemma {:induction false} JoinContains(lines: seq<string>, k: int)
    requires 0 <= k < |lines|
    ensures Contains(Join(lines), lines[k])
    decreases |lines|
  {
    if k == 0 {
      assert OccursAt(Join(lines), lines[0], 0);
    } else {
      JoinContains(lines[1..], k - 1);
      ContainsAfter(lines[0] + "\n", Join(lines[1..]), lines[k]);
    }
  }

  /** A text that holds `sub` still holds it after something is put before it. */
  lemma ContainsAfter(pre: string, t: string, sub: string)
    requires Contains(t, sub)
    ensures Contains(pre + t, sub)
  {
    var i :| 0 <= i <= |t| - |sub| && OccursAt(t, sub, i);
    assert (pre + t)[|pre| + i..|pre| + i + |sub|] == t[i..i + |sub|];
    assert OccursAt(pre + t, sub, |pre| + i);
  }

  lemma JoinContainsAll(lines: seq<string>)
    ensures forall k :: 0 <= k < |lines| ==> Contains(Join(lines), lines[k])
  {
    forall k | 0 <= k < |lines| ensures Contains(Join(lines), lines[k]) {
      JoinContains(lines, k);
    }
  }

  /** A character other than the newline that no line holds is not in the joined
      text. */
  lemma {:induction false} JoinLacks(lines: seq<string>, c: char)
    requires c != '\n' && forall k :: 0 <= k < |lines| ==> c !in lines[k]
    ensures c !in Join(lines)
    decreases |lines|
  {
    if |lines| > 1 {
      JoinLacks(lines[1..], c);
    }
  }

  /** `format_retention_stats`. */
  function FormatRetentionStats(payload: Dict, fmt: Render): (r: Result<string>)
    ensures r.Ok? <==> RetentionLines(payload, fmt).Ok?
    ensures r.Ok? ==> forall k :: 0 <= k < |RetentionLines(payload, fmt).value| ==>
                        Contains(r.value, RetentionLines(payload, fmt).value[k])
  {
    match RetentionLines(payload, fmt)
    case Raises => Raises
    case Ok(ls) =>
      JoinContainsAll(ls);
      Ok(Join(ls))
  }

  /** `format_pressure_stats` with the arrow the tests expect. */
  function FormatPressureStats(payload: Dict, fmt: Render): (r: Result<string>)
    ensures r.Ok? <==> PressureLines(payload, fmt).Ok?
    ensures r.Ok? ==> forall k :: 0 <= k < |PressureLines(payload, fmt).value| ==>
                        Contains(r.value, PressureLines(payload, fmt).value[k])
  {
    match PressureLines(payload, fmt)
    case Raises => Raises
    case Ok(ls) =>
      JoinContainsAll(ls);
      Ok(Join(ls))
  }

  /** Renderers whose output never holds the character `c`. */
  ghost predicate RendersWithout(fmt: Render, c: char)
  {
    (forall x :: c !in fmt.fixed1(x)) && (forall x :: c !in fmt.fixed2(x))
    && (forall v :: c !in fmt.show(v))
  }

  /** The characters the checks below look for: the newline that separates lines
      and the arrow U+2192. */
  predicate Marker(c: char)
  {
    c == '\n' || c == '\U{2192}'
  }

  /** No fixed text of either block holds a marker. */
  lemma LabelsLack(c: char)
    requires Marker(c)
    ensures c !in "Disk: " && c !in "% (threshold " && c !in "%)" && c !in "Storage: "
  {
  }

  lemma CountLabelsLack(c: char)
    requires Marker(c)
    ensures c !in "Retention candidates: " && c !in "Deleted: " && c !in " (images="
  {
  }

  lemma MoreLabelsLack(c: char)
    requires Marker(c)
    ensures c !in ", non-images=" && c !in ")" && c !in "Freed: " && c !in " GB"
    ensures c !in FilesLabel && c !in "Duration: " && c !in "s" && c !in "Result: "
  {
  }

  lemma WordsLack(c: char)
    requires Marker(c)
    ensures forall st :: c !in StatusText(st)
    ensures c !in "no action" && c !in "cleanup performed" && c !in "% " && c !in " "
    ensures c !in ArrowAsWritten
  {
  }

  /** No line of a retention block holds a marker the renderers never write. */
  lemma RetentionLinesLack(s: Summary, fmt: Render, c: char)
    requires Marker(c) && RendersWithout(fmt, c) && RetentionOf(s, fmt).Ok?
    ensures forall k :: 0 <= k < |RetentionOf(s, fmt).value| ==> c !in RetentionOf(s, fmt).value[k]
  {
    LabelsLack(c);
    CountLabelsLack(c);
    MoreLabelsLack(c);
    WordsLack(c);
  }

  /** No line of a pressure block holds a marker that neither its arrow nor the
      renderers write. */
  lemma PressureLinesLack(s: Summary, fmt: Render, arrow: string, c: char)
    requires Marker(c) && c !in arrow && RendersWithout(fmt, c) && PressureOf(s, fmt, arrow).Ok?
    ensures forall k :: 0 <= k < |PressureOf(s, fmt, arrow).value| ==> c !in PressureOf(s, fmt, arrow).value[k]
  {
    LabelsLack(c);
    CountLabelsLack(c);
    MoreLabelsLack(c);
    WordsLack(c);
  }

  /** With renderers that write no newline, the retention text splits back into its
      seven or eight lines. */
  lemma RetentionLineCount(payload: Dict, fmt: Render)
    requires RendersWithout(fmt, '\n') && RetentionLines(payload, fmt).Ok?
    ensures var n := |SplitLines(FormatRetentionStats(payload, fmt).value)|;
            n == (if AsNumber(SummaryOf(payload).value.totalFiles).value > 0.0 then 8 else 7)
  {
    var s := SummaryOf(payload).value;
    RetentionFilesLine(s, fmt);
    RetentionLinesLack(s, fmt, '\n');
    SplitJoin(RetentionOf(s, fmt).value);
  }

  /** With renderers that write no newline, the pressure text splits back into its
      six lines. */
  lemma PressureLineCount(payload: Dict, fmt: Render)
    requires RendersWithout(fmt, '\n') && PressureLines(payload, fmt).Ok?
    ensures |SplitLines(FormatPressureStats(payload, fmt).value)| == 6
  {
    var s := SummaryOf(payload).value;
    PressureResultLine(s, fmt, Arrow);
    PressureLinesLack(s, fmt, Arrow, '\n');
    SplitJoin(PressureOf(s, fmt, Arrow).value);
  }

  /** The summary of a payload without sections or counts. */
  const DefaultSummary: Summary :=
    Summary(Float(0.0), Float(0.0), Float(85.0), Float(92.0),
            Int(0), Float(0.0), Int(0), Int(0), Int(0), Int(0), Int(0))

  lemma EmptyPayloadSummary()
    ensures SummaryOf(map[]) == Ok(DefaultSummary)
  {
  }

  /** An empty payload formats as a run at 0% with the default thresholds that
      deleted nothing, and its retention text has no file-count line. */
  lemma RetentionDefaults(fmt: Render)
    ensures RetentionLines(map[], fmt).Ok?
    ensures var ls := RetentionLines(map[], fmt).value;
            && |ls| == 7 && ls[1] == "Storage: " + StatusText(Healthy)
            && ls[0] == "Disk: " + fmt.fixed1(0.0) + "% (threshold " + fmt.fixed1(85.0) + "%)"
            && ls[6] == "Result: no action"
  {
    EmptyPayloadSummary();
    RetentionFilesLine(DefaultSummary, fmt);
    RetentionStatusLine(DefaultSummary, fmt);
    RetentionResultLine(DefaultSummary, fmt);
  }

  lemma PressureDefaults(fmt: Render)
    ensures PressureLines(map[], fmt).Ok?
    ensures var ls := PressureLines(map[], fmt).value;
            && ls[1] == "Storage: " + StatusText(Healthy)
            && StartsWith(ls[0], DiskChange(fmt.fixed1(0.0), fmt.fixed1(0.0)))
            && ls[5] == "Result: no action"
  {
    EmptyPayloadSummary();
    PressureDiskLine(DefaultSummary, fmt);
    PressureStatusLine(DefaultSummary, fmt, Arrow);
    PressureResultLine(DefaultSummary, fmt, Arrow);
  }

  /** A section that is truthy but not a dict has no `.get`. */
  lemma NonDictSectionRaises(payload: Dict, fmt: Render)
    requires Truthy(Get(payload, "disk")) && !Get(payload, "disk").Obj?
    ensures FormatRetentionStats(payload, fmt).Raises? && FormatPressureStats(payload, fmt).Raises?
  {
  }

  /** The payload of the pressure formatting test, section by section. */
  const PressureTestDisk: Dict :=
    map["percent_before" := Float(87.0), "percent_after" := Float(82.0),
        "pressure_threshold" := Float(85.0), "emergency_threshold" := Float(92.0)]
  const PressureTestByType: Dict := map["images" := Int(2), "non_images" := Int(3)]
  const PressureTestActions: Dict :=
    map["deleted_count" := Int(5), "freed_gb" := Float(0.8), "deleted_by_type" := Obj(PressureTestByType)]
  const PressureTestTiming: Dict := map["duration_seconds" := Int(3)]

  function PressureTestPayload(): Dict
  {
    map["disk" := Obj(PressureTestDisk), "actions" := Obj(PressureTestActions),
        "timing" := Obj(PressureTestTiming)]
  }

  const PressureTestSummary: Summary :=
    Summary(Float(87.0), Float(82.0), Float(85.0), Float(92.0),
            Int(5), Float(0.8), Int(2), Int(3), Int(0), Int(0), Int(3))

  lemma PressureTestSections()
    ensures SectionsOf(PressureTestPayload())
            == Ok((PressureTestDisk, PressureTestActions, PressureTestTiming, PressureTestByType))
  {
  }

  lemma PressureTestRead()
    ensures SummaryOf(PressureTestPayload()) == Ok(PressureTestSummary)
  {
    PressureTestSections();
  }

  /** The text the pressure test looks for. */
  function PressureTestDiskText(fmt: Render): string
  {
    DiskChange(fmt.fixed1(87.0), fmt.fixed1(82.0))
  }

  /** As written, no pressure text holds the arrow U+2192 unless a rendered number
      does. */
  lemma PressureAsWrittenLacksArrow(payload: Dict, fmt: Render)
    requires RendersWithout(fmt, Arrow[0]) && PressureLinesAsWritten(payload, fmt).Ok?
    ensures Arrow[0] !in Join(PressureLinesAsWritten(payload, fmt).value)
  {
    WordsLack(Arrow[0]);
    PressureLinesLack(SummaryOf(payload).value, fmt, ArrowAsWritten, Arrow[0]);
    JoinLacks(PressureLinesAsWritten(payload, fmt).value, Arrow[0]);
  }

  /** So the pressure test's `"Disk: 87.0% → 82.0%" in result` fails on the text as
      written. */
  lemma PressureTestAsWrittenFails(fmt: Render)
    requires RendersWithout(fmt, Arrow[0])
    ensures PressureLinesAsWritten(PressureTestPayload(), fmt).Ok?
    ensures !Contains(Join(PressureLinesAsWritten(PressureTestPayload(), fmt).value), PressureTestDiskText(fmt))
  {
    PressureTestRead();
    var t := Join(PressureLinesAsWritten(PressureTestPayload(), fmt).value);
    PressureAsWrittenLacksArrow(PressureTestPayload(), fmt);
    assert Arrow[0] in PressureTestDiskText(fmt);
    MissingChar(t, PressureTestDiskText(fmt), Arrow[0]);
  }

  /** A text holding `s` holds every prefix of `s`. */
  lemma ContainsPrefix(t: string, s: string, p: string)
    requires Contains(t, s) && StartsWith(s, p)
    ensures Contains(t, p)
  {
    var i :| 0 <= i <= |t| - |s| && OccursAt(t, s, i);
    assert t[i..i + |p|] == s[..|p|];
    assert OccursAt(t, p, i);
  }

  /** The pressure test's text is the joined lines of its summary. */
  lemma PressureTestText(fmt: Render)
    ensures PressureOf(PressureTestSummary, fmt, Arrow).Ok?
    ensures FormatPressureStats(PressureTestPayload(), fmt) == Ok(Join(PressureOf(PressureTestSummary, fmt, Arrow).value))
  {
    PressureTestRead();
  }

  lemma PressureTestDiskShown(fmt: Render)
    ensures PressureOf(PressureTestSummary, fmt, Arrow).Ok?
    ensures Contains(Join(PressureOf(PressureTestSummary, fmt, Arrow).value), PressureTestDiskText(fmt))
  {
    var s := PressureTestSummary;
    PressureDiskLine(s, fmt);
    var ls := PressureOf(s, fmt, Arrow).value;
    JoinContains(ls, 0);
    ContainsPrefix(Join(ls), ls[0], PressureTestDiskText(fmt));
  }

  lemma PressureTestStatusShown(fmt: Render)
    ensures PressureOf(PressureTestSummary, fmt, Arrow).Ok?
    ensures Contains(Join(PressureOf(PressureTestSummary, fmt, Arrow).value), "Storage: pressure")
  {
    var s := PressureTestSummary;
    PressureStatusLine(s, fmt, Arrow);
    var ls := PressureOf(s, fmt, Arrow).value;
    JoinContains(ls, 1);
    assert ls[1] == "Storage: pressure";
  }

  /** With the intended arrow the test's text is there, and so is the label. */
  lemma PressureTestPasses(fmt: Render)
    ensures FormatPressureStats(PressureTestPayload(), fmt).Ok?
    ensures Contains(FormatPressureStats(PressureTestPayload(), fmt).value, PressureTestDiskText(fmt))
    ensures Contains(FormatPressureStats(PressureTestPayload(), fmt).value, "Storage: pressure")
  {
    PressureTestText(fmt);
    PressureTestDiskShown(fmt);
    PressureTestStatusShown(fmt);
  }

  /** The payload of the retention formatting test, section by section. */
  const RetentionTestDisk: Dict :=
    map["percent_before" := Float(45.2), "pressure_threshold" := Float(85.0),
        "emergency_threshold" := Float(92.0)]
  const RetentionTestByType: Dict := map["images" := Int(3), "non_images" := Int(7)]
  const RetentionTestActions: Dict :=
    map["deleted_count" := Int(10), "freed_gb" := Float(1.5), "deleted_by_type" := Obj(RetentionTestByType)]
  const RetentionTestTiming: Dict := map["duration_seconds" := Int(5)]

  function RetentionTestPayload(): Dict
  {
    map["disk" := Obj(RetentionTestDisk), "actions" := Obj(RetentionTestActions),
        "candidates_count" := Int(50), "total_files_count" := Int(1000),
        "timing" := Obj(RetentionTestTiming)]
  }

  const RetentionTestSummary: Summary :=
    Summary(Float(45.2), Float(0.0), Float(85.0), Float(92.0),
            Int(10), Float(1.5), Int(3), Int(7), Int(50), Int(1000), Int(5))

  lemma RetentionTestSections()
    ensures SectionsOf(RetentionTestPayload())
            == Ok((RetentionTestDisk, RetentionTestActions, RetentionTestTiming, RetentionTestByType))
  {
  }

  lemma RetentionTestRead()
    ensures SummaryOf(RetentionTestPayload()) == Ok(RetentionTestSummary)
  {
    RetentionTestSections();
  }

  /** The retention test's lines are those of its summary. */
  lemma RetentionTestText(fmt: Render)
    ensures RetentionLines(RetentionTestPayload(), fmt) == RetentionOf(RetentionTestSummary, fmt)
  {
    RetentionTestRead();
  }

  /** The retention test: eight lines, a healthy label, the counts on their lines
      and a cleanup reported. */
  lemma RetentionTestLines(fmt: Render)
    ensures RetentionOf(RetentionTestSummary, fmt).Ok?
    ensures var ls := RetentionOf(RetentionTestSummary, fmt).value;
            && |ls| == 8 && ls[1] == "Storage: " + StatusText(Healthy)
            && ls[2] == "Retention candidates: " + fmt.show(Int(50))
            && ls[5] == FilesLabel + fmt.show(Int(1000))
            && ls[6] == "Duration: " + fmt.show(Int(5)) + "s"
            && ls[7] == "Result: " + ResultText(Int(10))
  {
    var s := RetentionTestSummary;
    assert RetentionOf(s, fmt)
           == Ok(RetentionText(s, Healthy, fmt.fixed1(45.2), fmt.fixed1(85.0), fmt.fixed2(1.5), true, fmt));
  }
}
