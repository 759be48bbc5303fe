/** Notification deduplication: a run summary is reduced to its stable fields, the
    fingerprint of that projection is compared with the last one sent, and a repeat
    is suppressed unless the caller forces the message out. */
module Dedup {
  import opened Wrappers
  import opened PyValue
  import opened Text

  const DiskKeys: seq<string> := ["percent_before", "percent_after", "pressure_threshold", "emergency_threshold"]
  const ActionKeys: seq<string> := ["deleted_count", "freed_gb", "deleted_by_type"]

  /** `{k: section.get(k) for k in keys}`. */
  function Pick(section: Dict, keys: seq<string>): (r: Dict)
    ensures r.Keys == set k | k in keys
    ensures forall k :: k in r ==> r[k] == Get(section, k)
  {
    if keys == [] then map[]
    else Pick(section, keys[1..])[keys[0] := Get(section, keys[0])]
  }

  /** `payload.get("mode", "unknown")`. */
  function ModeOf(payload: Dict): Value
  {
    GetOr(payload, "mode", Str("unknown"))
  }

  predicate IsRetention(payload: Dict)
  {
    ModeOf(payload) == Str("retention")
  }

  /** The top-level keys whose values reach the projection. */
  function StableKeys(payload: Dict): set<string>
  {
    {"mode", "server", "disk", "actions"}
    + (if IsRetention(payload) then {"policy", "candidates_count", "total_files_count"} else {})
  }

  /** The value the projection gives field `k`, for a summary whose `disk` and
      `actions` sections are the dicts given. */
  function FieldValue(payload: Dict, disk: Dict, actions: Dict, k: string): Value
  {
    if k == "mode" then ModeOf(payload)
    else if k == "server" then GetOr(payload, "server", Str("unknown"))
    else if k == "disk" then Obj(Pick(disk, DiskKeys))
    else if k == "actions" then Obj(Pick(actions, ActionKeys))
    else if k == "policy" then (if Truthy(Get(payload, "policy")) then payload["policy"] else Obj(map[]))
    else Get(payload, k)
  }

  /** The projection: each field of `StableKeys` with its value. */
  function Projection(payload: Dict, disk: Dict, actions: Dict): (m: Dict)
    ensures m.Keys == StableKeys(payload)
  {
    map k | k in StableKeys(payload) :: FieldValue(payload, disk, actions, k)
  }

  /** `_normalize_payload_for_fingerprint`: mode and server (default `"unknown"`),
      the four disk fields and the three action fields (`None` when missing), and,
      for a retention summary only, its policy (`{}` when falsy) and two counts. A
      `disk` or `actions` section that is truthy but not a dict has no `.get` and
      raises. */
  function Normalize(payload: Dict): (r: Result<Value>)
    ensures r.Raises? <==> Section(Get(payload, "disk")).Raises? || Section(Get(payload, "actions")).Raises?
    ensures r.Ok? ==> r.value.Obj? && r.value.fields.Keys == StableKeys(payload)
  {
    match (Section(Get(payload, "disk")), Section(Get(payload, "actions")))
    case (Ok(disk), Ok(actions)) => Ok(Obj(Projection(payload, disk, actions)))
    case _ => Raises
  }

  /** The projection holds the mode and server (`"unknown"` when absent) and the
      picked `disk` and `actions` sections. */
  lemma NormalizeFields(payload: Dict)
    requires Normalize(payload).Ok?
    ensures var m := Normalize(payload).value.fields;
            m["mode"] == GetOr(payload, "mode", Str("unknown"))
            && m["server"] == GetOr(payload, "server", Str("unknown"))
            && m["disk"] == Obj(Pick(Section(Get(payload, "disk")).value, DiskKeys))
            && m["actions"] == Obj(Pick(Section(Get(payload, "actions")).value, ActionKeys))
  {
    var d, a := Section(Get(payload, "disk")).value, Section(Get(payload, "actions")).value;
    assert "disk"[0] != "mode"[0];
    assert FieldValue(payload, d, a, "server") == GetOr(payload, "server", Str("unknown"));
    assert FieldValue(payload, d, a, "disk") == Obj(Pick(d, DiskKeys));
    assert FieldValue(payload, d, a, "actions") == Obj(Pick(a, ActionKeys));
  }

  /** A retention summary's projection also holds its policy (`{}` when falsy) and
      the two counts as `.get` returns them. */
  lemma NormalizeRetentionFields(payload: Dict)
    requires Normalize(payload).Ok? && IsRetention(payload)
    ensures var m := Normalize(payload).value.fields;
            m["policy"] == (if Truthy(Get(payload, "policy")) then payload["policy"] else Obj(map[]))
            && m["candidates_count"] == Get(payload, "candidates_count")
            && m["total_files_count"] == Get(payload, "total_files_count")
  {
    var d, a := Section(Get(payload, "disk")).value, Section(Get(payload, "actions")).value;
    assert "policy"[0] != "server"[0];
    assert FieldValue(payload, d, a, "policy") == (if Truthy(Get(payload, "policy")) then payload["policy"] else Obj(map[]));
    assert FieldValue(payload, d, a, "candidates_count") == Get(payload, "candidates_count");
    assert FieldValue(payload, d, a, "total_files_count") == Get(payload, "total_files_count");
  }

  /** A top-level key outside the projection (timing, ids, and for anything but a
      retention summary also the policy and counts) never changes it. */
  lemma NormalizeIgnoresOtherKeys(payload: Dict, k: string, v: Value)
    requires k !in StableKeys(payload)
    ensures Normalize(payload[k := v]) == Normalize(payload)
  {
    var p' := payload[k := v];
    assert k != "mode" && k != "disk" && k != "actions";
    assert Get(p', "disk") == Get(payload, "disk");
    assert Get(p', "actions") == Get(payload, "actions");
    var sd, sa := Section(Get(payload, "disk")), Section(Get(payload, "actions"));
    if sd.Ok? && sa.Ok? {
      ProjectionIgnoresOtherKeys(payload, k, v, sd.value, sa.value);
    }
  }

  lemma ProjectionIgnoresOtherKeys(payload: Dict, k: string, v: Value, d: Dict, a: Dict)
    requires k !in StableKeys(payload)
    ensures Projection(payload[k := v], d, a) == Projection(payload, d, a)
  {
    var p' := payload[k := v];
    assert ModeOf(p') == ModeOf(payload);
    assert StableKeys(p') == StableKeys(payload);
    forall x | x in StableKeys(payload)
      ensures FieldValue(p', d, a, x) == FieldValue(payload, d, a, x)
    {
      assert x != k;
    }
  }

  /** Summaries that differ only in timing normalise equally. */
  lemma NormalizeIgnoresTiming(payload: Dict, timing: Value)
    ensures Normalize(payload["timing" := timing]) == Normalize(payload)
  {
    NormalizeIgnoresOtherKeys(payload, "timing", timing);
  }

  /** Pressure summaries that differ only in policy normalise equally. */
  lemma PressureIgnoresPolicy(payload: Dict, policy: Value)
    requires ModeOf(payload) == Str("pressure")
    ensures Normalize(payload["policy" := policy]) == Normalize(payload)
  {
    NormalizeIgnoresOtherKeys(payload, "policy", policy);
  }

  /** A retention summary's policy does reach the projection: two truthy policies
      that differ give different projections. */
  lemma RetentionKeepsPolicy(payload: Dict, a: Value, b: Value)
    requires IsRetention(payload) && Truthy(a) && Truthy(b) && a != b
    requires Normalize(payload).Ok?
    ensures Normalize(payload["policy" := a]) != Normalize(payload["policy" := b])
  {
    var pa, pb := payload["policy" := a], payload["policy" := b];
    assert ModeOf(pa) == ModeOf(payload) && ModeOf(pb) == ModeOf(payload);
    assert Get(pa, "disk") == Get(payload, "disk") && Get(pb, "disk") == Get(payload, "disk");
    assert Get(pa, "actions") == Get(payload, "actions") && Get(pb, "actions") == Get(payload, "actions");
    assert Normalize(pa).value.fields["policy"] == a;
  }

  /** Summaries whose deleted counts differ never share a projection. */
  lemma DeletedCountDistinguishes(p: Dict, q: Dict)
    requires Normalize(p).Ok? && Normalize(q).Ok?
    requires Get(Section(Get(p, "actions")).value, "deleted_count") != Get(Section(Get(q, "actions")).value, "deleted_count")
    ensures Normalize(p) != Normalize(q)
  {
    NormalizeFields(p);
    NormalizeFields(q);
    var ap := Pick(Section(Get(p, "actions")).value, ActionKeys);
    var aq := Pick(Section(Get(q, "actions")).value, ActionKeys);
    assert "deleted_count" in ActionKeys;
    assert ap["deleted_count"] != aq["deleted_count"];
  }

  /** `payload_fingerprint`: the digest `hash` of the projection (SHA-256 of its
      canonical JSON text). */
  function Fingerprint(hash: Value -> string, payload: Dict): (r: Result<string>)
    ensures r.Raises? <==> Normalize(payload).Raises?
    ensures r.Ok? ==> r.value == hash(Normalize(payload).value)
  {
    match Normalize(payload)
    case Ok(v) => Ok(hash(v))
    case Raises => Raises
  }

  /** The fingerprint ignores every key outside the projection. */
  lemma FingerprintIgnoresOtherKeys(hash: Value -> string, payload: Dict, k: string, v: Value)
    requires k !in StableKeys(payload)
    ensures Fingerprint(hash, payload[k := v]) == Fingerprint(hash, payload)
  {
    NormalizeIgnoresOtherKeys(payload, k, v);
  }

  /** Under a hash without collisions, summaries with different deleted counts get
      different fingerprints. */
  lemma FingerprintSeesDeletedCount(hash: Value -> string, p: Dict, q: Dict)
    requires forall a, b :: hash(a) == hash(b) ==> a == b
    requires Normalize(p).Ok? && Normalize(q).Ok?
    requires Get(Section(Get(p, "actions")).value, "deleted_count") != Get(Section(Get(q, "actions")).value, "deleted_count")
    ensures Fingerprint(hash, p) != Fingerprint(hash, q)
  {
    DeletedCountDistinguishes(p, q);
  }

  /** The summaries of the test that tells deleted counts 5 and 6 apart. */
  lemma FingerprintCountExample(hash: Value -> string)
    requires forall a, b :: hash(a) == hash(b) ==> a == b
    ensures Fingerprint(hash, map["mode" := Str("retention"), "actions" := Obj(map["deleted_count" := Int(5)])])
            != Fingerprint(hash, map["mode" := Str("retention"), "actions" := Obj(map["deleted_count" := Int(6)])])
  {
    var a5: Dict := map["deleted_count" := Int(5)];
    var a6: Dict := map["deleted_count" := Int(6)];
    var p: Dict := map["mode" := Str("retention"), "actions" := Obj(a5)];
    var q: Dict := map["mode" := Str("retention"), "actions" := Obj(a6)];
    assert Get(p, "disk") == Null && Get(q, "disk") == Null;
    assert Section(Get(p, "actions")) == Ok(a5) && Section(Get(q, "actions")) == Ok(a6);
    FingerprintSeesDeletedCount(hash, p, q);
  }

  /** The summary of the stability test: its keys `deleted` and `freed_gb` are not
      fields of the projection, so it fingerprints like the bare retention mode. */
  lemma FingerprintStableExample(hash: Value -> string)
    ensures Fingerprint(hash, map["mode" := Str("retention"), "deleted" := Int(5), "freed_gb" := Float(1.2)])
            == Fingerprint(hash, map["mode" := Str("retention")])
  {
    var base: Dict := map["mode" := Str("retention")];
    var mid := base["deleted" := Int(5)];
    assert "deleted"[0] != "actions"[0];
    assert "deleted" !in StableKeys(base);
    assert ModeOf(mid) == Str("retention");
    assert "freed_gb" !in StableKeys(mid);
    FingerprintIgnoresOtherKeys(hash, base, "deleted", Int(5));
    FingerprintIgnoresOtherKeys(hash, mid, "freed_gb", Float(1.2));
    assert mid["freed_gb" := Float(1.2)]
           == map["mode" := Str("retention"), "deleted" := Int(5), "freed_gb" := Float(1.2)];
  }

  // ---------------------------------------------------------------------------
  // should_send

  /** The fingerprint last sent, as read back from the state file: the stripped
      contents, and none for a missing file or one that strips to nothing. */
  function Previous(file: Option<string>): (r: Option<string>)
    ensures r.Some? ==> r.value != "" && file.Some? && r.value == Strip(file.value)
    ensures r.None? <==> file.None? || Strip(file.value) == ""
  {
    match file
    case None => None
    case Some(text) => if Strip(text) == "" then None else Some(Strip(text))
  }

  /** The decision of `should_send` and the state file after it. */
  function Gate(file: Option<string>, fp: string, force: bool): (bool, Option<string>)
  {
    if force then (true, file)
    else if Previous(file) == Some(fp) then (false, file)
    else (true, Some(fp))
  }

  /** A forced message always goes out and leaves the state file alone. */
  lemma GateForced(file: Option<string>, fp: string)
    ensures Gate(file, fp, true) == (true, file)
  {
  }

  /** Unforced, a message goes out exactly when its fingerprint is not the one last
      sent, and then it becomes the one last sent. */
  lemma GateUnforced(file: Option<string>, fp: string)
    ensures Gate(file, fp, false).0 <==> Previous(file) != Some(fp)
    ensures Gate(file, fp, false).1 == if Gate(file, fp, false).0 then Some(fp) else file
  {
  }

  /** A fingerprint with no whitespace at its ends and not empty is suppressed when
      it comes again right after it was sent. */
  lemma GateSuppressesRepeat(file: Option<string>, fp: string)
    requires fp != "" && EndsOutside(fp, Whitespace)
    ensures Gate(Gate(file, fp, false).1, fp, false) == (false, Gate(file, fp, false).1)
  {
    TrimKeeps(fp, Whitespace);
  }

  /** An empty fingerprint is written as an empty file, which reads back as no
      previous value, so it is never suppressed. */
  lemma GateEmptyNeverSuppressed(file: Option<string>)
    ensures Gate(file, "", false) == (true, Some(""))
  {
  }

  /** A state file holding only whitespace counts as no state file. */
  lemma GateBlankFile(text: string, fp: string, force: bool)
    requires forall k :: 0 <= k < |text| ==> IsSpace(text[k])
    ensures Gate(Some(text), fp, force).0 == Gate(None, fp, force).0
  {
    TrimPadded(text, "", "", Whitespace);
    assert text + "" + "" == text;
    assert Trim("", Whitespace) == "";
  }

  /** A SHA-256 hexdigest: 64 lower-case hex digits. */
  predicate IsHexDigest(s: string)
  {
    |s| == 64 && forall k :: 0 <= k < |s| ==> IsDigit(s[k]) || 'a' <= s[k] <= 'f'
  }

  /** Every hexdigest is suppressed on an immediate repeat. */
  lemma DigestRepeatSuppressed(file: Option<string>, fp: string)
    requires IsHexDigest(fp)
    ensures Gate(Gate(file, fp, false).1, fp, false).0 == false
  {
    assert !IsSpace(fp[0]) && !IsSpace(fp[63]);
    GateSuppressesRepeat(file, fp);
  }

  /** The state file of one bot. `file` is its contents, `None` while it does not
      exist. */
  class DedupState {
    var file: Option<string>

    constructor (file: Option<string>)
      ensures this.file == file
    {
      this.file := file;
    }

    /** `should_send(state_path, fp, print_effective_config)`. */
    method ShouldSend(fp: string, force: bool) returns (send: bool)
      modifies this
      ensures (send, file) == Gate(old(file), fp, force)
      ensures force ==> send && file == old(file)
    {
      if force {
        return true;
      }
      var prev: Option<string> := None;
      if file.Some? {
        var text := Strip(file.value);
        prev := if text == "" then None else Some(text);
      }
      if prev == Some(fp) {
        return false;
      }
      file := Some(fp);
      send := true;
    }
  }

  /** The state tests: the first unforced call sends and writes the file, the next
      one with the same fingerprint does not send, and a forced one sends. */
  lemma ShouldSendExamples()
    ensures Gate(None, "abc123", false) == (true, Some("abc123"))
    ensures Gate(Some("abc123"), "abc123", false) == (false, Some("abc123"))
    ensures Gate(Some("abc123"), "abc123", true).0
  {
    GateSuppressesRepeat(None, "abc123");
  }
}
