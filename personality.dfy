/** The guard around the optional AI-written prefix of a notice: the checks a
    prefix must pass, the cleaning of a model reply, the rate limit, the prompt
    that asks for a prefix, and the two-attempt loop of `render`. */
module Personality {
  import opened Wrappers
  import opened PyValue
  import opened Text
  import opened Words
  import opened Formatting

  /** The `(ok, reason)` pair of a prefix check. */
  datatype Verdict = Pass | Fail(reason: string)

  /** Openings of an assistant that acknowledges instead of answering. */
  const Fillers: seq<string> := ["ok", "understood", "please provide"]

  /** Words that may not appear as whole words: no time references. */
  const Banned: seq<string> := ["today", "yesterday", "uptime", "operational since", "elapsed"]

  /** Substrings that would claim a deletion. */
  const DeletionWords: seq<string> := ["deleted", "removed", "purged", "redacted", "cleared"]

  const MaxPrefixLength: nat := 180

  /** The regular expression search `[.!?].+[A-Z]`: a sentence end, at least one
      character that is not a newline, then an upper-case letter. */
  predicate MultiSentence(t: string)
  {
    exists i, j :: 0 <= i && i + 2 <= j < |t| && t[i] in ".!?" && IsUpper(t[j])
                   && forall k :: i < k < j ==> t[k] != '\n'
  }

  /** `_validate_prefix`: the checks in their order on the stripped text (the
      filler, banned-word and deletion checks on its lower-case form), with the
      reason of the first that fails. */
  function ValidatePrefix(text: string): (v: Verdict)
    ensures v.Fail? ==> v.reason != ""
  {
    CheckStripped(Strip(text))
  }

  /** The checks on text that is already stripped. */
  function CheckStripped(t: string): (v: Verdict)
    ensures v.Fail? ==> v.reason != ""
  {
    var low := Lower(t);
    if t == "" then Fail("empty")
    else if '\n' in t then Fail("newline")
    else if |t| > MaxPrefixLength then Fail("too long")
    else if MultiSentence(t) then Fail("likely multiple sentences")
    else if StartsWithAny(low, Fillers) then Fail("acknowledgement/assistant filler")
    else if FirstWholeWord(low, Banned).Some? then Fail(BannedReason(FirstWholeWord(low, Banned).value))
    else if HasDigit(t) then Fail("contains digits")
    else if ContainsAny(low, DeletionWords) then Fail("claims deletion")
    else Pass
  }

  function BannedReason(b: string): string
  {
    "banned phrase '" + b + "'"
  }

  /** Every check of `CheckStripped` passes on the stripped text `t`. */
  predicate AllChecksPass(t: string)
  {
    t != "" && '\n' !in t && |t| <= MaxPrefixLength && !MultiSentence(t)
    && !StartsWithAny(Lower(t), Fillers)
    && (forall k :: 0 <= k < |Banned| ==> !HasWholeWord(Lower(t), Banned[k]))
    && !HasDigit(t) && !ContainsAny(Lower(t), DeletionWords)
  }

  /** A prefix passes exactly when every check passes. */
  lemma ValidateAccepts(text: string)
    ensures ValidatePrefix(text) == Pass <==> AllChecksPass(Strip(text))
  {
  }

  /** What an accepted prefix is known to be: one non-empty line of at most 180
      characters, without digits, time references or deletion words. */
  lemma AcceptedIsSafe(text: string)
    requires ValidatePrefix(text) == Pass
    ensures var t := Strip(text);
            t != "" && '\n' !in t && |t| <= MaxPrefixLength
            && (forall i :: 0 <= i < |t| ==> !IsDigit(t[i]))
            && (forall w :: w in DeletionWords ==> !Contains(Lower(t), w))
            && (forall w :: w in Banned ==> !HasWholeWord(Lower(t), w))
  {
    ValidateAccepts(text);
    var low := Lower(Strip(text));
    forall w | w in Banned ensures !HasWholeWord(low, w) {
      var k :| 0 <= k < |Banned| && Banned[k] == w;
    }
  }

  /** The reason names the first check, in list order, that fails. */
  lemma ValidateReasons(text: string)
    ensures var t := Strip(text);
            var low := Lower(t);
            var v := ValidatePrefix(text);
            var early := t != "" && '\n' !in t && |t| <= MaxPrefixLength;
            var filler := StartsWithAny(low, Fillers);
            var word := FirstWholeWord(low, Banned);
            (v == Fail("empty") <==> t == "")
            && (v == Fail("newline") <==> t != "" && '\n' in t)
            && (v == Fail("too long") <==> t != "" && '\n' !in t && |t| > MaxPrefixLength)
            && (v == Fail("likely multiple sentences") <==> early && MultiSentence(t))
            && (v == Fail("acknowledgement/assistant filler") <==> early && !MultiSentence(t) && filler)
            && (forall b :: v == Fail(BannedReason(b)) <==>
                              early && !MultiSentence(t) && !filler && word == Some(b))
            && (v == Fail("contains digits") <==> early && !MultiSentence(t) && !filler && word == None && HasDigit(t))
            && (v == Fail("claims deletion") <==>
                  early && !MultiSentence(t) && !filler && word == None && !HasDigit(t)
                  && ContainsAny(low, DeletionWords))
  {
    var t := Strip(text);
    var low := Lower(t);
    forall b ensures BannedReason(b)[0] == 'b' {
    }
    var v := ValidatePrefix(text);
    if v.Fail? && v.reason[0] == 'b' {
      assert FirstWholeWord(low, Banned).Some?;
      forall b | v == Fail(BannedReason(b)) ensures FirstWholeWord(low, Banned) == Some(b) {
        var c := FirstWholeWord(low, Banned).value;
        assert BannedReason(b) == BannedReason(c);
        assert b == BannedReason(b)[15..|BannedReason(b)| - 1];
      }
    }
  }

  /** Whitespace around the text never changes the verdict. */
  lemma ValidateIgnoresPadding(pre: string, text: string, post: string)
    requires forall k :: 0 <= k < |pre| ==> IsSpace(pre[k])
    requires forall k :: 0 <= k < |post| ==> IsSpace(post[k])
    ensures ValidatePrefix(pre + text + post) == ValidatePrefix(text)
  {
    TrimPadded(pre, text, post, Whitespace);
    assert Strip(pre + text + post) == Strip(text);
  }

  /** Validating the stripped text is validating the text. */
  lemma ValidateStripped(text: string)
    ensures ValidatePrefix(Strip(text)) == ValidatePrefix(text)
  {
    TrimIdempotent(text, Whitespace);
    assert Strip(Strip(text)) == Strip(text);
  }

  /** A text without `.`, `!` or `?` cannot look like several sentences. */
  lemma NoSentenceEnd(t: string)
    requires '.' !in t && '!' !in t && '?' !in t
    ensures !MultiSentence(t)
  {
  }

  /** No banned phrase and no deletion word is in a text that lacks `y`, `p`,
      `o`, `l` and `r`, given among the letters `cs` it lacks. */
  lemma NoBannedOrDeletion(low: string, cs: string)
    requires forall k :: 0 <= k < |cs| ==> cs[k] !in low
    requires 'y' in cs && 'p' in cs && 'o' in cs && 'l' in cs && 'r' in cs
    ensures FirstWholeWord(low, Banned) == None
    ensures !ContainsAny(low, DeletionWords)
  {
    MissingChar(low, "today", 'y');
    MissingChar(low, "yesterday", 'y');
    MissingChar(low, "uptime", 'p');
    MissingChar(low, "operational since", 'o');
    MissingChar(low, "elapsed", 'l');
    forall k | 0 <= k < |Banned| ensures !HasWholeWord(low, Banned[k]) {
      NotWholeWord(low, Banned[k]);
    }
    MissingChar(low, "deleted", 'l');
    MissingChar(low, "removed", 'r');
    MissingChar(low, "purged", 'p');
    MissingChar(low, "redacted", 'r');
    MissingChar(low, "cleared", 'l');
  }

  /** A text that lacks a newline and the sentence ends among the letters `cs`,
      and starts and ends outside whitespace, is stripped, one line and one
      sentence. */
  lemma ShapeLacking(t: string, cs: string)
    requires |t| >= 1 && !IsSpace(t[0]) && !IsSpace(t[|t| - 1])
    requires Lacks(t, cs) && '\n' in cs && '.' in cs && '!' in cs && '?' in cs
    ensures Strip(t) == t && '\n' !in t && !MultiSentence(t)
    ensures forall k :: 0 <= k < |cs| ==> cs[k] !in Lower(t)
  {
    LacksLower(t, cs);
    LowerShows(t, '\n');
    LowerShows(t, '.');
    LowerShows(t, '!');
    LowerShows(t, '?');
    NoSentenceEnd(t);
    TrimKeeps(t, Whitespace);
  }

  /** No filler opening starts a text whose first two characters are none of
      `ok`, `un` and `pl`. */
  lemma NoFiller(s: string)
    requires |s| >= 2 && (s[0] != 'o' || s[1] != 'k') && (s[0] != 'u' || s[1] != 'n')
             && (s[0] != 'p' || s[1] != 'l')
    ensures !StartsWithAny(s, Fillers)
  {
    forall w | w in Fillers ensures !StartsWith(s, w) {
      assert w[..2] != s[..2];
    }
  }

  /** A calm one-liner passes; "since" alone is not a banned phrase here. */
  lemma QuietPasses(t: string)
    requires t == "quiet since dawn"
    ensures ValidatePrefix(t) == Pass
  {
    QuietShape(t);
    QuietWords(t);
    ValidateAccepts(t);
  }

  lemma QuietShape(t: string)
    requires t == "quiet since dawn"
    ensures Strip(t) == t && t != "" && '\n' !in t && |t| <= MaxPrefixLength
    ensures !MultiSentence(t) && !HasDigit(t)
  {
    ShapeLacking(t, "\n.!?");
  }

  lemma QuietWords(t: string)
    requires t == "quiet since dawn"
    ensures !StartsWithAny(Lower(t), Fillers)
    ensures forall k :: 0 <= k < |Banned| ==> !HasWholeWord(Lower(t), Banned[k])
    ensures !ContainsAny(Lower(t), DeletionWords)
  {
    LacksLower(t, "yporl");
    NoBannedOrDeletion(Lower(t), "yporl");
    NoFiller(Lower(t));
  }

  /** "operational since" is banned, and its check comes before the others that
      could fail. */
  lemma OperationalSinceFails(t: string)
    requires t == "operational since dawn"
    ensures ValidatePrefix(t) == Fail(BannedReason("operational since"))
  {
    OperationalShape(t);
    OperationalWords(t);
  }

  lemma OperationalShape(t: string)
    requires t == "operational since dawn"
    ensures Strip(t) == t && t != "" && '\n' !in t && |t| <= MaxPrefixLength
    ensures !MultiSentence(t)
  {
    ShapeLacking(t, "\n.!?");
  }

  lemma OperationalWords(t: string)
    requires t == "operational since dawn"
    ensures !StartsWithAny(Lower(t), Fillers)
    ensures FirstWholeWord(Lower(t), Banned) == Some("operational since")
  {
    LowerKeeps(t);
    assert t[0] == 'o' && t[1] == 'p';
    NoFiller(t);
    assert t[..18] == "operational since ";
    FirstBannedIsOperational(t);
  }

  /** In a lower-case text that starts with "operational since " and lacks `y`
      and `u`, the first banned phrase found is "operational since". */
  lemma FirstBannedIsOperational(low: string)
    requires StartsWith(low, "operational since ") && 'y' !in low && 'u' !in low
    ensures FirstWholeWord(low, Banned) == Some("operational since")
  {
    MissingChar(low, "today", 'y');
    MissingChar(low, "yesterday", 'y');
    MissingChar(low, "uptime", 'u');
    NotWholeWord(low, "today");
    NotWholeWord(low, "yesterday");
    NotWholeWord(low, "uptime");
    assert low[..17] == "operational since";
    assert WholeWordAt(low, "operational since", 0);
    assert HasWholeWord(low, Banned[3]);
  }

  // ---------------------------------------------------------------------------
  // Cleaning a reply

  /** `_clean_prefix`: strip whitespace, then every leading and trailing `"`, then
      every `'`, then whitespace again. */
  function CleanPrefix(s: string): (r: string)
    ensures EndsOutside(r, Whitespace)
  {
    Strip(Trim(Trim(Strip(s), Only('"')), Only('\'')))
  }

  /** The cleaned text is a contiguous piece of the input. */
  lemma CleanContained(s: string)
    ensures Contains(s, CleanPrefix(s))
  {
    var a := Strip(s);
    var b := Trim(a, Only('"'));
    var c := Trim(b, Only('\''));
    TrimContained(s, Whitespace);
    TrimContained(a, Only('"'));
    TrimContained(b, Only('\''));
    TrimContained(c, Whitespace);
    ContainsTransitive(s, a, b);
    ContainsTransitive(s, b, c);
    ContainsTransitive(s, c, CleanPrefix(s));
  }

  /** A text with neither whitespace nor quotes at its ends comes out of a pair of
      double quotes as it went in. */
  lemma CleanUnquotes(m: string)
    requires EndsOutside(m, Whitespace) && EndsOutside(m, Only('"')) && EndsOutside(m, Only('\''))
    ensures CleanPrefix("\"" + m + "\"") == m
  {
    QuotedTrims(m);
    CleanSteps("\"" + m + "\"", m, m);
  }

  /** The double quotes around `m` go, and nothing else. */
  lemma QuotedTrims(m: string)
    requires EndsOutside(m, Whitespace) && EndsOutside(m, Only('"'))
    ensures Trim(Strip("\"" + m + "\""), Only('"')) == m
  {
    var q := "\"" + m + "\"";
    TrimKeeps(q, Whitespace);
    TrimPadded("\"", m, "\"", Only('"'));
    TrimKeeps(m, Only('"'));
  }

  /** `CleanPrefix` in steps: once the double quotes leave `m` and the single
      quotes leave `n`, the result is `n` stripped. */
  lemma CleanSteps(s: string, m: string, n: string)
    requires Trim(Strip(s), Only('"')) == m
    requires Trim(m, Only('\'')) == n && EndsOutside(n, Whitespace)
    ensures CleanPrefix(s) == n
  {
    TrimKeeps(n, Whitespace);
  }

  /** Cleaning is not idempotent: a text in double quotes inside single quotes
      keeps its double quotes after one round and loses them in the second. */
  lemma CleanNotIdempotent(x: string)
    requires EndsOutside(x, Whitespace) && EndsOutside(x, Only('"')) && EndsOutside(x, Only('\''))
    ensures var once := CleanPrefix("'" + ("\"" + x + "\"") + "'");
            once == "\"" + x + "\"" && CleanPrefix(once) == x && CleanPrefix(once) != once
  {
    var t := "\"" + x + "\"";
    var s := "'" + t + "'";
    DoublyQuotedTrims(x, t, s);
    CleanSteps(s, s, t);
    CleanUnquotes(x);
  }

  /** The three trims of the first cleaning round on `'"x"'`: only the single
      quotes go. */
  lemma DoublyQuotedTrims(x: string, t: string, s: string)
    requires EndsOutside(x, Only('\''))
    requires t == "\"" + x + "\"" && s == "'" + t + "'"
    ensures Strip(s) == s && Trim(s, Only('"')) == s && Trim(s, Only('\'')) == t
  {
    TrimKeeps(s, Whitespace);
    TrimKeeps(s, Only('"'));
    TrimPadded("'", t, "'", Only('\''));
    TrimKeeps(t, Only('\''));
  }

  /** The prefix `render` takes from a reply: stripped and cleaned, and cut at the
      first newline (then stripped) when one remains. */
  function PrefixOf(content: string): (p: string)
    ensures '\n' !in p
  {
    var p := CleanPrefix(Strip(content));
    if p != "" && '\n' in p then
      var line := FirstLine(p);
      TrimLacks(line, Whitespace, '\n');
      Strip(line)
    else p
  }

  // ---------------------------------------------------------------------------
  // Rate limit

  /** One `_rate_limited` call at time `now`: whether it is limited, and the time
      of the last call afterwards. */
  function RateStep(last: real, now: real, minSeconds: real): (r: (bool, real))
    ensures r.0 <==> now - last < minSeconds
    ensures r.0 ==> r.1 == last
    ensures !r.0 ==> r.1 == now
  {
    if now - last < minSeconds then (true, last) else (false, now)
  }

  /** The answers of successive calls at the given times. */
  function RateTrace(last: real, times: seq<real>, minSeconds: real): (r: seq<bool>)
    ensures |r| == |times|
    decreases |times|
  {
    if times == [] then []
    else
      var step := RateStep(last, times[0], minSeconds);
      [step.0] + RateTrace(step.1, times[1..], minSeconds)
  }

  predicate NonDecreasing(times: seq<real>)
  {
    forall i, j :: 0 <= i < j < |times| ==> times[i] <= times[j]
  }

  /** Without a minimum interval and with a clock that never goes back, no call is
      ever limited. */
  lemma {:induction false} NeverLimited(last: real, times: seq<real>, minSeconds: real)
    requires minSeconds <= 0.0 && NonDecreasing(times)
    requires times != [] ==> last <= times[0]
    ensures forall k :: 0 <= k < |times| ==> !RateTrace(last, times, minSeconds)[k]
    decreases |times|
  {
    if times != [] {
      var rest := times[1..];
      assert NonDecreasing(rest) by {
        forall i, j | 0 <= i < j < |rest| ensures rest[i] <= rest[j] {
          assert rest[i] == times[i + 1] && rest[j] == times[j + 1];
        }
      }
      NeverLimited(times[0], rest, minSeconds);
      var r := RateTrace(last, times, minSeconds);
      assert r == [false] + RateTrace(times[0], rest, minSeconds);
      forall k | 0 <= k < |times| ensures !r[k] {
        if k > 0 {
          assert r[k] == RateTrace(times[0], rest, minSeconds)[k - 1];
        }
      }
    }
  }

  /** Every call that goes through comes at least `minSeconds` after the one
      before it that went through. */
  lemma {:induction false} TraceSpacing(last: real, times: seq<real>, minSeconds: real, k: nat)
    requires k < |times| && !RateTrace(last, times, minSeconds)[k]
    ensures times[k] - LastAccepted(last, times[..k], minSeconds) >= minSeconds
    decreases k
  {
    if k > 0 {
      var step := RateStep(last, times[0], minSeconds);
      assert RateTrace(last, times, minSeconds)[k] == RateTrace(step.1, times[1..], minSeconds)[k - 1];
      TraceSpacing(step.1, times[1..], minSeconds, k - 1);
      assert times[..k][1..] == times[1..][..k - 1];
    }
  }

  /** The time of the last call that went through, after calls at `times`. */
  function LastAccepted(last: real, times: seq<real>, minSeconds: real): real
    decreases |times|
  {
    if times == [] then last
    else LastAccepted(RateStep(last, times[0], minSeconds).1, times[1..], minSeconds)
  }

  // ---------------------------------------------------------------------------
  // The prompt

  /** `_get_storage_category`: the status label of the disk section, with
      percent 0 and thresholds 85 and 92 when missing. */
  function StorageCategory(payload: Dict): (r: Result<Status>)
    ensures !Truthy(Get(payload, "disk")) ==> r == Ok(Healthy)
    ensures r.Raises? ==> Section(Get(payload, "disk")).Raises?
                          || StatusOf(GetOr(Section(Get(payload, "disk")).value, "percent_before", Float(0.0)),
                                      GetOr(Section(Get(payload, "disk")).value, "pressure_threshold", Float(85.0)),
                                      GetOr(Section(Get(payload, "disk")).value, "emergency_threshold", Float(92.0))).Raises?
  {
    match Section(Get(payload, "disk"))
    case Raises => Raises
    case Ok(disk) =>
      StatusOf(GetOr(disk, "percent_before", Float(0.0)), GetOr(disk, "pressure_threshold", Float(85.0)),
               GetOr(disk, "emergency_threshold", Float(92.0)))
  }

  /** The category is the status the pressure block prints. */
  lemma CategoryIsPressureStatus(payload: Dict)
    requires SummaryOf(payload).Ok? && PressureNumeric(SummaryOf(payload).value)
    ensures var s := SummaryOf(payload).value;
            StorageCategory(payload)
              == Ok(StatusLabel(AsNumber(s.percentBefore).value, AsNumber(s.pressure).value, AsNumber(s.emergency).value))
  {
  }

  const PromptRules: string :=
    "Write ONE short sentence (max 110 chars).\n"

  const PromptLimits: string :=
    "No digits, no percentages, no GB, no timestamps, no quotes, no emojis.\n"
    + "Do not add a second sentence.\n"

  /** The user prompt after a run that deleted nothing. */
  function NoActionPrompt(category: string): string
  {
    "You are Irina. You reviewed the server logs. Storage is " + category + ".\n"
    + PromptRules
    + "Meaning: You reviewed logs and concluded no action needed; nothing removed.\n"
    + PromptLimits
  }

  /** The user prompt after a run that deleted something. */
  function CleanupPrompt(category: string): string
  {
    "You are Irina. You reviewed the server logs. Storage was " + category + ".\n"
    + PromptRules
    + "Meaning: You reviewed logs and cleanup was performed.\n"
    + PromptLimits
  }

  const Opening: string := "You are Irina. You reviewed the server logs. Storage "

  /** The two prompts never coincide: one says `is`, the other `was`. */
  lemma PromptsDiffer(c: string, d: string)
    ensures NoActionPrompt(c) != CleanupPrompt(d)
  {
    var n := |Opening|;
    assert NoActionPrompt(c)[n] == 'i';
    assert CleanupPrompt(d)[n] == 'w';
  }

  /** `_build_user_prompt`: the no-action prompt exactly when `deleted_count`
      (default 0) equals 0. A truthy `actions` or `disk` that is not a dict
      raises. */
  function BuildUserPrompt(payload: Dict): (r: Result<string>)
    ensures r.Ok? <==> Section(Get(payload, "actions")).Ok? && StorageCategory(payload).Ok?
  {
    match Section(Get(payload, "actions"))
    case Raises => Raises
    case Ok(actions) =>
      var deleted := GetOr(actions, "deleted_count", Int(0));
      match StorageCategory(payload)
      case Raises => Raises
      case Ok(category) =>
        if EqualsZero(deleted) then Ok(NoActionPrompt(StatusText(category)))
        else Ok(CleanupPrompt(StatusText(category)))
  }

  /** The prompt branch follows the deletion count, and the storage word is the
      status label. */
  lemma PromptChoice(payload: Dict)
    requires BuildUserPrompt(payload).Ok?
    ensures var deleted := GetOr(Section(Get(payload, "actions")).value, "deleted_count", Int(0));
            var category := StatusText(StorageCategory(payload).value);
            (BuildUserPrompt(payload).value == NoActionPrompt(category) <==> EqualsZero(deleted))
            && (BuildUserPrompt(payload).value == CleanupPrompt(category) <==> !EqualsZero(deleted))
  {
    var category := StatusText(StorageCategory(payload).value);
    PromptsDiffer(category, category);
  }

  /** Without an `actions` section the run counts as one without deletions. */
  lemma MissingActionsMeansNoAction(payload: Dict)
    requires !Truthy(Get(payload, "actions")) && StorageCategory(payload).Ok?
    ensures BuildUserPrompt(payload) == Ok(NoActionPrompt(StatusText(StorageCategory(payload).value)))
  {
  }

  // ---------------------------------------------------------------------------
  // The attempt loop of `render`

  /** A chat message. */
  datatype Message = Message(role: string, content: string)

  /** What one request to the chat API ended in: a timeout, an HTTP error status,
      any other exception, or the content of the reply. */
  datatype Attempt = Timeout | HttpError | OtherError | Text(content: string)

  const RetryRules: string :=
    "PREFIX RULES (must follow):\n"
    + "- ONE sentence only.\n"
    + "- No digits at all.\n"
    + "- No numbers, %, GB, thresholds, IDs, timestamps.\n"
    + "- Do not claim files were deleted.\n"
    + "- Do not mention cleanup operations.\n"
    + "- Do not use: today, yesterday, since, uptime, operational.\n"
    + "- Plain text only.\n\n"
    + "Good examples:\n"
    + "Master, I reviewed the logs: below threshold; no action required.\n"
    + "Logs reviewed: pressure is low; standing by.\n"

  /** The extra message of the second attempt, naming why the first was rejected. */
  function RetryNote(reason: string): string
  {
    "Your previous prefix violated a rule: " + reason + "\nRewrite the prefix.\n\n" + RetryRules
  }

  /** The messages of attempt `attempt`: the base pair, and on the second attempt
      the retry note when a reason was recorded. */
  function MessagesFor(base: seq<Message>, attempt: nat, last: Option<string>): seq<Message>
  {
    if attempt == 1 && last.Some? && last.value != "" then base + [Message("user", RetryNote(last.value))]
    else base
  }

  /** How one attempt is judged: accepted with its stripped prefix, rejected with
      a reason for the next attempt, or aborted by an exception that leaves
      `render`. */
  datatype Judgement = Accept(prefix: string) | Reject(reason: string) | Abort

  /** The three exception handlers of an attempt, and for a reply its cleaned
      prefix, judged by `JudgePrefix`. */
  function Judge(a: Attempt): (j: Judgement)
    ensures j.Reject? ==> j.reason != ""
    ensures j.Accept? ==> ValidatePrefix(j.prefix) == Pass && '\n' !in j.prefix
                          && EndsOutside(j.prefix, Whitespace)
    ensures j.Accept? <==> a.Text? && PrefixOf(a.content) != "" && ValidatePrefix(PrefixOf(a.content)) == Pass
    ensures j.Accept? ==> j.prefix == Strip(PrefixOf(a.content))
    ensures a.Text? && PrefixOf(a.content) == "" ==> j == Reject("empty output")
    ensures a.Text? && PrefixOf(a.content) != "" && ValidatePrefix(PrefixOf(a.content)).Fail? ==>
              j == Reject(ValidatePrefix(PrefixOf(a.content)).reason)
    ensures a == Timeout ==> j == Reject("timeout")
    ensures a == HttpError ==> j == Reject("http_error")
    ensures j == Abort <==> a == OtherError
  {
    match a
    case Timeout => Reject("timeout")
    case HttpError => Reject("http_error")
    case OtherError => Abort
    case Text(s) => JudgePrefix(PrefixOf(s))
  }

  /** A reply's cleaned prefix: rejected when empty or when a check fails (with
      that check's reason), otherwise accepted stripped. */
  function JudgePrefix(p: string): (j: Judgement)
    ensures j.Reject? ==> j.reason != ""
    ensures j.Accept? ==> ValidatePrefix(j.prefix) == Pass && '\n' !in j.prefix
                          && EndsOutside(j.prefix, Whitespace)
    ensures j.Accept? <==> p != "" && ValidatePrefix(p) == Pass
    ensures j.Accept? ==> j.prefix == Strip(p)
    ensures p == "" ==> j == Reject("empty output")
    ensures p != "" && ValidatePrefix(p).Fail? ==> j == Reject(ValidatePrefix(p).reason)
    ensures j != Abort
  {
    if p == "" then Reject("empty output")
    else match ValidatePrefix(p)
      case Fail(reason) => Reject(reason)
      case Pass =>
        ValidateStripped(p);
        Accept(Strip(p))
  }

  /** The outcome of `render`'s loop and the number of requests it made. */
  datatype Rendering = Rendering(prefix: Option<string>, calls: nat)

  /** The reason attempt `n` leaves for the next one, if it was rejected. */
  function ReasonFrom(j: Judgement): Option<string>
  {
    if j.Reject? then Some(j.reason) else None
  }

  /** The loop from attempt `attempt` on; `ask(n, messages)` is what request `n`
      with those messages ends in. A returned prefix is the accepted judgement of
      the last request made, which was sent the messages of its attempt. */
  function AttemptsFrom(base: seq<Message>, ask: (nat, seq<Message>) -> Attempt, attempt: nat,
                        last: Option<string>): (r: Rendering)
    requires attempt <= 2
    ensures r.calls <= 2 - attempt
    ensures r.prefix.Some? ==> ValidatePrefix(r.prefix.value) == Pass && '\n' !in r.prefix.value
                               && EndsOutside(r.prefix.value, Whitespace)
    ensures r.prefix.Some? ==>
              r.calls >= 1 &&
              var n := attempt + r.calls - 1;
              var prev := if n == attempt then last
                          else ReasonFrom(Judge(ask(attempt, MessagesFor(base, attempt, last))));
              Judge(ask(n, MessagesFor(base, n, prev))) == Accept(r.prefix.value)
    decreases 2 - attempt
  {
    if attempt == 2 then Rendering(None, 0)
    else match Judge(ask(attempt, MessagesFor(base, attempt, last)))
      case Accept(p) => Rendering(Some(p), 1)
      case Abort => Rendering(None, 1)
      case Reject(reason) =>
        var r := AttemptsFrom(base, ask, attempt + 1, Some(reason));
        Rendering(r.prefix, r.calls + 1)
  }

  /** `render` after the rate limit: a failing prompt fetch or prompt build gives
      `None` before any request; otherwise the loop runs on the system prompt and
      the user prompt. */
  function Rendered(payload: Dict, system: Result<string>, ask: (nat, seq<Message>) -> Attempt): (r: Rendering)
    ensures r.calls <= 2
    ensures r.prefix.Some? ==> ValidatePrefix(r.prefix.value) == Pass && '\n' !in r.prefix.value
                               && EndsOutside(r.prefix.value, Whitespace)
    ensures system.Raises? || BuildUserPrompt(payload).Raises? ==> r == Rendering(None, 0)
    ensures system.Ok? && BuildUserPrompt(payload).Ok? ==>
              r == AttemptsFrom([Message("system", system.value), Message("user", BuildUserPrompt(payload).value)],
                                ask, 0, None)
  {
    if system.Raises? then Rendering(None, 0)
    else match BuildUserPrompt(payload)
      case Raises => Rendering(None, 0)
      case Ok(user) => AttemptsFrom([Message("system", system.value), Message("user", user)], ask, 0, None)
  }

  /** A rejected first attempt is followed by a second whose last message names
      the reason. */
  lemma RetryCarriesReason(base: seq<Message>, ask: (nat, seq<Message>) -> Attempt)
    requires Judge(ask(0, base)).Reject?
    ensures var reason := Judge(ask(0, base)).reason;
            var second := AttemptsFrom(base, ask, 1, Some(reason));
            AttemptsFrom(base, ask, 0, None) == Rendering(second.prefix, second.calls + 1)
            && MessagesFor(base, 1, Some(reason)) == base + [Message("user", RetryNote(reason))]
  {
  }

  /** Two rejections exhaust the loop: `None` after two requests. */
  lemma ExhaustedIsNone(base: seq<Message>, ask: (nat, seq<Message>) -> Attempt)
    requires Judge(ask(0, base)).Reject?
    requires Judge(ask(1, MessagesFor(base, 1, Some(Judge(ask(0, base)).reason)))).Reject?
    ensures AttemptsFrom(base, ask, 0, None) == Rendering(None, 2)
  {
  }

  /** An exception other than a timeout or an HTTP error ends `render` at once. */
  lemma OtherErrorStops(base: seq<Message>, ask: (nat, seq<Message>) -> Attempt)
    requires ask(0, base) == OtherError
    ensures AttemptsFrom(base, ask, 0, None) == Rendering(None, 1)
  {
  }

  /** A reply that passes on the first attempt is returned, stripped, after one
      request. */
  lemma FirstAcceptWins(base: seq<Message>, ask: (nat, seq<Message>) -> Attempt)
    requires ask(0, base).Text? && PrefixOf(ask(0, base).content) != ""
    requires ValidatePrefix(PrefixOf(ask(0, base).content)) == Pass
    ensures AttemptsFrom(base, ask, 0, None) == Rendering(Some(Strip(PrefixOf(ask(0, base).content))), 1)
  {
    assert MessagesFor(base, 0, None) == base;
  }

  /** A rejected first reply followed by a second that passes: the second prefix
      is returned, stripped, after two requests, and the second request carried
      the reason of the first rejection. */
  lemma SecondAcceptWins(base: seq<Message>, ask: (nat, seq<Message>) -> Attempt)
    requires Judge(ask(0, base)).Reject?
    requires var m := base + [Message("user", RetryNote(Judge(ask(0, base)).reason))];
             ask(1, m).Text? && PrefixOf(ask(1, m).content) != ""
             && ValidatePrefix(PrefixOf(ask(1, m).content)) == Pass
    ensures var m := base + [Message("user", RetryNote(Judge(ask(0, base)).reason))];
            AttemptsFrom(base, ask, 0, None) == Rendering(Some(Strip(PrefixOf(ask(1, m).content))), 2)
  {
    assert MessagesFor(base, 0, None) == base;
    var reason := Judge(ask(0, base)).reason;
    assert MessagesFor(base, 1, Some(reason)) == base + [Message("user", RetryNote(reason))];
  }

  /** The `for attempt in range(2)` loop of `render`. */
  method RunAttempts(base: seq<Message>, ask: (nat, seq<Message>) -> Attempt)
      returns (result: Option<string>, calls: nat)
    ensures Rendering(result, calls) == AttemptsFrom(base, ask, 0, None)
  {
    result, calls := None, 0;
    var last: Option<string> := None;
    var attempt := 0;
    while attempt < 2
      invariant 0 <= attempt <= 2 && calls == attempt && result == None
      invariant var r := AttemptsFrom(base, ask, attempt, last);
                Rendering(r.prefix, calls + r.calls) == AttemptsFrom(base, ask, 0, None)
    {
      var messages := base;
      if attempt == 1 && last.Some? && last.value != "" {
        messages := messages + [Message("user", RetryNote(last.value))];
      }
      assert messages == MessagesFor(base, attempt, last);
      var reply := ask(attempt, messages);
      calls := calls + 1;
      var judgement := Judge(reply);
      match judgement {
        case Accept(p) =>
          result := Some(p);
          return;
        case Abort => return;
        case Reject(reason) => last := Some(reason);
      }
      attempt := attempt + 1;
    }
  }

  class PersonalityRenderer {
    var lastCallTs: real
    const minSecondsBetweenCalls: real

    constructor (minSecondsBetweenCalls: real)
      ensures lastCallTs == 0.0 && this.minSecondsBetweenCalls == minSecondsBetweenCalls
    {
      lastCallTs := 0.0;
      this.minSecondsBetweenCalls := minSecondsBetweenCalls;
    }

    /** `_rate_limited` at time `now`. */
    method RateLimited(now: real) returns (limited: bool)
      modifies this
      ensures (limited, lastCallTs) == RateStep(old(lastCallTs), now, minSecondsBetweenCalls)
    {
      if now - lastCallTs < minSecondsBetweenCalls {
        return true;
      }
      lastCallTs := now;
      limited := false;
    }

    /** `render` at time `now`; `system` is what `_fetch_system_prompt` returns or
        raises and `ask` stands for the chat API. `calls` counts the requests. */
    method Render(payload: Dict, now: real, system: Result<string>, ask: (nat, seq<Message>) -> Attempt)
        returns (result: Option<string>, calls: nat)
      modifies this
      ensures now - old(lastCallTs) < minSecondsBetweenCalls ==>
                result == None && calls == 0 && lastCallTs == old(lastCallTs)
      ensures now - old(lastCallTs) >= minSecondsBetweenCalls ==>
                lastCallTs == now && Rendering(result, calls) == Rendered(payload, system, ask)
    {
      result, calls := None, 0;
      var limited := RateLimited(now);
      if limited || system.Raises? {
        return;
      }
      var user := BuildUserPrompt(payload);
      if user.Raises? {
        return;
      }
      result, calls := RunAttempts([Message("system", system.value), Message("user", user.value)], ask);
    }
  }
}
