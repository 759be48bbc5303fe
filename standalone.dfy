/** The second prefix guard, kept in a stand-alone test script: a normaliser that
    removes at most one pair of outer quotes, and a validator without the
    newline, length and sentence checks but with "since" among its banned
    words. */
module Standalone {
  import opened Wrappers
  import opened Text
  import opened Words
  import Personality

  /** The banned whole words, in the order they are tried. */
  const Banned: seq<string> := ["today", "yesterday", "uptime", "since", "operational since", "elapsed"]

  /** `text.startswith(q) and text.endswith(q)` for a one-character `q`. */
  predicate QuotedBy(text: string, q: char)
  {
    StartsWith(text, [q]) && EndsWith(text, [q])
  }

  /** `text[1:-1]`: empty when `text` has fewer than two characters. */
  function Inner(text: string): (r: string)
    ensures |text| >= 2 ==> |r| == |text| - 2 && forall k :: 0 <= k < |r| ==> r[k] == text[k + 1]
    ensures |text| < 2 ==> r == ""
  {
    if |text| >= 2 then text[1..|text| - 1] else ""
  }

  /** `normalize_prefix`: strip, drop one outer pair of `"` or else of `'`, strip. */
  function Normalize(raw: string): (r: string)
    ensures EndsOutside(r, Whitespace)
  {
    var text := Strip(raw);
    if QuotedBy(text, '"') then Strip(Inner(text))
    else if QuotedBy(text, '\'') then Strip(Inner(text))
    else Strip(text)
  }

  /** `validate_prefix`: the checks in their order on the stripped text. */
  function Validate(text: string): (v: Personality.Verdict)
    ensures v.Fail? ==> v.reason != ""
  {
    Checks(Strip(text))
  }

  /** The checks on text that is already stripped. */
  function Checks(t: string): (v: Personality.Verdict)
    ensures v.Fail? ==> v.reason != ""
  {
    var low := Lower(t);
    if t == "" then Personality.Fail("empty")
    else if StartsWithAny(low, Personality.Fillers) then Personality.Fail("acknowledgement/assistant filler")
    else if FirstWholeWord(low, Banned).Some? then
      Personality.Fail(Personality.BannedReason(FirstWholeWord(low, Banned).value))
    else if HasDigit(t) then Personality.Fail("contains digits")
    else if ContainsAny(low, Personality.DeletionWords) then Personality.Fail("claims deletion")
    else Personality.Pass
  }

  // ---------------------------------------------------------------------------
  // Normalisation

  /** One pair of quotes around `m`, with whitespace outside it, leaves `m`
      stripped. */
  lemma NormalizeUnwraps(pre: string, q: char, m: string, post: string)
    requires q == '"' || q == '\''
    requires forall k :: 0 <= k < |pre| ==> IsSpace(pre[k])
    requires forall k :: 0 <= k < |post| ==> IsSpace(post[k])
    ensures Normalize(pre + ([q] + m + [q]) + post) == Strip(m)
  {
    var w := [q] + m + [q];
    TrimPadded(pre, w, post, Whitespace);
    TrimKeeps(w, Whitespace);
    QuotedInner(q, m);
  }

  /** `[q] + m + [q]` is quoted by `q`, and `m` is inside. */
  lemma QuotedInner(q: char, m: string)
    ensures QuotedBy([q] + m + [q], q) && Inner([q] + m + [q]) == m
  {
    var w := [q] + m + [q];
    assert w[..1] == [q] && w[|w| - 1..] == [q];
    assert Inner(w) == m;
  }

  /** Only one pair goes: a doubly quoted text keeps its inner pair. */
  lemma NormalizeOnePair(q: char, m: string)
    requires q == '"' || q == '\''
    ensures Normalize([q] + ([q] + m + [q]) + [q]) == [q] + m + [q]
  {
    var w := [q] + m + [q];
    var s := [q] + w + [q];
    TrimKeeps(s, Whitespace);
    assert QuotedBy(s, q) by {
      assert s[..1] == [q] && s[|s| - 1..] == [q];
    }
    assert Inner(s) == w;
    TrimKeeps(w, Whitespace);
  }

  /** Normalising is therefore not idempotent. */
  lemma NormalizeNotIdempotent(q: char, m: string)
    requires q == '"' || q == '\''
    requires EndsOutside(m, Whitespace)
    ensures var once := Normalize([q] + ([q] + m + [q]) + [q]);
            Normalize(once) == m && once != m
  {
    NormalizeOnePair(q, m);
    NormalizeUnwraps([], q, m, []);
    assert [] + ([q] + m + [q]) + [] == [q] + m + [q];
    TrimKeeps(m, Whitespace);
  }

  /** Text that is not quoted after stripping is only stripped. */
  lemma NormalizeUnquoted(raw: string)
    requires !QuotedBy(Strip(raw), '"') && !QuotedBy(Strip(raw), '\'')
    ensures Normalize(raw) == Strip(raw)
  {
    TrimIdempotent(raw, Whitespace);
  }

  /** A lone quote character counts as quoted and leaves nothing. */
  lemma NormalizeLoneQuote(q: char)
    requires q == '"' || q == '\''
    ensures Normalize([q]) == ""
  {
    TrimKeeps([q], Whitespace);
    assert QuotedBy([q], q);
  }

  /** The normalised text is a contiguous piece of the raw text. */
  lemma NormalizeContained(raw: string)
    ensures Contains(raw, Normalize(raw))
  {
    var text := Strip(raw);
    TrimContained(raw, Whitespace);
    if QuotedBy(text, '"') || QuotedBy(text, '\'') {
      var inner := Inner(text);
      assert Contains(text, inner) by {
        if |text| >= 2 {
          assert OccursAt(text, inner, 1);
        } else {
          assert OccursAt(text, inner, 0);
        }
      }
      TrimContained(inner, Whitespace);
      ContainsTransitive(raw, text, inner);
      ContainsTransitive(raw, inner, Strip(inner));
    } else {
      TrimContained(text, Whitespace);
      ContainsTransitive(raw, text, Strip(text));
    }
  }

  /** The two normalisers part ways on a doubly quoted text: the personality
      cleaner strips every quote, this one a single pair. */
  lemma NormalizersDiffer(m: string)
    requires EndsOutside(m, Whitespace) && EndsOutside(m, Only('"')) && EndsOutside(m, Only('\''))
    ensures Personality.CleanPrefix("\"\"" + m + "\"\"") == m
    ensures Normalize("\"" + ("\"" + m + "\"") + "\"") == "\"" + m + "\""
  {
    var s := "\"\"" + m + "\"\"";
    assert Strip(s) == s by {
      TrimKeeps(s, Whitespace);
    }
    assert Trim(s, Only('"')) == m by {
      TrimPadded("\"\"", m, "\"\"", Only('"'));
      TrimKeeps(m, Only('"'));
    }
    Personality.CleanSteps(s, m, m);
    TrimKeeps(m, Only('\''));
    NormalizeOnePair('"', m);
  }

  // ---------------------------------------------------------------------------
  // Validation

  /** Every check passes on the stripped text `t`. */
  predicate AllChecksPass(t: string)
  {
    t != "" && !StartsWithAny(Lower(t), Personality.Fillers)
    && (forall k :: 0 <= k < |Banned| ==> !HasWholeWord(Lower(t), Banned[k]))
    && !HasDigit(t) && !ContainsAny(Lower(t), Personality.DeletionWords)
  }

  /** A prefix passes exactly when every check passes. */
  lemma ValidateAccepts(text: string)
    ensures Validate(text) == Personality.Pass <==> AllChecksPass(Strip(text))
  {
  }

  /** The reason is that of the first check, in list order, that fails. */
  lemma ValidateReasons(text: string)
    ensures var t := Strip(text);
            var low := Lower(t);
            var v := Validate(text);
            var filler := StartsWithAny(low, Personality.Fillers);
            var word := FirstWholeWord(low, Banned);
            (v == Personality.Fail("empty") <==> t == "")
            && (v == Personality.Fail("acknowledgement/assistant filler") <==> t != "" && filler)
            && (forall b :: v == Personality.Fail(Personality.BannedReason(b)) <==>
                              t != "" && !filler && word == Some(b))
            && (v == Personality.Fail("contains digits") <==> t != "" && !filler && word == None && HasDigit(t))
            && (v == Personality.Fail("claims deletion") <==>
                  t != "" && !filler && word == None && !HasDigit(t) && ContainsAny(low, Personality.DeletionWords))
  {
    var t := Strip(text);
    var low := Lower(t);
    forall b ensures Personality.BannedReason(b)[0] == 'b' {
    }
    var v := Validate(text);
    if v.Fail? && v.reason[0] == 'b' {
      assert FirstWholeWord(low, Banned).Some?;
      forall b | v == Personality.Fail(Personality.BannedReason(b)) ensures FirstWholeWord(low, Banned) == Some(b) {
        var c := FirstWholeWord(low, Banned).value;
        assert Personality.BannedReason(b) == Personality.BannedReason(c);
        assert b == Personality.BannedReason(b)[15..|Personality.BannedReason(b)| - 1];
      }
    }
  }

  /** Where the two validators agree: apart from "since", this one demands no
      more than the personality checks. */
  lemma PersonalityPassImpliesPass(text: string)
    requires Personality.ValidatePrefix(text) == Personality.Pass
    requires !HasWholeWord(Lower(Strip(text)), "since")
    ensures Validate(text) == Personality.Pass
  {
    var low := Lower(Strip(text));
    Personality.ValidateAccepts(text);
    forall k | 0 <= k < |Banned| ensures !HasWholeWord(low, Banned[k]) {
      if k < 3 {
        assert Banned[k] == Personality.Banned[k];
      } else if k > 3 {
        assert Banned[k] == Personality.Banned[k - 1];
      }
    }
    ValidateAccepts(text);
  }

  /** ...and a single short line without a second sentence that passes here
      passes the personality checks. */
  lemma PassImpliesPersonalityPass(text: string)
    requires Validate(text) == Personality.Pass
    requires var t := Strip(text); '\n' !in t && |t| <= Personality.MaxPrefixLength && !Personality.MultiSentence(t)
    ensures Personality.ValidatePrefix(text) == Personality.Pass
  {
    var low := Lower(Strip(text));
    ValidateAccepts(text);
    forall k | 0 <= k < |Personality.Banned| ensures !HasWholeWord(low, Personality.Banned[k]) {
      if k < 3 {
        assert Personality.Banned[k] == Banned[k];
      } else {
        assert Personality.Banned[k] == Banned[k + 1];
      }
    }
    Personality.ValidateAccepts(text);
  }

  // ---------------------------------------------------------------------------
  // The cases of `test_normalization`

  /** Text with no whitespace at its ends that does not open with a quote is
      already normal. */
  lemma NormalizeKeeps(raw: string)
    requires EndsOutside(raw, Whitespace)
    requires raw == [] || (raw[0] != '"' && raw[0] != '\'')
    ensures Normalize(raw) == raw
  {
    TrimKeeps(raw, Whitespace);
    NormalizeUnquoted(raw);
  }

  /** One pair of quotes and nothing around it. */
  lemma NormalizeUnwrapsBare(q: char, m: string)
    requires q == '"' || q == '\''
    ensures Normalize([q] + m + [q]) == Strip(m)
  {
    NormalizeUnwraps([], q, m, []);
    assert [] + ([q] + m + [q]) + [] == [q] + m + [q];
  }

  /** One pair of quotes around text with no whitespace at its ends. */
  lemma NormalizeUnwrapsPlain(q: char, m: string)
    requires q == '"' || q == '\''
    requires |m| >= 1 && !IsSpace(m[0]) && !IsSpace(m[|m| - 1])
    ensures Normalize([q] + m + [q]) == m
  {
    NormalizeUnwrapsBare(q, m);
    TrimKeeps(m, Whitespace);
  }

  /** Whitespace around text with no whitespace at its ends and no opening
      quote is all that goes. */
  lemma NormalizePaddedPlain(pre: string, m: string, post: string)
    requires forall k :: 0 <= k < |pre| ==> IsSpace(pre[k])
    requires forall k :: 0 <= k < |post| ==> IsSpace(post[k])
    requires |m| >= 1 && !IsSpace(m[0]) && !IsSpace(m[|m| - 1])
    requires m[0] != '"' && m[0] != '\''
    ensures Normalize(pre + m + post) == m
  {
    TrimPadded(pre, m, post, Whitespace);
    TrimKeeps(m, Whitespace);
    NormalizeUnquoted(pre + m + post);
  }

  lemma NormalizeCaseDoubleQuoted(raw: string)
    requires raw == "\"" + "System operational" + "\""
    ensures Normalize(raw) == "System operational"
  {
    NormalizeUnwrapsPlain('"', "System operational");
  }

  lemma NormalizeCaseSingleQuoted(raw: string)
    requires raw == "'" + "All systems green" + "'"
    ensures Normalize(raw) == "All systems green"
  {
    NormalizeUnwrapsPlain('\'', "All systems green");
  }

  lemma NormalizeCasePadded(raw: string)
    requires raw == "  " + "Whitespace" + "  "
    ensures Normalize(raw) == "Whitespace"
  {
    NormalizePaddedPlain("  ", "Whitespace", "  ");
  }

  lemma NormalizeCaseQuotedText(raw: string)
    requires raw == "\"" + "Quoted text" + "\""
    ensures Normalize(raw) == "Quoted text"
  {
    NormalizeUnwrapsPlain('"', "Quoted text");
  }

  lemma NormalizeCaseMultiLine(raw: string)
    requires raw == "Multi\nline\ntext"
    ensures Normalize(raw) == raw
  {
    NormalizeKeeps(raw);
  }

  lemma NormalizeCaseSentences(raw: string)
    requires raw == "Everything running smoothly." + " No issues detected."
    ensures Normalize(raw) == raw
  {
    NormalizeKeeps(raw);
  }

  // ---------------------------------------------------------------------------
  // The cases of `test_validation` and `test_pipeline`

  /** No banned word and no deletion word is in the lower-cased text. */
  predicate Clean(low: string)
  {
    FirstWholeWord(low, Banned) == None && !ContainsAny(low, Personality.DeletionWords)
  }

  /** A stripped text without digits, filler opening, banned or deletion words
      passes. */
  lemma PassesWhen(t: string)
    requires Strip(t) == t && |t| >= 2 && !HasDigit(t)
    requires var low := Lower(t);
             (low[0] != 'o' || low[1] != 'k') && (low[0] != 'u' || low[1] != 'n')
             && (low[0] != 'p' || low[1] != 'l')
    requires Clean(Lower(t))
    ensures Validate(t) == Personality.Pass
  {
    Personality.NoFiller(Lower(t));
    ValidateAccepts(t);
  }

  /** Without `d` only "uptime", "since" and "operational since" could match, and
      the last holds the one before it. */
  lemma WordsAbsent(low: string)
    requires 'd' !in low && !Contains(low, "uptime") && !Contains(low, "since")
    ensures Clean(low)
  {
    MissingChar(low, "today", 'd');
    MissingChar(low, "yesterday", 'd');
    MissingChar(low, "elapsed", 'd');
    SinceInside(low);
    forall k | 0 <= k < |Banned| ensures !HasWholeWord(low, Banned[k]) {
      NotWholeWord(low, Banned[k]);
    }
    MissingChar(low, "deleted", 'd');
    MissingChar(low, "removed", 'd');
    MissingChar(low, "purged", 'd');
    MissingChar(low, "redacted", 'd');
    MissingChar(low, "cleared", 'd');
  }

  /** "operational since" holds "since". */
  lemma SinceInside(low: string)
    requires !Contains(low, "since")
    ensures !Contains(low, "operational since")
  {
    if Contains(low, "operational since") {
      assert "operational since"[12..] == "since";
      assert OccursAt("operational since", "since", 12);
      ContainsTransitive(low, "operational since", "since");
    }
  }

  /** The banned words are checked in order: the first that occurs as a whole
      word, with none before it, is the one reported. */
  lemma BannedAt(low: string, k: nat)
    requires k < |Banned| && HasWholeWord(low, Banned[k])
    requires forall m :: 0 <= m < k ==> !HasWholeWord(low, Banned[m])
    ensures FirstWholeWord(low, Banned) == Some(Banned[k])
  {
  }

  /** Each banned word and each deletion word has a letter (`bs`, `ds`) among
      the letters `cs` the text lacks, so the text is clean. */
  lemma CleanLacking(low: string, cs: string, bs: string, ds: string)
    requires forall k :: 0 <= k < |cs| ==> cs[k] !in low
    requires |bs| == |Banned| && forall k :: 0 <= k < |Banned| ==> bs[k] in Banned[k] && bs[k] in cs
    requires |ds| == |Personality.DeletionWords|
    requires forall k :: 0 <= k < |ds| ==> ds[k] in Personality.DeletionWords[k] && ds[k] in cs
    ensures Clean(low)
  {
    NoBannedLacking(low, cs, bs);
    forall w | w in Personality.DeletionWords ensures !Contains(low, w) {
      var k :| 0 <= k < |ds| && Personality.DeletionWords[k] == w;
      MissingChar(low, w, ds[k]);
    }
  }

  /** The banned half of `CleanLacking`. */
  lemma NoBannedLacking(low: string, cs: string, bs: string)
    requires forall k :: 0 <= k < |cs| ==> cs[k] !in low
    requires |bs| == |Banned| && forall k :: 0 <= k < |Banned| ==> bs[k] in Banned[k] && bs[k] in cs
    ensures FirstWholeWord(low, Banned) == None
  {
    forall k | 0 <= k < |Banned| ensures !HasWholeWord(low, Banned[k]) {
      MissingChar(low, Banned[k], bs[k]);
      NotWholeWord(low, Banned[k]);
    }
  }

  /** `CleanLacking` for a text given in two pieces. */
  lemma CleanLackingJoin(a: string, b: string, cs: string, bs: string, ds: string)
    requires Lacks(a, cs) && Lacks(b, cs)
    requires |bs| == |Banned| && forall k :: 0 <= k < |Banned| ==> bs[k] in Banned[k] && bs[k] in cs
    requires |ds| == |Personality.DeletionWords|
    requires forall k :: 0 <= k < |ds| ==> ds[k] in Personality.DeletionWords[k] && ds[k] in cs
    ensures Clean(Lower(a + b))
  {
    LacksAppend(a, b, cs);
    LacksLower(a + b, cs);
    CleanLacking(Lower(a + b), cs, bs, ds);
  }

  /** A text in two pieces passes when it starts and ends outside whitespace,
      holds no digit, does not open with a filler word, and lacks a letter of
      every banned and every deletion word. */
  lemma PassesJoin(a: string, b: string, cs: string, bs: string, ds: string)
    requires |a| >= 2 && |b| >= 1 && !IsSpace(a[0]) && !IsSpace(b[|b| - 1])
    requires !HasDigit(a) && !HasDigit(b)
    requires (LowerChar(a[0]) != 'o' || LowerChar(a[1]) != 'k')
             && (LowerChar(a[0]) != 'u' || LowerChar(a[1]) != 'n')
             && (LowerChar(a[0]) != 'p' || LowerChar(a[1]) != 'l')
    requires Lacks(a, cs) && Lacks(b, cs)
    requires |bs| == |Banned| && forall k :: 0 <= k < |Banned| ==> bs[k] in Banned[k] && bs[k] in cs
    requires |ds| == |Personality.DeletionWords|
    requires forall k :: 0 <= k < |ds| ==> ds[k] in Personality.DeletionWords[k] && ds[k] in cs
    ensures Validate(a + b) == Personality.Pass
  {
    var t := a + b;
    CleanLackingJoin(a, b, cs, bs, ds);
    DigitsAppend(a, b);
    assert t[0] == a[0] && t[1] == a[1] && t[|t| - 1] == b[|b| - 1];
    TrimKeeps(t, Whitespace);
    PassesWhen(t);
  }

  /** A word without the separator that is in none of three pieces is not in
      their join. */
  lemma JoinMisses(l1: string, l2: string, l3: string, sep: char, w: string)
    requires sep !in w && !Contains(l1, w) && !Contains(l2, w) && !Contains(l3, w)
    ensures !Contains(l1 + [sep] + l2 + [sep] + l3, w)
  {
    ContainsAcross(l1, sep, l2, w);
    ContainsAcross(l1 + [sep] + l2, sep, l3, w);
  }

  /** The valid cases of `test_validation` pass. */
  lemma ValidCaseOperational(t: string)
    requires t == "System " + "operational."
    ensures Validate(t) == Personality.Pass
  {
    PassesJoin("System ", "operational.", "duc", "dduccd", "ddddd");
  }

  lemma ValidCaseGreen(t: string)
    requires t == "All systems " + "green!"
    ensures Validate(t) == Personality.Pass
  {
    PassesJoin("All systems ", "green!", "duc", "dduccd", "ddddd");
  }

  lemma ValidCaseNominal(t: string)
    requires t == "Status " + "nominal?"
    ensures Validate(t) == Personality.Pass
  {
    PassesJoin("Status ", "nominal?", "dpc", "ddpccd", "ddddd");
  }

  lemma ValidCaseMaintenance(t: string)
    requires t == "Maintenance " + "complete;"
    ensures Validate(t) == Personality.Pass
  {
    PassesJoin("Maintenance ", "complete;", "dus", "ddussd", "ddddd");
  }

  lemma ValidCaseSmoothly(t: string)
    requires t == "Everything " + "running " + "smoothly."
    ensures Validate(t) == Personality.Pass
  {
    SmoothlyOpening("Everything " + "running ");
    PassesJoin("Everything " + "running ", "smoothly.", "dpc", "ddpccd", "ddddd");
  }

  /** "Everything running " has no digit and no `d`, `p` or `c`. */
  lemma SmoothlyOpening(a: string)
    requires a == "Everything " + "running "
    ensures Lacks(a, "dpc") && !HasDigit(a)
  {
    LacksAppend("Everything ", "running ", "dpc");
    DigitsAppend("Everything ", "running ");
  }

  /** Several lines pass here, though the personality checks reject them. */
  lemma ValidCaseMultiLine(t: string)
    requires t == "Multi\nline\n" + "text is " + "allowed"
    ensures Validate(t) == Personality.Pass
  {
    MultiClean(t);
    TrimKeeps(t, Whitespace);
    PassesWhen(t);
  }

  lemma MultiClean(t: string)
    requires t == "Multi\nline\n" + "text is " + "allowed"
    ensures Clean(Lower(t))
  {
    LacksAppend("Multi\nline\n", "text is ", "ypcr");
    LacksAppend("Multi\nline\n" + "text is ", "allowed", "ypcr");
    LacksLower(t, "ypcr");
    MultiNoDeleted(t);
    CleanButDeleted(Lower(t), "ypcr");
  }

  /** Without `y`, `p`, `c`, `r` and "deleted" a text is clean. */
  lemma CleanButDeleted(low: string, cs: string)
    requires forall k :: 0 <= k < |cs| ==> cs[k] !in low
    requires 'y' in cs && 'p' in cs && 'c' in cs && 'r' in cs
    requires !Contains(low, "deleted")
    ensures Clean(low)
  {
    NoBannedLacking(low, cs, "yypccp");
    MissingChar(low, "removed", 'r');
    MissingChar(low, "purged", 'p');
    MissingChar(low, "redacted", 'r');
    MissingChar(low, "cleared", 'c');
  }

  lemma MultiNoDeleted(t: string)
    requires t == "Multi\nline\n" + "text is " + "allowed"
    ensures !Contains(Lower(t), "deleted")
  {
    assert Lower(t) == "multi\nline\ntext is allowed";
    assert !SearchFrom("multi\nline\ntext is allowed", "deleted", 16);
    assert !SearchFrom("multi\nline\ntext is allowed", "deleted", 8);
    assert !SearchFrom("multi\nline\ntext is allowed", "deleted", 0);
    SearchMisses("multi\nline\ntext is allowed", "deleted");
  }

  /** Two hundred characters pass here, though the personality checks reject
      them as too long. */
  lemma ValidCaseLong(t: string)
    requires t == seq(200, _ => 'x')
    ensures Validate(t) == Personality.Pass
  {
    LowerKeeps(t);
    TrimKeeps(t, Whitespace);
    assert 'd' !in t && 'u' !in t && 'c' !in t;
    CleanLacking(t, "duc", "dduccd", "ddddd");
    PassesWhen(t);
  }

  /** The invalid cases of `test_validation` fail, each with the reason of its
      first failing check. */
  lemma InvalidCaseEmpty()
    ensures Validate("") == Personality.Fail("empty")
  {
  }

  lemma InvalidCaseDigits(t: string)
    requires t == "Contains " + "123 digits"
    ensures Validate(t) == Personality.Fail("contains digits")
  {
    LacksAppend("Contains ", "123 digits", "yue");
    LacksLower(t, "yue");
    NoBannedLacking(Lower(t), "yue", "yyueee");
    TrimKeeps(t, Whitespace);
    assert IsDigit(t[9]);
    Rejected(t);
  }

  /** The reasons of a stripped text that does not open with a filler word. */
  lemma Rejected(t: string)
    requires Strip(t) == t && |t| >= 2
    requires var low := Lower(t);
             (low[0] != 'o' || low[1] != 'k') && (low[0] != 'u' || low[1] != 'n')
             && (low[0] != 'p' || low[1] != 'l')
    ensures FirstWholeWord(Lower(t), Banned).Some? ==>
              Validate(t) == Personality.Fail(Personality.BannedReason(FirstWholeWord(Lower(t), Banned).value))
    ensures FirstWholeWord(Lower(t), Banned).None? && HasDigit(t) ==>
              Validate(t) == Personality.Fail("contains digits")
    ensures FirstWholeWord(Lower(t), Banned).None? && !HasDigit(t)
            && ContainsAny(Lower(t), Personality.DeletionWords) ==>
              Validate(t) == Personality.Fail("claims deletion")
  {
    Personality.NoFiller(Lower(t));
    ValidateReasons(t);
  }

  lemma InvalidCaseDeleted(t: string)
    requires t == "Deleted " + "files"
    ensures Validate(t) == Personality.Fail("claims deletion")
  {
    DeletedNoBanned(t);
    TrimKeeps(t, Whitespace);
    DeletedFirst(t);
    Rejected(t);
  }

  /** "Deleted files" has no digit and, lacking `y`, `u`, `n`, `o` and `a`, no
      banned word. */
  lemma DeletedNoBanned(t: string)
    requires t == "Deleted " + "files"
    ensures FirstWholeWord(Lower(t), Banned) == None && !HasDigit(t)
  {
    LacksAppend("Deleted ", "files", "yunoa");
    LacksLower(t, "yunoa");
    NoBannedLacking(Lower(t), "yunoa", "yyunoa");
    DigitsAppend("Deleted ", "files");
  }

  /** "deleted" opens the lower-cased text. */
  lemma DeletedFirst(t: string)
    requires |t| >= 7 && t[..7] == "Deleted"
    ensures ContainsAny(Lower(t), Personality.DeletionWords)
  {
    assert Lower(t)[..7] == "deleted";
    assert OccursAt(Lower(t), "deleted", 0);
    assert "deleted" in Personality.DeletionWords && Contains(Lower(t), "deleted");
  }

  lemma InvalidCaseToday(t: string)
    requires t == "Today " + "is good"
    ensures Validate(t) == Personality.Fail(Personality.BannedReason("today"))
  {
    TrimKeeps(t, Whitespace);
    TodayFirst(t);
    Rejected(t);
  }

  /** A text opening with the word "Today" has it as its first banned word. */
  lemma TodayFirst(t: string)
    requires |t| >= 6 && t[..6] == "Today "
    ensures FirstWholeWord(Lower(t), Banned) == Some("today")
  {
    var low := Lower(t);
    assert low[..5] == "today";
    assert WholeWordAt(low, "today", 0);
    BannedAt(low, 0);
  }

  lemma InvalidCaseUptime(t: string)
    requires t == "Uptime " + "is high"
    ensures Validate(t) == Personality.Fail(Personality.BannedReason("uptime"))
  {
    TrimKeeps(t, Whitespace);
    LacksAppend("Uptime ", "is high", "y");
    LacksLower(t, "y");
    UptimeFirst(t);
    Rejected(t);
  }

  /** A text opening with the word "Uptime", without `y`, has it as its first
      banned word. */
  lemma UptimeFirst(t: string)
    requires |t| >= 7 && t[..7] == "Uptime " && 'y' !in Lower(t)
    ensures FirstWholeWord(Lower(t), Banned) == Some("uptime")
  {
    var low := Lower(t);
    MissingChar(low, "today", 'y');
    MissingChar(low, "yesterday", 'y');
    NotWholeWord(low, "today");
    NotWholeWord(low, "yesterday");
    assert low[..6] == "uptime";
    assert WholeWordAt(low, "uptime", 0);
    BannedAt(low, 2);
  }

  lemma InvalidCaseOk(t: string)
    requires t == "ok"
    ensures Validate(t) == Personality.Fail("acknowledgement/assistant filler")
  {
    TrimKeeps(t, Whitespace);
    assert Lower(t) == "ok";
    assert StartsWith(Lower(t), "ok");
  }

  /** "Since yesterday" fails on "yesterday", which comes before "since" in the
      list. */
  lemma InvalidCaseSinceYesterday(t: string)
    requires t == "Since " + "yesterday"
    ensures Validate(t) == Personality.Fail(Personality.BannedReason("yesterday"))
  {
    TrimKeeps(t, Whitespace);
    LacksAppend("Since ", "yesterday", "o");
    LacksLower(t, "o");
    YesterdaySecond(t);
    Rejected(t);
  }

  /** A six-character opening without `o`, then the word "yesterday". */
  lemma YesterdaySecond(t: string)
    requires |t| == 15 && t[5] == ' ' && t[6..] == "yesterday" && 'o' !in Lower(t)
    ensures FirstWholeWord(Lower(t), Banned) == Some("yesterday")
  {
    var low := Lower(t);
    MissingChar(low, "today", 'o');
    NotWholeWord(low, "today");
    assert low[6..15] == "yesterday";
    assert WholeWordAt(low, "yesterday", 6);
    BannedAt(low, 1);
  }

  /** The cases of `test_pipeline`, each normalised and then validated. */
  lemma PipelineNormalizeSentences(raw: string)
    requires raw == "\"" + ((("Everything " + "running " + "smoothly.") + " " + "No issues") + " " + "detected.") + "\""
    ensures Normalize(raw) == (("Everything " + "running " + "smoothly.") + " " + "No issues") + " " + "detected."
  {
    var t := (("Everything " + "running " + "smoothly.") + " " + "No issues") + " " + "detected.";
    NormalizeUnwrapsBare('"', t);
    TrimKeeps(t, Whitespace);
  }

  lemma PipelineValidSentences(t: string)
    requires t == (("Everything " + "running " + "smoothly.") + " " + "No issues") + " " + "detected."
    ensures Validate(t) == Personality.Pass
  {
    SentencesClean(t);
    TrimKeeps(t, Whitespace);
    PassesWhen(t);
  }

  /** Without `a` and `p` only "since", "deleted", "removed" and "operational
      since" could match; every space-free piece lacks a letter of each of the
      first three. */
  lemma SentencesClean(t: string)
    requires t == (("Everything " + "running " + "smoothly.") + " " + "No issues") + " " + "detected."
    ensures Clean(Lower(t))
  {
    LacksAppend("Everything ", "running ", "cdap");
    LacksAppend("Everything " + "running ", "smoothly.", "cdap");
    SentencesJoin("Everything " + "running " + "smoothly.", "No issues", "detected.");
  }

  /** Three space-separated pieces, the first two without `c`, `d`, `a`, `p` and
      the last without `s`, `l`, `r`, `a`, `p`, make a clean text. */
  lemma SentencesJoin(p1: string, p2: string, p3: string)
    requires Lacks(p1, "cdap") && Lacks(p2, "cdap") && Lacks(p3, "slrap")
    ensures Clean(Lower(p1 + " " + p2 + " " + p3))
  {
    PieceLacks(p1, "cdap", 'c', 'd', 'd');
    PieceLacks(p2, "cdap", 'c', 'd', 'd');
    PieceLacks(p3, "slrap", 's', 'l', 'r');
    assert p1 + " " + p2 + " " + p3 == p1 + [' '] + p2 + [' '] + p3;
    LowerJoin(p1, ' ', p2, ' ', p3);
    var l1, l2, l3 := Lower(p1), Lower(p2), Lower(p3);
    JoinMisses(l1, l2, l3, ' ', "since");
    JoinMisses(l1, l2, l3, ' ', "deleted");
    JoinMisses(l1, l2, l3, ' ', "removed");
    CleanWithoutAP(l1 + [' '] + l2 + [' '] + l3);
  }

  /** Lower-casing three pieces around two separators. */
  lemma LowerJoin(p1: string, c1: char, p2: string, c2: char, p3: string)
    requires !IsUpper(c1) && !IsUpper(c2)
    ensures Lower(p1 + [c1] + p2 + [c2] + p3) == Lower(p1) + [c1] + Lower(p2) + [c2] + Lower(p3)
  {
    LowerAppend(p1 + [c1] + p2 + [c2], p3);
    LowerAppend(p1 + [c1] + p2, [c2]);
    LowerAppend(p1 + [c1], p2);
    LowerAppend(p1, [c1]);
  }

  /** Without `a` and `p`, only "since", "deleted" and "removed" are left to
      rule out. */
  lemma CleanWithoutAP(low: string)
    requires 'a' !in low && 'p' !in low
    requires !Contains(low, "since") && !Contains(low, "deleted") && !Contains(low, "removed")
    ensures Clean(low)
  {
    MissingChar(low, "today", 'a');
    MissingChar(low, "yesterday", 'a');
    MissingChar(low, "uptime", 'p');
    MissingChar(low, "elapsed", 'p');
    MissingChar(low, "purged", 'p');
    MissingChar(low, "redacted", 'a');
    MissingChar(low, "cleared", 'a');
    SinceInside(low);
    forall k | 0 <= k < |Banned| ensures !HasWholeWord(low, Banned[k]) {
      NotWholeWord(low, Banned[k]);
    }
  }

  /** A piece lacking the letters `cs`, among them `a`, `p` and the given letters
      of "since", "deleted" and "removed", holds none of those words. */
  lemma PieceLacks(p: string, cs: string, x: char, y: char, z: char)
    requires x in "since" && y in "deleted" && z in "removed"
    requires 'a' in cs && 'p' in cs && x in cs && y in cs && z in cs
    requires Lacks(p, cs)
    ensures 'a' !in Lower(p) && 'p' !in Lower(p)
    ensures !Contains(Lower(p), "since") && !Contains(Lower(p), "deleted")
    ensures !Contains(Lower(p), "removed")
  {
    LacksLower(p, cs);
    MissingChar(Lower(p), "since", x);
    MissingChar(Lower(p), "deleted", y);
    MissingChar(Lower(p), "removed", z);
  }

  lemma PipelineNormalizeOperational(raw: string)
    requires raw == "\"" + ("System " + "operational") + "\""
    ensures Normalize(raw) == "System " + "operational"
  {
    var t := "System " + "operational";
    NormalizeUnwrapsBare('"', t);
    TrimKeeps(t, Whitespace);
  }

  lemma PipelineValidOperational(t: string)
    requires t == "System " + "operational"
    ensures Validate(t) == Personality.Pass
  {
    PassesJoin("System ", "operational", "duc", "dduccd", "ddddd");
  }

  lemma PipelineNormalizeDeleted(raw: string)
    requires raw == "\"" + ("Deleted " + "5 files") + "\""
    ensures Normalize(raw) == "Deleted " + "5 files"
  {
    var t := "Deleted " + "5 files";
    NormalizeUnwrapsBare('"', t);
    TrimKeeps(t, Whitespace);
  }

  /** The digit is checked before the deletion claim. */
  lemma PipelineValidDeleted(t: string)
    requires t == "Deleted " + "5 files"
    ensures Validate(t) == Personality.Fail("contains digits")
  {
    LacksAppend("Deleted ", "5 files", "yunoa");
    LacksLower(t, "yunoa");
    NoBannedLacking(Lower(t), "yunoa", "yyunoa");
    TrimKeeps(t, Whitespace);
    assert IsDigit(t[8]);
    Rejected(t);
  }

  lemma PipelineNormalizeToday(raw: string)
    requires raw == "\"" + ("Today " + "everything is fine") + "\""
    ensures Normalize(raw) == "Today " + "everything is fine"
  {
    var t := "Today " + "everything is fine";
    NormalizeUnwrapsBare('"', t);
    TrimKeeps(t, Whitespace);
  }

  lemma PipelineValidToday(t: string)
    requires t == "Today " + "everything is fine"
    ensures Validate(t) == Personality.Fail(Personality.BannedReason("today"))
  {
    TrimKeeps(t, Whitespace);
    TodayFirst(t);
    Rejected(t);
  }

  lemma PipelineNormalizeMultiLine(raw: string)
    requires raw == "Multi" + "\n" + "line" + "\n" + "response"
    ensures Normalize(raw) == raw
  {
    NormalizeKeeps(raw);
  }

  lemma PipelineValidMultiLine(t: string)
    requires t == "Multi" + "\n" + "line" + "\n" + "response"
    ensures Validate(t) == Personality.Pass
  {
    ResponseClean(t);
    TrimKeeps(t, Whitespace);
    PassesWhen(t);
  }

  /** Split at the line breaks, no piece holds a letter of "uptime" or "since",
      and none holds `d`. */
  lemma ResponseClean(t: string)
    requires t == "Multi" + "\n" + "line" + "\n" + "response"
    ensures Clean(Lower(t))
  {
    LowerJoin("Multi", '\n', "line", '\n', "response");
    var l1, l2, l3 := Lower("Multi"), Lower("line"), Lower("response");
    LacksLower("Multi", "dcp");
    LacksLower("line", "dcp");
    LacksLower("response", "dcu");
    MissingChar(l1, "uptime", 'p');
    MissingChar(l2, "uptime", 'p');
    MissingChar(l3, "uptime", 'u');
    MissingChar(l1, "since", 'c');
    MissingChar(l2, "since", 'c');
    MissingChar(l3, "since", 'c');
    JoinMisses(l1, l2, l3, '\n', "uptime");
    JoinMisses(l1, l2, l3, '\n', "since");
    WordsAbsent(l1 + ['\n'] + l2 + ['\n'] + l3);
  }

  // ---------------------------------------------------------------------------
  // The two validators side by side

  /** Each validator accepts a text the other rejects. */
  lemma ValidatorsDiffer(long: string, lines: string, quiet: string)
    requires long == seq(200, _ => 'x')
    requires lines == "Multi\nline\n" + "text is " + "allowed"
    requires quiet == "quiet since dawn"
    ensures Validate(long) == Personality.Pass && Personality.ValidatePrefix(long) == Personality.Fail("too long")
    ensures Validate(lines) == Personality.Pass && Personality.ValidatePrefix(lines) == Personality.Fail("newline")
    ensures Personality.ValidatePrefix(quiet) == Personality.Pass
            && Validate(quiet) == Personality.Fail(Personality.BannedReason("since"))
  {
    ValidCaseLong(long);
    TrimKeeps(long, Whitespace);
    ValidCaseMultiLine(lines);
    TrimKeeps(lines, Whitespace);
    assert lines[5] == '\n';
    Personality.QuietPasses(quiet);
    QuietSince(quiet);
  }

  /** A text without `y` and `p` holding the whole word "since" has it as its
      first banned word. */
  lemma SinceFirst(low: string)
    requires 'y' !in low && 'p' !in low && HasWholeWord(low, "since")
    ensures FirstWholeWord(low, Banned) == Some("since")
  {
    MissingChar(low, "today", 'y');
    MissingChar(low, "yesterday", 'y');
    MissingChar(low, "uptime", 'p');
    NotWholeWord(low, "today");
    NotWholeWord(low, "yesterday");
    NotWholeWord(low, "uptime");
    BannedAt(low, 3);
  }

  /** "since" is banned here. */
  lemma QuietSince(t: string)
    requires t == "quiet since dawn"
    ensures Validate(t) == Personality.Fail(Personality.BannedReason("since"))
  {
    TrimKeeps(t, Whitespace);
    QuietSinceFirst(t);
    Personality.NoFiller(Lower(t));
    ValidateReasons(t);
  }

  /** The first banned word of "quiet since dawn" is "since". */
  lemma QuietSinceFirst(t: string)
    requires t == "quiet since dawn"
    ensures FirstWholeWord(Lower(t), Banned) == Some("since")
  {
    LowerKeeps(t);
    assert 'y' !in t && 'p' !in t;
    assert t[6..11] == "since";
    assert WholeWordAt(t, "since", 6);
    SinceFirst(t);
  }
}
