/** The searches the prefix checks make: substrings, whole words (`\b...\b`),
    digits, and the first banned word of a list. */
module Words {
  import opened Wrappers
  import opened Text

  /** A substring of a substring of `s` is a substring of `s`. */
  lemma ContainsTransitive(s: string, t: string, u: string)
    requires Contains(s, t) && Contains(t, u)
    ensures Contains(s, u)
  {
    var i :| 0 <= i <= |s| - |t| && OccursAt(s, t, i);
    var j :| 0 <= j <= |t| - |u| && OccursAt(t, u, j);
    forall k | 0 <= k < |u| ensures s[i + j + k] == u[k] {
      assert s[i..i + |t|][j + k] == t[j + k];
      assert t[j..j + |u|][k] == u[k];
    }
    assert s[i + j..i + j + |u|] == u;
    assert OccursAt(s, u, i + j);
  }

  /** What a strip leaves is a substring of what it was given. */
  lemma TrimContained(s: string, cls: CharClass)
    ensures Contains(s, Trim(s, cls))
  {
    var r := Trim(s, cls);
    TrimShape(s, cls);
    var i :| TrimmedAt(s, cls, i, r);
    assert OccursAt(s, r, i);
  }

  /** `any(s.startswith(w) for w in ws)`. */
  predicate StartsWithAny(s: string, ws: seq<string>)
  {
    exists w :: w in ws && StartsWith(s, w)
  }

  /** `any(w in s for w in ws)`. */
  predicate ContainsAny(s: string, ws: seq<string>)
  {
    exists w :: w in ws && Contains(s, w)
  }

  /** The regular expression search `\d`. */
  predicate HasDigit(s: string)
  {
    exists i :: 0 <= i < |s| && IsDigit(s[i])
  }

  /** Two pieces without digits join into a text without digits. */
  lemma DigitsAppend(a: string, b: string)
    requires !HasDigit(a) && !HasDigit(b)
    ensures !HasDigit(a + b)
  {
    forall i | 0 <= i < |a + b| ensures !IsDigit((a + b)[i]) {
      if i < |a| {
        assert (a + b)[i] == a[i];
      } else {
        assert (a + b)[i] == b[i - |a|];
      }
    }
  }

  /** A whole-word match of `w` at `i`: the regular expression `\bw\b` for a `w`
      that starts and ends with a word character. */
  predicate WholeWordAt(s: string, w: string, i: int)
    requires 0 <= i <= |s| - |w|
  {
    OccursAt(s, w, i)
    && (i == 0 || !IsWordChar(s[i - 1]))
    && (i + |w| == |s| || !IsWordChar(s[i + |w|]))
  }

  /** The regular expression search `\bw\b`. */
  predicate HasWholeWord(s: string, w: string)
  {
    exists i :: 0 <= i <= |s| - |w| && WholeWordAt(s, w, i)
  }

  /** A whole word is in particular a substring. */
  lemma WholeWordContained(s: string, w: string)
    requires HasWholeWord(s, w)
    ensures Contains(s, w)
  {
    var i :| 0 <= i <= |s| - |w| && WholeWordAt(s, w, i);
    assert OccursAt(s, w, i);
  }

  /** The first word of `ws`, in list order, that occurs in `s` as a whole word:
      the loop `for b in banned: if re.search(rf"\b{b}\b", s): ...`. */
  function FirstWholeWord(s: string, ws: seq<string>): (r: Option<string>)
    ensures r.None? <==> forall k :: 0 <= k < |ws| ==> !HasWholeWord(s, ws[k])
    ensures r.Some? ==> exists k :: 0 <= k < |ws| && ws[k] == r.value && HasWholeWord(s, ws[k])
                                    && forall m :: 0 <= m < k ==> !HasWholeWord(s, ws[m])
  {
    if ws == [] then None
    else if HasWholeWord(s, ws[0]) then Some(ws[0])
    else
      var r := FirstWholeWord(s, ws[1..]);
      assert r.Some? ==> exists k :: 0 <= k < |ws[1..]| && ws[1..][k] == r.value && HasWholeWord(s, ws[1..][k])
                                     && forall m :: 0 <= m < k ==> !HasWholeWord(s, ws[1..][m]);
      r
  }


  /** `sub[k..]` matches `s` from index `i + k` on, compared one character at a
      time. */
  predicate MatchesFrom(s: string, sub: string, i: nat, k: nat)
    requires i + |sub| <= |s| && k <= |sub|
    decreases |sub| - k
  {
    k == |sub| || (s[i + k] == sub[k] && MatchesFrom(s, sub, i, k + 1))
  }

  /** The naive search for `sub` in `s` from index `i` on. */
  predicate SearchFrom(s: string, sub: string, i: nat)
    decreases |s| - i
  {
    i + |sub| <= |s| && (MatchesFrom(s, sub, i, 0) || SearchFrom(s, sub, i + 1))
  }

  lemma {:induction false} MatchesFromOccurs(s: string, sub: string, i: nat, k: nat)
    requires i + |sub| <= |s| && k <= |sub| && OccursAt(s, sub, i)
    ensures MatchesFrom(s, sub, i, k)
    decreases |sub| - k
  {
    if k < |sub| {
      assert s[i..i + |sub|][k] == sub[k];
      MatchesFromOccurs(s, sub, i, k + 1);
    }
  }

  /** The search finds every occurrence at or after where it starts. */
  lemma {:induction false} SearchFromFinds(s: string, sub: string, i: nat, j: nat)
    requires i <= j <= |s| - |sub| && OccursAt(s, sub, j)
    ensures SearchFrom(s, sub, i)
    decreases j - i
  {
    if i == j {
      MatchesFromOccurs(s, sub, j, 0);
    } else {
      SearchFromFinds(s, sub, i + 1, j);
    }
  }

  /** A search that finds nothing from the start shows `sub` is not in `s`. */
  lemma SearchMisses(s: string, sub: string)
    requires !SearchFrom(s, sub, 0)
    ensures !Contains(s, sub)
  {
    if Contains(s, sub) {
      var j :| 0 <= j <= |s| - |sub| && OccursAt(s, sub, j);
      SearchFromFinds(s, sub, 0, j);
    }
  }

  /** A word without the character `c` that occurs in `a + [c] + b` occurs in `a`
      or in `b`. */
  lemma ContainsAcross(a: string, c: char, b: string, w: string)
    requires c !in w && !Contains(a, w) && !Contains(b, w)
    ensures !Contains(a + [c] + b, w)
  {
    var s := a + [c] + b;
    forall i | 0 <= i <= |s| - |w| ensures !OccursAt(s, w, i) {
      if i + |w| <= |a| {
        assert s[i..i + |w|] == a[i..i + |w|];
        assert !OccursAt(a, w, i);
      } else if i > |a| {
        assert s[i..i + |w|] == b[i - |a| - 1..i - |a| - 1 + |w|];
        assert !OccursAt(b, w, i - |a| - 1);
      } else {
        assert s[i..i + |w|][|a| - i] == c;
      }
    }
  }

  /** A word that is not a substring is not a whole word either. */
  lemma NotWholeWord(s: string, w: string)
    requires !Contains(s, w)
    ensures !HasWholeWord(s, w)
  {
    if HasWholeWord(s, w) {
      WholeWordContained(s, w);
    }
  }

  /** Every character of a substring is a character of the string. */
  lemma ContainedChar(s: string, sub: string, c: char)
    requires Contains(s, sub) && c in sub
    ensures c in s
  {
    var i :| 0 <= i <= |s| - |sub| && OccursAt(s, sub, i);
    var k :| 0 <= k < |sub| && sub[k] == c;
    assert s[i..i + |sub|][k] == s[i + k];
  }

  /** A character the text lacks is not in what a strip leaves of it. */
  lemma TrimLacks(s: string, cls: CharClass, c: char)
    requires c !in s
    ensures c !in Trim(s, cls)
  {
    TrimContained(s, cls);
    if c in Trim(s, cls) {
      ContainedChar(s, Trim(s, cls), c);
    }
  }
}
