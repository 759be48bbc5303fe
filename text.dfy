/** Character and string helpers standing in for the Python `str` methods and the
    small regular expressions that the prefix checks use.

    Character classes follow Python where Python is plain about them (`str.isspace`,
    which `str.strip()` uses); lower-casing, `\d` and `\w` are the ASCII subsets. */
module Text {
  import opened Wrappers

  /** Python's `str.isspace()`: the characters that `str.strip()` removes by default. */
  predicate IsSpace(c: char)
  {
    ('\t' <= c <= '\r') || ('\U{1c}' <= c <= '\U{1f}') || c == ' ' || c == '\U{85}'
    || c == '\U{a0}' || c == '\U{1680}' || ('\U{2000}' <= c <= '\U{200a}')
    || c == '\U{2028}' || c == '\U{2029}' || c == '\U{202f}' || c == '\U{205f}'
    || c == '\U{3000}'
  }

  /** The ASCII digits, standing in for the regular expression `\d`. */
  predicate IsDigit(c: char)
  {
    '0' <= c <= '9'
  }

  /** The class `[A-Z]` of a regular expression. */
  predicate IsUpper(c: char)
  {
    'A' <= c <= 'Z'
  }

  /** The ASCII word characters, standing in for `\w` (and so for `\b`). */
  predicate IsWordChar(c: char)
  {
    'a' <= c <= 'z' || 'A' <= c <= 'Z' || IsDigit(c) || c == '_'
  }

  /** `str.lower()` on one character, ASCII letters only. */
  function LowerChar(c: char): (r: char)
    ensures IsUpper(c) ==> r as int == c as int + 32
    ensures !IsUpper(c) ==> r == c
  {
    if IsUpper(c) then (c as int + 32) as char else c
  }

  /** `str.lower()`, ASCII letters only. */
  function Lower(s: string): (r: string)
    ensures |r| == |s|
    ensures forall i :: 0 <= i < |s| ==> r[i] == LowerChar(s[i])
  {
    seq(|s|, i requires 0 <= i < |s| => LowerChar(s[i]))
  }

  /** Lower-casing works piece by piece. */
  lemma LowerAppend(a: string, b: string)
    ensures Lower(a + b) == Lower(a) + Lower(b)
  {
  }

  /** Lower-casing leaves a text without upper-case letters as it is. */
  lemma LowerKeeps(s: string)
    requires forall i :: 0 <= i < |s| ==> !IsUpper(s[i])
    ensures Lower(s) == s
  {
  }

  /** A lower-case letter is missing from the lower-cased text when neither it nor
      its upper-case form is in the text. */
  lemma LowerLacks(s: string, c: char)
    requires 'a' <= c <= 'z' && c !in s && (c as int - 32) as char !in s
    ensures c !in Lower(s)
  {
    var low := Lower(s);
    forall i | 0 <= i < |low| ensures low[i] != c {
      assert s[i] != c && s[i] != (c as int - 32) as char;
    }
  }

  /** No character of `s`, lower-cased, is one of `cs`. */
  predicate Lacks(s: string, cs: string)
  {
    forall i :: 0 <= i < |s| ==> LowerChar(s[i]) !in cs
  }

  /** The lower-cased text holds none of the characters `cs`. */
  lemma LacksLower(s: string, cs: string)
    requires Lacks(s, cs)
    ensures forall k :: 0 <= k < |cs| ==> cs[k] !in Lower(s)
  {
  }

  /** Lacking characters composes over concatenation. */
  lemma LacksAppend(a: string, b: string, cs: string)
    requires Lacks(a, cs) && Lacks(b, cs)
    ensures Lacks(a + b, cs)
  {
    forall i | 0 <= i < |a + b| ensures LowerChar((a + b)[i]) !in cs {
      if i < |a| {
        assert (a + b)[i] == a[i];
      } else {
        assert (a + b)[i] == b[i - |a|];
      }
    }
  }

  /** A character that lower-casing leaves alone is missing from a text when it
      is missing from the text lower-cased. */
  lemma LowerShows(s: string, c: char)
    requires !IsUpper(c) && !('a' <= c <= 'z') && c !in Lower(s)
    ensures c !in s
  {
  }

  /** The set of characters a strip removes: whitespace (`strip()`) or one given
      character (`strip('"')`). */
  datatype CharClass = Whitespace | Only(c: char)

  predicate InClass(cls: CharClass, c: char)
  {
    match cls
    case Whitespace => IsSpace(c)
    case Only(d) => c == d
  }

  /** The number of leading characters of `s` in `cls`. */
  function LeadLength(s: string, cls: CharClass): (n: nat)
    ensures n <= |s|
    ensures forall k :: 0 <= k < n ==> InClass(cls, s[k])
    ensures n < |s| ==> !InClass(cls, s[n])
  {
    if s == [] || !InClass(cls, s[0]) then 0 else 1 + LeadLength(s[1..], cls)
  }

  /** The number of trailing characters of `s` in `cls`. */
  function TrailLength(s: string, cls: CharClass): (n: nat)
    ensures n <= |s|
    ensures forall k :: |s| - n <= k < |s| ==> InClass(cls, s[k])
    ensures n < |s| ==> !InClass(cls, s[|s| - 1 - n])
  {
    if s == [] || !InClass(cls, s[|s| - 1]) then 0
    else 1 + TrailLength(s[..|s| - 1], cls)
  }

  /** `r` is the infix of `s` that starts at `i`, and every character of `s` outside
      it belongs to `cls`. */
  ghost predicate TrimmedAt(s: string, cls: CharClass, i: int, r: string)
  {
    0 <= i <= |s| - |r| && s[i..i + |r|] == r
    && (forall k :: 0 <= k < i ==> InClass(cls, s[k]))
    && (forall k :: i + |r| <= k < |s| ==> InClass(cls, s[k]))
  }

  /** Neither end of `s` is in `cls`. */
  predicate EndsOutside(s: string, cls: CharClass)
  {
    s == [] || (!InClass(cls, s[0]) && !InClass(cls, s[|s| - 1]))
  }

  /** `str.strip(chars)`: removes every leading and trailing character in `cls`. */
  function Trim(s: string, cls: CharClass): (r: string)
    ensures |r| <= |s|
    ensures EndsOutside(r, cls)
  {
    var a := LeadLength(s, cls);
    var rest := s[a..];
    var b := TrailLength(rest, cls);
    var r := rest[..|rest| - b];
    assert r != [] ==> r[0] == s[a] && r[|r| - 1] == rest[|rest| - 1 - b];
    r
  }

  /** The trimmed text is an infix with only `cls` characters around it. */
  lemma TrimShape(s: string, cls: CharClass)
    ensures exists i :: TrimmedAt(s, cls, i, Trim(s, cls))
  {
    var a := LeadLength(s, cls);
    var rest := s[a..];
    var b := TrailLength(rest, cls);
    var r := rest[..|rest| - b];
    assert Trim(s, cls) == r;
    assert s[a..a + |r|] == r;
    forall k | a + |r| <= k < |s| ensures InClass(cls, s[k]) {
      assert s[k] == rest[k - a];
    }
    assert TrimmedAt(s, cls, a, r);
  }

  /** `str.strip()`. */
  function Strip(s: string): (r: string)
    ensures |r| <= |s|
    ensures EndsOutside(r, Whitespace)
  {
    Trim(s, Whitespace)
  }

  /** The stripped form is unique: any infix with only `cls` characters around it
      and both ends outside `cls` is what `Trim` returns. With `TrimShape`, the
      trimmed text is the one such infix. */
  lemma {:induction false} TrimUnique(s: string, cls: CharClass, i: int, r: string)
    requires TrimmedAt(s, cls, i, r) && EndsOutside(r, cls)
    ensures Trim(s, cls) == r
  {
    var a := LeadLength(s, cls);
    var rest := s[a..];
    var b := TrailLength(rest, cls);
    if r == [] {
      assert forall k :: 0 <= k < |s| ==> InClass(cls, s[k]);
      assert a == |s|;
    } else {
      assert s[i] == r[0];
      assert a == i;
      assert rest[..|r|] == r;
      assert rest[|r| - 1] == r[|r| - 1];
      assert b == |rest| - |r|;
    }
  }

  /** Trimming twice is trimming once. */
  lemma TrimIdempotent(s: string, cls: CharClass)
    ensures Trim(Trim(s, cls), cls) == Trim(s, cls)
  {
    var r := Trim(s, cls);
    assert r[0..|r|] == r;
    assert TrimmedAt(r, cls, 0, r);
    TrimUnique(r, cls, 0, r);
  }

  /** A text whose ends are outside `cls` is its own trimmed form. */
  lemma TrimKeeps(s: string, cls: CharClass)
    requires EndsOutside(s, cls)
    ensures Trim(s, cls) == s
  {
    assert s[0..|s|] == s;
    assert TrimmedAt(s, cls, 0, s);
    TrimUnique(s, cls, 0, s);
  }

  /** Characters of `cls` added on either side never change the trimmed result. */
  lemma TrimPadded(pre: string, s: string, post: string, cls: CharClass)
    requires forall k :: 0 <= k < |pre| ==> InClass(cls, pre[k])
    requires forall k :: 0 <= k < |post| ==> InClass(cls, post[k])
    ensures Trim(pre + s + post, cls) == Trim(s, cls)
  {
    TrimTrailing(pre + s, post, cls);
    TrimLeading(pre, s, cls);
  }

  /** Characters of the class before `s` do not change its trim. */
  lemma TrimLeading(pre: string, s: string, cls: CharClass)
    requires forall k :: 0 <= k < |pre| ==> InClass(cls, pre[k])
    ensures Trim(pre + s, cls) == Trim(s, cls)
  {
    var r := Trim(s, cls);
    TrimShape(s, cls);
    var i :| TrimmedAt(s, cls, i, r);
    var t := pre + s;
    assert t[|pre| + i..|pre| + i + |r|] == s[i..i + |r|];
    forall k | 0 <= k < |pre| + i ensures InClass(cls, t[k]) {
      if k >= |pre| { assert t[k] == s[k - |pre|]; }
    }
    forall k | |pre| + i + |r| <= k < |t| ensures InClass(cls, t[k]) {
      assert t[k] == s[k - |pre|];
    }
    assert TrimmedAt(t, cls, |pre| + i, r);
    TrimUnique(t, cls, |pre| + i, r);
  }

  /** Characters of the class after `s` do not change its trim. */
  lemma TrimTrailing(s: string, post: string, cls: CharClass)
    requires forall k :: 0 <= k < |post| ==> InClass(cls, post[k])
    ensures Trim(s + post, cls) == Trim(s, cls)
  {
    var r := Trim(s, cls);
    TrimShape(s, cls);
    var i :| TrimmedAt(s, cls, i, r);
    var t := s + post;
    assert t[i..i + |r|] == s[i..i + |r|];
    forall k | 0 <= k < i ensures InClass(cls, t[k]) {
      assert t[k] == s[k];
    }
    forall k | i + |r| <= k < |t| ensures InClass(cls, t[k]) {
      if k < |s| { assert t[k] == s[k]; } else { assert t[k] == post[k - |s|]; }
    }
    assert TrimmedAt(t, cls, i, r);
    TrimUnique(t, cls, i, r);
  }

  /** `s.startswith(p)`. */
  predicate StartsWith(s: string, p: string)
  {
    |p| <= |s| && s[..|p|] == p
  }

  /** `s.endswith(p)`. */
  predicate EndsWith(s: string, p: string)
  {
    |p| <= |s| && s[|s| - |p|..] == p
  }

  /** `sub` occurs in `s` at index `i`. */
  predicate OccursAt(s: string, sub: string, i: int)
    requires 0 <= i <= |s| - |sub|
  {
    s[i..i + |sub|] == sub
  }

  /** Python's `sub in s`. The empty string occurs in every string. */
  predicate Contains(s: string, sub: string)
  {
    exists i :: 0 <= i <= |s| - |sub| && OccursAt(s, sub, i)
  }

  /** A string that holds a character `s` lacks does not occur in `s`. */
  lemma MissingChar(s: string, sub: string, c: char)
    requires c in sub && c !in s
    ensures !Contains(s, sub)
  {
  }

  /** `s.split("\n", 1)[0]`: everything before the first newline. */
  function FirstLine(s: string): (r: string)
    ensures StartsWith(s, r)
    ensures '\n' !in r
    ensures |r| < |s| ==> s[|r|] == '\n'
  {
    if s == [] || s[0] == '\n' then [] else [s[0]] + FirstLine(s[1..])
  }
}
