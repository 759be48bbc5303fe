/** Integers written as text, both ways: Python's `int(s)` on a string, and the
    decimal text of an integer (`str(n)`, and SQLite's conversion of an INTEGER
    to TEXT). Only the ASCII digits are digits here. */
module Numerals {
  import opened Wrappers
  import opened Text

  /** SQLite stores integers in 64 bits; Python's `sqlite3` refuses to bind any
      other `int`. */
  const Int64Min: int := -0x8000_0000_0000_0000
  const Int64Max: int := 0x7fff_ffff_ffff_ffff

  predicate InInt64(i: int)
  {
    Int64Min <= i <= Int64Max
  }

  function DigitValue(c: char): (d: nat)
    requires IsDigit(c)
    ensures d < 10
  {
    c as int - '0' as int
  }

  function DigitChar(d: nat): (c: char)
    requires d < 10
    ensures IsDigit(c) && DigitValue(c) == d
  {
    ('0' as int + d) as char
  }

  /** A run of digits in which single underscores may separate two digits, the
      body of an integer literal that `int()` accepts. */
  predicate DigitGroups(d: string)
  {
    |d| >= 1 && IsDigit(d[0]) && IsDigit(d[|d| - 1])
    && forall i :: 0 <= i < |d| ==> GroupChar(d, i)
  }

  /** Character `i` of `d` is a digit, or an underscore with a digit after it. */
  predicate GroupChar(d: string, i: int)
    requires 0 <= i < |d|
  {
    IsDigit(d[i]) || (d[i] == '_' && i + 1 < |d| && IsDigit(d[i + 1]))
  }

  /** The number the digits of `d` spell, underscores skipped. */
  function GroupsValue(d: string): nat
    decreases |d|
  {
    if d == [] then 0
    else
      var c := d[|d| - 1];
      if IsDigit(c) then GroupsValue(d[..|d| - 1]) * 10 + DigitValue(c)
      else GroupsValue(d[..|d| - 1])
  }

  /** What `int()` accepts once the surrounding whitespace is stripped: an
      optional sign and digit groups. */
  predicate Numeral(t: string)
  {
    |t| >= 1 && (if t[0] == '-' || t[0] == '+' then DigitGroups(t[1..]) else DigitGroups(t))
  }

  /** The value of a stripped literal; `None` when it is not one. */
  function NumeralValue(t: string): (r: Option<int>)
    ensures r.Some? <==> Numeral(t)
    ensures r.Some? && t[0] == '-' ==> r.value <= 0
    ensures r.Some? && t[0] != '-' ==> r.value >= 0
  {
    if !Numeral(t) then None
    else if t[0] == '-' then var v: int := GroupsValue(t[1..]); Some(-v)
    else if t[0] == '+' then Some(GroupsValue(t[1..]))
    else Some(GroupsValue(t))
  }

  /** `int(s)` for a string `s`; `None` where Python raises `ValueError`. */
  function ParseInt(s: string): (r: Option<int>)
    ensures r.Some? <==> Numeral(Strip(s))
    ensures r.Some? && Strip(s)[0] == '-' ==> r.value <= 0
    ensures r.Some? && Strip(s)[0] != '-' ==> r.value >= 0
  {
    NumeralValue(Strip(s))
  }

  /** The decimal digits of `n`, without leading zeros. */
  function NatText(n: nat): (r: string)
    ensures |r| >= 1 && forall i :: 0 <= i < |r| ==> IsDigit(r[i])
    ensures |r| > 1 ==> r[0] != '0'
    decreases n
  {
    if n < 10 then [DigitChar(n)] else NatText(n / 10) + [DigitChar(n % 10)]
  }

  /** `str(i)`: a minus sign for a negative number, then its digits. */
  function IntText(i: int): (r: string)
    ensures |r| >= 1 && (r[0] == '-' || IsDigit(r[0]))
    ensures r[0] == '-' <==> i < 0
  {
    if i < 0 then "-" + NatText(-i) else NatText(i)
  }

  /** The digits of a number spell that number. */
  lemma {:induction false} GroupsValueOfNatText(n: nat)
    ensures DigitGroups(NatText(n)) && GroupsValue(NatText(n)) == n
    decreases n
  {
    var r := NatText(n);
    if n >= 10 {
      GroupsValueOfNatText(n / 10);
      assert r[..|r| - 1] == NatText(n / 10);
    }
  }

  /** Digit groups, with or without a minus sign in front, are read as the
      number they spell. */
  lemma NumeralValueOfGroups(d: string)
    requires DigitGroups(d)
    ensures NumeralValue(d) == Some(GroupsValue(d))
    ensures NumeralValue("-" + d) == Some(-(GroupsValue(d) as int))
  {
    assert ("-" + d)[1..] == d;
  }

  /** A text without whitespace at its ends is read as it stands. */
  lemma ParseIntUnpadded(s: string)
    requires EndsOutside(s, Whitespace)
    ensures ParseInt(s) == NumeralValue(s)
  {
    TrimKeeps(s, Whitespace);
  }

  /** Digit groups, with or without a minus sign, are read as the number they
      spell or its negation. */
  lemma ParseSigned(d: string)
    requires DigitGroups(d)
    ensures ParseInt(d) == Some(GroupsValue(d))
    ensures ParseInt("-" + d) == Some(-(GroupsValue(d) as int))
  {
    NumeralValueOfGroups(d);
    assert EndsOutside(d, Whitespace) by {
      assert !IsSpace(d[0]) && !IsSpace(d[|d| - 1]);
    }
    ParseIntUnpadded(d);
    var m := "-" + d;
    assert EndsOutside(m, Whitespace) by {
      assert m[|m| - 1] == d[|d| - 1];
    }
    ParseIntUnpadded(m);
  }

  /** `int(str(i)) == i`. */
  lemma ParseIntText(i: int)
    ensures ParseInt(IntText(i)) == Some(i)
  {
    if i < 0 {
      var d := NatText(-i);
      GroupsValueOfNatText(-i);
      ParseSigned(d);
      assert IntText(i) == "-" + d;
      assert ParseInt("-" + d) == Some(-(GroupsValue(d) as int));
      assert -(GroupsValue(d) as int) == i;
    } else {
      var d := NatText(i);
      GroupsValueOfNatText(i);
      ParseSigned(d);
      assert IntText(i) == d;
    }
  }

  /** `int()` ignores the whitespace around the literal. */
  lemma ParseIntPadded(pre: string, s: string, post: string)
    requires forall k :: 0 <= k < |pre| ==> IsSpace(pre[k])
    requires forall k :: 0 <= k < |post| ==> IsSpace(post[k])
    ensures ParseInt(pre + s + post) == ParseInt(s)
  {
    TrimPadded(pre, s, post, Whitespace);
  }

  /** Whitespace around the digits is ignored: ` 42 ` reads as 42. */
  lemma ParsePaddedExample()
    ensures ParseInt(" " + "42" + " ") == Some(42)
  {
    ParseIntText(42);
    assert IntText(42) == "42" by {
      assert NatText(4) == "4";
    }
    ParseIntPadded(" ", "42", " ");
  }

  /** A minus sign negates. */
  lemma ParseNegativeExample()
    ensures ParseInt("-7") == Some(-7)
  {
    ParseIntText(-7);
    assert IntText(-7) == "-7";
  }

  /** `1_0` is a literal that spells ten. */
  lemma UnderscoreGroups()
    ensures DigitGroups("1_0") && GroupsValue("1_0") == 10
  {
    var u := "1_0";
    assert GroupChar(u, 1);
    assert u[..1][..0] == [];
    assert GroupsValue(u[..1]) == 1;
    assert u[..2][..1] == u[..1];
    assert GroupsValue(u[..2]) == 1;
  }

  /** Underscores between digits are skipped. */
  lemma ParseUnderscoreExample()
    ensures ParseInt("1_0") == Some(10)
  {
    UnderscoreGroups();
    ParseSigned("1_0");
  }

  /** Text that `int()` refuses: an empty string, letters, a sign alone, a
      decimal point, and misplaced underscores. */
  lemma ParseIntRefuses()
    ensures ParseInt("") == None
    ensures ParseInt("12a") == None
    ensures ParseInt("+") == None
    ensures ParseInt("1.5") == None
    ensures ParseInt("1__0") == None
    ensures ParseInt("_1") == None
  {
    TrimKeeps("12a", Whitespace);
    assert !IsDigit("12a"[2]);
    TrimKeeps("+", Whitespace);
    assert "+"[1..] == [];
    TrimKeeps("1.5", Whitespace);
    assert !GroupChar("1.5", 1);
    TrimKeeps("1__0", Whitespace);
    assert !GroupChar("1__0", 1);
    TrimKeeps("_1", Whitespace);
  }

  /** The text SQLite gives a REAL when a TEXT column stores it: the sign, the
      digits of the integer part, and `.0`. For an integral value below 10^15 this
      is the `%!.15g` text SQLite writes; for other values the digits after the
      point and the exponent form are not modelled. */
  function FloatText(x: real): (r: string)
    ensures |r| >= 1 && (r[0] == '-' || IsDigit(r[0]))
  {
    if x < 0.0 then "-" + NatText((-x).Floor) + ".0" else NatText(x.Floor) + ".0"
  }
}
