/** The pieces of Python's str behaviour the viewer relies on: str.isspace
    and str.strip, decimal formatting of a non-negative int, and int() of a
    string (used on the zoom input fields). Only ASCII digits are modelled. */
module Text {
  import opened Util

  /** str.isspace for one character: the ASCII separators and controls
      \t \n \v \f \r, the information separators U+001C..U+001F, the space,
      NEL, NBSP and the Unicode space separators and line/paragraph
      separators. */
  predicate IsSpace(c: char)
  {
    || ('\U{0009}' <= c <= '\U{000D}')
    || ('\U{001C}' <= c <= '\U{0020}')
    || c == '\U{0085}' || c == '\U{00A0}' || c == '\U{1680}'
    || ('\U{2000}' <= c <= '\U{200A}')
    || c == '\U{2028}' || c == '\U{2029}' || c == '\U{202F}' || c == '\U{205F}' || c == '\U{3000}'
  }

  predicate IsDigit(c: char)
  {
    '0' <= c <= '9'
  }

  /** s with its leading whitespace removed. */
  function StripLeading(s: string): (r: string)
    ensures |r| <= |s| && r == s[|s| - |r|..]
    ensures forall i :: 0 <= i < |s| - |r| ==> IsSpace(s[i])
    ensures |r| > 0 ==> !IsSpace(r[0])
    decreases |s|
  {
    if |s| > 0 && IsSpace(s[0]) then
      var r := StripLeading(s[1..]);
      assert forall i :: 1 <= i < |s| - |r| ==> s[i] == s[1..][i - 1];
      r
    else s
  }

  /** s with its trailing whitespace removed. */
  function StripTrailing(s: string): (r: string)
    ensures |r| <= |s| && r == s[..|r|]
    ensures forall i :: |r| <= i < |s| ==> IsSpace(s[i])
    ensures |r| > 0 ==> !IsSpace(r[|r| - 1])
    decreases |s|
  {
    if |s| > 0 && IsSpace(s[|s| - 1]) then StripTrailing(s[..|s| - 1]) else s
  }

  /** str.strip(): s without leading and trailing whitespace. */
  function Strip(s: string): (r: string)
  {
    StripTrailing(StripLeading(s))
  }

  /** Strip removes only whitespace, and only from the ends: the result is
      a slice s[i..j] with whitespace before and after it, and it neither
      starts nor ends with whitespace. It is empty exactly when s is all
      whitespace. */
  lemma {:induction false} StripSlice(s: string)
    ensures exists i, j :: (0 <= i <= j <= |s| && Strip(s) == s[i..j] &&
      (forall k :: 0 <= k < i ==> IsSpace(s[k])) && (forall k :: j <= k < |s| ==> IsSpace(s[k])))
    ensures |Strip(s)| > 0 ==> !IsSpace(Strip(s)[0]) && !IsSpace(Strip(s)[|Strip(s)| - 1])
    ensures Strip(s) == [] <==> forall k :: 0 <= k < |s| ==> IsSpace(s[k])
  {
    var l := StripLeading(s);
    var r := StripTrailing(l);
    var i := |s| - |l|;
    var j := i + |r|;
    assert l == s[i..];
    assert r == l[..|r|];
    assert r == s[i..j];
    forall k | j <= k < |s|
      ensures IsSpace(s[k])
    {
      assert s[k] == l[k - i];
    }
    assert Strip(s) == s[i..j];
    if |r| > 0 {
      assert r[0] == l[0];
    }
  }

  /** The text of Python's str(n) for n >= 0. */
  function NatToString(n: nat): (r: string)
    ensures |r| > 0 && forall i :: 0 <= i < |r| ==> IsDigit(r[i])
    decreases n
  {
    if n < 10 then [Digit(n)] else NatToString(n / 10) + [Digit(n % 10)]
  }

  function Digit(d: nat): (c: char)
    requires d < 10
    ensures IsDigit(c)
  {
    ['0', '1', '2', '3', '4', '5', '6', '7', '8', '9'][d]
  }

  /** The value of a string of decimal digits, most significant first. */
  function DigitsValue(ds: string): nat
    requires forall i :: 0 <= i < |ds| ==> IsDigit(ds[i])
  {
    if |ds| == 0 then 0
    else
      var d := ds[|ds| - 1];
      assert IsDigit(d);
      DigitsValue(ds[..|ds| - 1]) * 10 + (d as int - '0' as int)
  }

  /** Reading back a formatted number gives the number. */
  lemma {:induction false} NatToStringValue(n: nat)
    ensures DigitsValue(NatToString(n)) == n
    decreases n
  {
    if n >= 10 {
      NatToStringValue(n / 10);
      var s := NatToString(n);
      assert s[..|s| - 1] == NatToString(n / 10);
    }
  }

  /** The digits of an int() literal: ASCII digits, with single underscores
      allowed between two digits (it starts and ends with a digit and has
      no two underscores in a row). */
  predicate DigitGroups(b: string)
  {
    && |b| > 0
    && (forall i :: 0 <= i < |b| ==> IsDigit(b[i]) || b[i] == '_')
    && IsDigit(b[0]) && IsDigit(b[|b| - 1])
    && (forall i, j :: 0 <= i < |b| && 0 <= j < |b| && j == i + 1 && b[i] == '_' ==> b[j] != '_')
  }

  function RemoveUnderscores(b: string): (r: string)
    ensures (forall i :: 0 <= i < |b| ==> IsDigit(b[i]) || b[i] == '_') ==> forall i :: 0 <= i < |r| ==> IsDigit(r[i])
    ensures (forall i :: 0 <= i < |b| ==> IsDigit(b[i])) ==> r == b
  {
    if |b| == 0 then []
    else (if b[0] == '_' then [] else [b[0]]) + RemoveUnderscores(b[1..])
  }

  /** Python's int(s) on a string: surrounding whitespace is ignored, an
      optional sign may come first, and the rest must be digit groups;
      anything else raises ValueError (None). */
  function ParseInt(s: string): (r: Option<int>)
  {
    var t := Strip(s);
    if |t| == 0 then None
    else
      var body := if t[0] == '-' || t[0] == '+' then t[1..] else t;
      match ParseBody(body)
      case None => None
      case Some(v) => Some(if t[0] == '-' then -(v as int) else v as int)
  }

  /** The value of the unsigned part of an int() literal, or None when it
      is not digit groups. */
  function ParseBody(body: string): (r: Option<nat>)
    ensures r.Some? <==> DigitGroups(body)
  {
    if !DigitGroups(body) then None else Some(DigitsValue(RemoveUnderscores(body)))
  }

  /** A non-empty run of plain digits reads as its value. */
  lemma DigitsBody(d: string)
    requires |d| > 0 && forall i :: 0 <= i < |d| ==> IsDigit(d[i])
    ensures ParseBody(d) == Some(DigitsValue(d))
  {
    AllDigitsParse(d);
  }

  /** str(n) for any int. */
  function IntToString(n: int): string
  {
    if n < 0 then "-" + NatToString(-n) else NatToString(n)
  }

  /** int(str(n)) == n. */
  lemma {:induction false} IntRoundTrip(n: int)
    ensures ParseInt(IntToString(n)) == Some(n)
  {
    if n < 0 {
      NegativeRoundTrip(-n);
    } else {
      NatRoundTrip(n);
    }
  }

  lemma {:induction false} NatRoundTrip(m: nat)
    ensures ParseInt(IntToString(m)) == Some(m)
  {
    var d := NatToString(m);
    assert IntToString(m) == d;
    AllDigitsParse(d);
    StripKeeps(d);
    DigitsBody(d);
    NatToStringValue(m);
  }

  /** A non-empty run of digits is digit groups and reads as its value. */
  lemma AllDigitsParse(d: string)
    requires |d| > 0 && forall i :: 0 <= i < |d| ==> IsDigit(d[i])
    ensures DigitGroups(d) && RemoveUnderscores(d) == d
    ensures d[0] != '-' && d[0] != '+' && !IsSpace(d[0]) && !IsSpace(d[|d| - 1])
  {
    assert IsDigit(d[0]) && IsDigit(d[|d| - 1]);
    assert forall i :: 0 <= i < |d| ==> d[i] != '_';
  }

  lemma {:induction false} NegativeRoundTrip(m: nat)
    requires m > 0
    ensures ParseInt(IntToString(-(m as int))) == Some(-(m as int))
  {
    var t := IntToString(-(m as int));
    var d := NatToString(m);
    assert |t| > 1 && t[0] == '-' && t[1..] == d && t[|t| - 1] == d[|d| - 1] by {
      assert t == "-" + d;
    }
    assert Strip(t) == t by {
      AllDigitsParse(d);
      StripKeeps(t);
    }
    assert ParseBody(t[1..]) == Some(m) by {
      DigitsBody(d);
      NatToStringValue(m);
    }
    ParseNegative(t, m);
  }

  /** int() of a stripped string that is a minus sign followed by digit
      groups of value v. */
  lemma ParseNegative(t: string, v: nat)
    requires Strip(t) == t && |t| > 0 && t[0] == '-' && ParseBody(t[1..]) == Some(v)
    ensures ParseInt(t) == Some(-(v as int))
  {
  }

  /** A string that neither starts nor ends with whitespace is unchanged by
      Strip. */
  lemma StripKeeps(s: string)
    requires |s| > 0 && !IsSpace(s[0]) && !IsSpace(s[|s| - 1])
    ensures Strip(s) == s
  {
  }

  /** An empty or all-whitespace string, or one holding any character that
      is not a digit, an underscore, a sign or whitespace, is not a number. */
  lemma {:induction false} ParseIntRejects(s: string, k: nat)
    requires k < |s|
    requires !IsDigit(s[k]) && s[k] != '_' && s[k] != '+' && s[k] != '-' && !IsSpace(s[k])
    ensures ParseInt(s) == None
  {
    StripSlice(s);
    var t := Strip(s);
    var i, j :| 0 <= i <= j <= |s| && t == s[i..j] &&
      (forall m :: 0 <= m < i ==> IsSpace(s[m])) && (forall m :: j <= m < |s| ==> IsSpace(s[m]));
    assert i <= k < j;
    assert t[k - i] == s[k];
    if |t| > 0 {
      var body := if t[0] == '-' || t[0] == '+' then t[1..] else t;
      if t[0] == '-' || t[0] == '+' {
        assert k - i > 0;
        assert body[k - i - 1] == s[k];
      } else {
        assert body[k - i] == s[k];
      }
    }
  }

  /** int("") and int() of whitespace raise. */
  lemma ParseIntBlank(s: string)
    requires forall k :: 0 <= k < |s| ==> IsSpace(s[k])
    ensures ParseInt(s) == None
  {
    StripSlice(s);
  }
}
