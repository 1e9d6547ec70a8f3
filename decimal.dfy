/**
 * Decimal numerals: Python's `str()` of a non-negative int, the `{n:02}`
 * zero padding of an f-string, and Python's `int()` applied to a string.
 */
module Decimal {
  import opened Wrappers

  predicate IsDigit(c: char) { '0' <= c <= '9' }

  predicate AllDigits(s: string) { forall i :: 0 <= i < |s| ==> IsDigit(s[i]) }

  function Pow10(k: nat): (p: nat)
    ensures p >= 1
  {
    if k == 0 then 1 else 10 * Pow10(k - 1)
  }

  function DigitChar(d: nat): (c: char)
    requires d < 10
    ensures IsDigit(c) && c as int - '0' as int == d
  {
    ('0' as int + d) as char
  }

  function DigitValue(c: char): (d: nat)
    requires IsDigit(c)
    ensures d < 10 && DigitChar(d) == c
  {
    c as int - '0' as int
  }

  /** `str(n)` for n >= 0: the shortest decimal numeral, without a leading zero. */
  function Digits(n: nat): (r: string)
    ensures |r| >= 1 && AllDigits(r)
    ensures r[0] == '0' ==> n == 0
    decreases n
  {
    if n < 10 then [DigitChar(n)] else Digits(n / 10) + [DigitChar(n % 10)]
  }

  /** The number a string of decimal digits denotes (leading zeros allowed). */
  function Value(s: string): (v: nat)
    requires AllDigits(s)
    ensures v < Pow10(|s|)
  {
    if |s| == 0 then 0
    else
      var v0 := Value(s[..|s| - 1]);
      var d := DigitValue(s[|s| - 1]);
      assert v0 * 10 + d < Pow10(|s| - 1) * 10 by {
        assert v0 + 1 <= Pow10(|s| - 1);
      }
      v0 * 10 + d
  }

  lemma {:induction false} ValueOfSnoc(s: string, c: char)
    requires AllDigits(s) && IsDigit(c)
    ensures AllDigits(s + [c]) && Value(s + [c]) == Value(s) * 10 + DigitValue(c)
  {
    assert (s + [c])[..|s|] == s;
  }

  /** Reading back the numeral `str(n)` gives n. */
  lemma {:induction false} ValueOfDigits(n: nat)
    ensures Value(Digits(n)) == n
    decreases n
  {
    if n >= 10 {
      ValueOfDigits(n / 10);
      ValueOfSnoc(Digits(n / 10), DigitChar(n % 10));
    }
  }

  /** `str(n)` has at most k digits exactly when n < 10^k. */
  lemma {:induction false} DigitsLength(n: nat, k: nat)
    requires k >= 1
    ensures |Digits(n)| <= k <==> n < Pow10(k)
    decreases n
  {
    if n >= 10 {
      if k == 1 {
        assert |Digits(n)| == |Digits(n / 10)| + 1;
      } else {
        DigitsLength(n / 10, k - 1);
        assert n / 10 < Pow10(k - 1) <==> n < 10 * Pow10(k - 1);
      }
    } else {
      assert Pow10(k) == 10 * Pow10(k - 1);
    }
  }

  /** The f-string field `{n:02}`: at least two digits, zero padded on the left, never truncated. */
  function Pad2(n: nat): (r: string)
    ensures AllDigits(r) && Value(r) == n
    ensures |r| >= 2 && (n < 100 ==> |r| == 2)
    ensures n >= 10 ==> r == Digits(n)
  {
    ValueOfDigits(n);
    if n < 10 then
      ValueOfSnoc("0", DigitChar(n));
      assert "0" + [DigitChar(n)] == ['0'] + Digits(n);
      ['0'] + Digits(n)
    else
      DigitsLength(n, 1);
      if n < 100 then DigitsLength(n, 2); Digits(n) else Digits(n)
  }

  // ---- Python int() on a string -------------------------------------------

  /**
   * The characters `int()` strips from both ends of its argument: the ASCII
   * whitespace tab, line feed, vertical tab, form feed, carriage return and
   * space, and the non-ASCII whitespace NEL, no-break space and the Unicode
   * space separators. The ASCII information separators U+001C..U+001F, which
   * `str.isspace` also accepts, are not stripped: `int()` rejects them.
   */
  predicate IsSpace(c: char) {
    || c == ' ' || '\t' <= c <= '\r'
    || c == '\U{85}' || c == '\U{A0}' || c == '\U{1680}' || '\U{2000}' <= c <= '\U{200A}'
    || c == '\U{2028}' || c == '\U{2029}' || c == '\U{202F}' || c == '\U{205F}' || c == '\U{3000}'
  }

  function TrimLeft(s: string): (r: string)
    ensures |r| > 0 ==> !IsSpace(r[0])
  {
    if |s| > 0 && IsSpace(s[0]) then TrimLeft(s[1..]) else s
  }

  function TrimRight(s: string): (r: string)
    ensures |r| > 0 ==> !IsSpace(r[|r| - 1])
  {
    if |s| > 0 && IsSpace(s[|s| - 1]) then TrimRight(s[..|s| - 1]) else s
  }

  /** The stripping `int()` applies to its argument before reading it. */
  function Strip(s: string): string { TrimRight(TrimLeft(s)) }

  /**
   * The digit part of a base-10 literal, `digit ('_'? digit)*`: digits, with
   * single underscores allowed between two digits (`1_000`).
   */
  predicate IsDigitGroup(g: string) {
    |g| > 0 && IsDigit(g[0]) && IsGroupTail(g[1..])
  }

  /** What may follow a digit inside a digit group. */
  predicate IsGroupTail(t: string)
    decreases |t|
  {
    || |t| == 0
    || (IsDigit(t[0]) && IsGroupTail(t[1..]))
    || (|t| >= 2 && t[0] == '_' && IsDigit(t[1]) && IsGroupTail(t[2..]))
  }

  /** The digits of a literal with its underscores removed. */
  function DropUnderscores(g: string): (r: string)
    ensures |r| <= |g|
  {
    if |g| == 0 then ""
    else if g[0] == '_' then DropUnderscores(g[1..])
    else [g[0]] + DropUnderscores(g[1..])
  }

  lemma {:induction false} GroupTailDigits(t: string)
    requires IsGroupTail(t)
    ensures AllDigits(DropUnderscores(t))
    decreases |t|
  {
    if |t| > 0 {
      if IsDigit(t[0]) && IsGroupTail(t[1..]) {
        GroupTailDigits(t[1..]);
      } else {
        GroupTailDigits(t[2..]);
        assert t[1..][1..] == t[2..];
      }
    }
  }

  lemma {:induction false} DigitsAreGroupTail(d: string)
    requires AllDigits(d)
    ensures IsGroupTail(d) && DropUnderscores(d) == d
  {
    if |d| > 0 {
      DigitsAreGroupTail(d[1..]);
      assert [d[0]] + d[1..] == d;
    }
  }

  /** The value of a digit group, or None when it is not one. */
  function GroupValue(g: string): Option<nat> {
    if IsDigitGroup(g) then
      GroupTailDigits(g[1..]);
      assert DropUnderscores(g) == [g[0]] + DropUnderscores(g[1..]);
      Some(Value(DropUnderscores(g)))
    else None
  }

  /** A stripped literal: an optional '+' or '-' and a digit group. */
  function SignedValue(t: string): Option<int> {
    if |t| > 0 && (t[0] == '-' || t[0] == '+') then
      match GroupValue(t[1..])
      case None => None
      case Some(v) =>
        var n: int := v;
        Some(if t[0] == '-' then -n else n)
    else
      match GroupValue(t)
      case None => None
      case Some(v) =>
        var n: int := v;
        Some(n)
  }

  /**
   * `int(s)` for a string s: Python's answer, or None where Python raises
   * ValueError. Surrounding whitespace and one leading sign are accepted.
   * The limit of 4300 digits that recent Python versions impose is not
   * modelled: callback data, the only argument here, is at most 64 bytes.
   */
  function ParseInt(s: string): Option<int> {
    SignedValue(Strip(s))
  }

  /** `int(str(n)) == n`. */
  lemma ParseIntOfDigits(n: nat)
    ensures ParseInt(Digits(n)) == Some(n)
  {
    var d := Digits(n);
    StripNumeral(d);
    ValueOfDigits(n);
    UnsignedValue(d);
  }

  lemma StripNumeral(d: string)
    requires |d| > 0 && IsDigit(d[0]) && IsDigit(d[|d| - 1])
    ensures Strip(d) == d
  {
    StripUnspaced(d);
  }

  lemma UnsignedValue(d: string)
    requires |d| > 0 && AllDigits(d)
    ensures SignedValue(d) == Some(Value(d))
  {
    GroupOfDigits(d);
  }

  lemma ValueOf18()
    ensures AllDigits("18") && Value("18") == 18
  {
    assert "18"[..1] == "1";
  }

  predicate AllSpaces(s: string) { forall i :: 0 <= i < |s| ==> IsSpace(s[i]) }

  lemma {:induction false} TrimLeftSpaces(a: string, t: string)
    requires AllSpaces(a) && |t| > 0 && !IsSpace(t[0])
    ensures TrimLeft(a + t) == t
  {
    if |a| > 0 {
      assert (a + t)[1..] == a[1..] + t;
      TrimLeftSpaces(a[1..], t);
    } else {
      assert a + t == t;
    }
  }

  lemma {:induction false} TrimRightSpaces(t: string, b: string)
    requires AllSpaces(b) && |t| > 0 && !IsSpace(t[|t| - 1])
    ensures TrimRight(t + b) == t
  {
    if |b| > 0 {
      assert (t + b)[..|t + b| - 1] == t + b[..|b| - 1];
      TrimRightSpaces(t, b[..|b| - 1]);
    } else {
      assert t + b == t;
    }
  }

  /** `int()` ignores whitespace on either side of the literal. */
  lemma ParseIntIgnoresSpaces(a: string, t: string, b: string)
    requires AllSpaces(a) && AllSpaces(b)
    requires |t| > 0 && !IsSpace(t[0]) && !IsSpace(t[|t| - 1])
    ensures ParseInt(a + t + b) == ParseInt(t)
  {
    assert a + t + b == a + (t + b);
    TrimLeftSpaces(a, t + b);
    TrimRightSpaces(t, b);
    TrimLeftSpaces("", t);
    TrimRightSpaces(t, "");
    assert "" + t == t && t + "" == t;
  }

  /** A literal that neither starts nor ends with whitespace is not stripped. */
  lemma StripUnspaced(t: string)
    requires |t| > 0 && !IsSpace(t[0]) && !IsSpace(t[|t| - 1])
    ensures Strip(t) == t
  {
    TrimLeftSpaces("", t);
    TrimRightSpaces(t, "");
    assert "" + t == t && t + "" == t;
  }

  lemma GroupOfDigits(d: string)
    requires |d| > 0 && AllDigits(d)
    ensures GroupValue(d) == Some(Value(d))
  {
    DigitsAreGroupTail(d[1..]);
    DigitsAreGroupTail(d);
  }

  lemma SignedDigits(c: char, d: string)
    requires c == '-' || c == '+'
    requires |d| > 0 && AllDigits(d)
    ensures SignedValue([c] + d) == Some(if c == '-' then -(Value(d) as int) else Value(d))
  {
    assert ([c] + d)[1..] == d;
    GroupOfDigits(d);
  }

  /** `int()` accepts a leading minus sign. */
  lemma ParseIntNegative(n: nat)
    ensures ParseInt(['-'] + Digits(n)) == Some(-(n as int))
  {
    var d := Digits(n);
    assert (['-'] + d)[|d|] == d[|d| - 1];
    StripUnspaced(['-'] + d);
    SignedDigits('-', d);
    ValueOfDigits(n);
  }

  /** `int()` accepts a leading plus sign. */
  lemma ParseIntPlus(n: nat)
    ensures ParseInt(['+'] + Digits(n)) == Some(n)
  {
    var d := Digits(n);
    assert (['+'] + d)[|d|] == d[|d| - 1];
    StripUnspaced(['+'] + d);
    SignedDigits('+', d);
    ValueOfDigits(n);
  }

  /** `int()` accepts an underscore between two digits. */
  lemma ParseIntUnderscore()
    ensures ParseInt("1_8") == Some(18)
  {
    StripNumeral("1_8");
    assert IsGroupTail("_8") by {
      assert "_8"[2..] == "";
    }
    assert DropUnderscores("1_8") == "18" by {
      assert "1_8"[1..] == "_8" && "_8"[1..] == "8";
    }
    ValueOf18();
  }

  /** `int()` raises on an empty literal. */
  lemma ParseIntRejectsEmpty()
    ensures ParseInt("") == None
  {
  }

  /** `int()` raises on a doubled underscore. */
  lemma ParseIntRejectsDoubleUnderscore()
    ensures ParseInt("1__8") == None
  {
    StripNumeral("1__8");
    assert !IsGroupTail("__8") by {
      assert "__8"[0] == '_' && "__8"[1] == '_';
    }
  }

  /** `int()` raises on a leading information separator: it is not whitespace to `int()`. */
  lemma ParseIntRejectsSeparator(n: nat)
    ensures ParseInt(['\U{1C}'] + Digits(n)) == None
  {
    var d := Digits(n);
    var t := ['\U{1C}'] + d;
    assert t[|t| - 1] == d[|d| - 1];
    StripUnspaced(t);
  }

  /** `int()` raises on a space between the sign and the digits. */
  lemma ParseIntRejectsSpacedSign(n: nat)
    ensures ParseInt(['-', ' '] + Digits(n)) == None
  {
    var d := Digits(n);
    var t := ['-', ' '] + d;
    assert t[|t| - 1] == d[|d| - 1];
    StripUnspaced(t);
    assert t[1..][0] == ' ';
  }
}
