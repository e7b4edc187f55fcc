/**
 * Decimal integers as Python reads and writes them: `int(s)` on a string and
 * `str(n)` (the conversion an f-string applies to an `int`).  `int(s)` is
 * restricted here to surrounding whitespace, an optional sign and ASCII
 * digits.
 */
module Decimal {
  import opened Wrappers
  import opened PyStr

  predicate IsDigit(c: char) {
    '0' <= c <= '9'
  }

  /** A non-empty run of ASCII digits. */
  predicate IsDigits(s: string) {
    |s| > 0 && forall i :: 0 <= i < |s| ==> IsDigit(s[i])
  }

  /** The value of a run of decimal digits, most significant first. */
  function DigitsValue(s: string): nat
    requires forall i :: 0 <= i < |s| ==> IsDigit(s[i])
  {
    if s == [] then 0
    else
      assert IsDigit(s[|s| - 1]);
      10 * DigitsValue(s[..|s| - 1]) + (s[|s| - 1] as int - '0' as int)
  }

  /**
   * The whitespace `int()` skips around a number: the ASCII characters
   * `" \t\n\v\f\r"` and every non-ASCII `isspace()` character.  The ASCII
   * separators U+001C to U+001F satisfy `isspace()`, so `strip()` removes
   * them, but `int()` does not skip them.
   */
  const IntSpace: set<char> := Whitespace - {'\U{1C}', '\U{1D}', '\U{1E}', '\U{1F}'}

  /**
   * `int(s)`: `None` stands for the `ValueError` Python raises.  Leading and
   * trailing `IntSpace` is ignored, then an optional `+` or `-` and at least
   * one digit must make up the whole rest.
   */
  function ParseInt(s: string): Option<int> {
    ParseNumeral(StripChars(s, IntSpace))
  }

  /** What `int()` makes of the text left once the whitespace around it is gone. */
  function ParseNumeral(t: string): Option<int> {
    if |t| > 0 && (t[0] == '+' || t[0] == '-') then
      if IsDigits(t[1..]) then
        var v: int := DigitsValue(t[1..]);
        Some(if t[0] == '-' then -v else v)
      else None
    else if IsDigits(t) then Some(DigitsValue(t))
    else None
  }

  function DigitChar(d: nat): (c: char)
    requires d < 10
    ensures IsDigit(c) && c as int - '0' as int == d
  {
    ('0' as int + d) as char
  }

  /** Decimal digits of `n` without leading zeros; reading them back gives `n`. */
  function NatToString(n: nat): (r: string)
    ensures IsDigits(r)
    ensures DigitsValue(r) == n
    ensures |r| == 1 <==> n < 10
    ensures n >= 10 ==> r[0] != '0'
  {
    if n < 10 then [DigitChar(n)]
    else
      var r := NatToString(n / 10) + [DigitChar(n % 10)];
      assert r[..|r| - 1] == NatToString(n / 10);
      r
  }

  function Abs(n: int): nat {
    if n < 0 then -n else n
  }

  /**
   * `str(n)`: a `-` exactly when `n` is negative, then the digits of its
   * magnitude with no leading zero; `int()` reads it back as `n`.
   */
  function ToString(n: int): (r: string)
    ensures r != [] && !IsSpace(r[0]) && !IsSpace(r[|r| - 1])
    ensures forall i :: 0 <= i < |r| ==> r[i] == '-' || IsDigit(r[i])
    ensures r[0] == '-' <==> n < 0
    ensures var d := if n < 0 then r[1..] else r; |d| > 1 ==> d[0] != '0'
    ensures ParseInt(r) == Some(n)
  {
    var digits := NatToString(Abs(n));
    if n < 0 then
      ParseNegative(digits);
      "-" + digits
    else
      ParseDigits(digits);
      digits
  }

  lemma DigitsNotSpace(s: string)
    requires IsDigits(s)
    ensures !IsSpace(s[0]) && !IsSpace(s[|s| - 1])
  {
    assert IsDigit(s[0]) && IsDigit(s[|s| - 1]);
  }

  lemma ParseDigits(digits: string)
    requires IsDigits(digits)
    ensures !IsSpace(digits[0]) && !IsSpace(digits[|digits| - 1])
    ensures ParseInt(digits) == Some(DigitsValue(digits))
  {
    DigitsNotSpace(digits);
    ParseUnpadded(digits);
    assert IsDigit(digits[0]);
  }

  lemma ParseNegative(digits: string)
    requires IsDigits(digits)
    ensures var r := "-" + digits; !IsSpace(r[0]) && !IsSpace(r[|r| - 1])
    ensures ParseInt("-" + digits) == Some(-(DigitsValue(digits) as int))
  {
    var r := "-" + digits;
    DigitsNotSpace(digits);
    assert r[|r| - 1] == digits[|digits| - 1];
    ParseUnpadded(r);
    assert r[1..] == digits;
  }

  /** Without whitespace at either end, neither `strip()` nor `int()` removes anything. */
  lemma ParseUnpadded(r: string)
    requires r != [] && !IsSpace(r[0]) && !IsSpace(r[|r| - 1])
    ensures Strip(r) == r && StripChars(r, IntSpace) == r
  {
    StripPadded([], r, [], Whitespace);
    StripPadded([], r, [], IntSpace);
    assert [] + r + [] == r;
  }

  /** `int()` ignores the whitespace it skips around a number, as in `" 42 "`. */
  lemma ParseIntPadded(left: string, n: int, right: string)
    requires AllIn(left, IntSpace) && AllIn(right, IntSpace)
    ensures ParseInt(left + ToString(n) + right) == Some(n)
  {
    var r := ToString(n);
    StripPadded(left, r, right, IntSpace);
    ParseUnpadded(r);
  }

  /**
   * An ASCII separator before a number stops `int()`, although `strip()`
   * removes it: `int("\x1c5")` raises while `int("\x1c5".strip())` is 5.
   */
  lemma SeparatorNotSkipped(c: char, n: int)
    requires c in {'\U{1C}', '\U{1D}', '\U{1E}', '\U{1F}'}
    ensures IsSpace(c)
    ensures ParseInt([c] + ToString(n)) == None
    ensures ParseInt(Strip([c] + ToString(n))) == Some(n)
  {
    var r := ToString(n);
    var s := [c] + r;
    assert s[|s| - 1] == r[|r| - 1];
    assert TrimLeft(s, IntSpace) == s;
    assert StripChars(s, IntSpace) == s;
    assert !IsDigit(s[0]);
    StripPadded([c], r, [], Whitespace);
    assert [c] + r + [] == s;
  }

  // ---------------------------------------------------------------- what int() accepts

  predicate Zeros(z: string) {
    forall i :: 0 <= i < |z| ==> z[i] == '0'
  }

  /** A sign `int()` accepts in front of `n`: a `-` whenever `n` is negative, and only then unless `n` is 0. */
  predicate SignFor(n: int, sign: string) {
    && (sign == "" || sign == "+" || sign == "-")
    && (n < 0 ==> sign == "-") && (sign == "-" ==> n <= 0)
  }

  /** A sign, some zeros, then the digits `str()` writes for the magnitude of `n`. */
  function Numeral(n: int, sign: string, zeros: string): string {
    sign + zeros + NatToString(Abs(n))
  }

  /**
   * `s` spells `n` for `int()`: whitespace it skips, an accepted sign, any
   * run of zeros, the digits of `str(abs(n))`, whitespace it skips.
   */
  predicate Spelling(s: string, n: int, left: string, sign: string, zeros: string, right: string) {
    && AllIn(left, IntSpace) && AllIn(right, IntSpace)
    && SignFor(n, sign) && Zeros(zeros)
    && s == left + Numeral(n, sign, zeros) + right
  }

  /** Leading zeros do not change the value of a run of digits. */
  lemma {:induction false} LeadingZerosValue(z: string, d: string)
    requires Zeros(z) && forall i :: 0 <= i < |d| ==> IsDigit(d[i])
    ensures forall i :: 0 <= i < |z + d| ==> IsDigit((z + d)[i])
    ensures DigitsValue(z + d) == DigitsValue(d)
  {
    var s := z + d;
    assert forall i :: 0 <= i < |s| ==> IsDigit(s[i]) by {
      forall i | 0 <= i < |s| ensures IsDigit(s[i]) {
        if i < |z| { assert s[i] == z[i]; } else { assert s[i] == d[i - |z|]; }
      }
    }
    if d == [] {
      if z != [] {
        LeadingZerosValue(z[..|z| - 1], []);
        assert s[..|s| - 1] == z[..|z| - 1] + [];
        assert s[|s| - 1] == '0';
      }
    } else {
      var d' := d[..|d| - 1];
      LeadingZerosValue(z, d');
      assert s[..|s| - 1] == z + d';
    }
  }

  /** A run of digits without a superfluous leading zero is what `str()` writes for its value. */
  lemma {:induction false} CanonicalDigits(e: string)
    requires IsDigits(e) && (|e| == 1 || e[0] != '0')
    ensures DigitsValue(e) >= (if e[0] == '0' then 0 else 1)
    ensures NatToString(DigitsValue(e)) == e
  {
    var v := DigitsValue(e);
    if |e| == 1 {
      assert e[..0] == [] && IsDigit(e[0]);
      assert DigitsValue(e) == 10 * DigitsValue(e[..0]) + (e[0] as int - '0' as int);
      assert [DigitChar(v)] == e;
    } else {
      var e' := e[..|e| - 1];
      assert e'[0] == e[0] && IsDigit(e[|e| - 1]);
      CanonicalDigits(e');
      var a, b := DigitsValue(e'), e[|e| - 1] as int - '0' as int;
      assert v == 10 * a + b && 0 <= b < 10 && a >= 1;
      assert v / 10 == a && v % 10 == b;
      assert NatToString(v) == NatToString(a) + [DigitChar(b)];
      assert e == e' + [e[|e| - 1]];
    }
  }

  /** The number of superfluous leading zeros of a run of digits. */
  function ZeroRun(d: string): (k: nat)
    ensures k < |d| || k == 0
  {
    if |d| > 1 && d[0] == '0' then 1 + ZeroRun(d[1..]) else 0
  }

  /** A run of digits is some zeros followed by what `str()` writes for its value. */
  lemma {:induction false} DigitsAreZerosThenCanonical(d: string)
    requires IsDigits(d)
    ensures var k := ZeroRun(d); Zeros(d[..k]) && d[k..] == NatToString(DigitsValue(d))
  {
    var k := ZeroRun(d);
    if k == 0 {
      CanonicalDigits(d);
    } else {
      DigitsAreZerosThenCanonical(d[1..]);
      assert d[1..][k - 1..] == d[k..];
      assert d[..k] == [d[0]] + d[1..][..k - 1];
      LeadingZerosValue([d[0]], d[1..]);
      assert [d[0]] + d[1..] == d;
    }
  }

  /** A numeral has no whitespace at its ends and reads as its number. */
  lemma NumeralReads(n: int, sign: string, zeros: string)
    requires SignFor(n, sign) && Zeros(zeros)
    ensures var lit := Numeral(n, sign, zeros);
      && lit != [] && lit[0] !in IntSpace && lit[|lit| - 1] !in IntSpace
      && ParseNumeral(lit) == Some(n)
  {
    var digits := NatToString(Abs(n));
    var body := zeros + digits;
    var lit := sign + body;
    assert lit == Numeral(n, sign, zeros);
    LeadingZerosValue(zeros, digits);
    assert lit[|lit| - 1] == digits[|digits| - 1];
    DigitsNotSpace(digits);
    if sign == "" {
      assert lit == body;
      UnsignedReads(body);
    } else {
      SignedReads(sign[0], body);
      assert lit == [sign[0]] + body;
    }
  }

  lemma UnsignedReads(body: string)
    requires IsDigits(body)
    ensures body[0] !in IntSpace && ParseNumeral(body) == Some(DigitsValue(body))
  {
    assert IsDigit(body[0]);
  }

  lemma SignedReads(sign: char, body: string)
    requires sign == '+' || sign == '-'
    requires IsDigits(body)
    ensures sign !in IntSpace
    ensures var v: int := DigitsValue(body); ParseNumeral([sign] + body) == Some(if sign == '-' then -v else v)
  {
    assert ([sign] + body)[1..] == body;
  }

  /** Every spelling of `n` is read as `n`. */
  lemma ReadsSpelling(s: string, n: int, left: string, sign: string, zeros: string, right: string)
    requires Spelling(s, n, left, sign, zeros, right)
    ensures ParseInt(s) == Some(n)
  {
    NumeralReads(n, sign, zeros);
    StripPadded(left, Numeral(n, sign, zeros), right, IntSpace);
  }

  /** The sign a numeral starts with, if any. */
  function SignOf(t: string): string {
    if |t| > 0 && (t[0] == '+' || t[0] == '-') then t[..1] else ""
  }

  /** Whatever `int()` reads as `n`, once stripped, is a numeral of `n`. */
  lemma NumeralOfParsed(t: string, n: int)
    requires ParseNumeral(t) == Some(n)
    ensures var sign := SignOf(t); var d := t[|sign|..];
      && SignFor(n, sign) && Zeros(d[..ZeroRun(d)])
      && t == Numeral(n, sign, d[..ZeroRun(d)])
  {
    var sign := SignOf(t);
    var d := t[|sign|..];
    assert t == sign + d;
    assert IsDigits(d);
    DigitsAreZerosThenCanonical(d);
    var z := ZeroRun(d);
    assert d == d[..z] + d[z..];
    assert Abs(n) == DigitsValue(d);
  }

  /** Whatever `int()` reads as `n` is a spelling of `n`. */
  lemma SpellingOfParsed(s: string, n: int)
    requires ParseInt(s) == Some(n)
    ensures exists left, sign, zeros, right :: Spelling(s, n, left, sign, zeros, right)
  {
    var t := StripChars(s, IntSpace);
    StripIsCore(s, IntSpace);
    var k := |s| - |TrimLeft(s, IntSpace)|;
    var left, right := s[..k], s[k + |t|..];
    assert s == left + t + right;
    NumeralOfParsed(t, n);
    var sign := SignOf(t);
    var d := t[|sign|..];
    assert Spelling(s, n, left, sign, d[..ZeroRun(d)], right);
  }

  /**
   * `int(s)` gives `n` exactly when `s` spells `n`: whitespace it skips, an
   * optional sign, leading zeros and the digits of `str(abs(n))`.
   */
  lemma ParseIntExactly(s: string, n: int)
    ensures ParseInt(s) == Some(n) <==> exists left, sign, zeros, right :: Spelling(s, n, left, sign, zeros, right)
  {
    if ParseInt(s) == Some(n) {
      SpellingOfParsed(s, n);
    }
    if exists left, sign, zeros, right :: Spelling(s, n, left, sign, zeros, right) {
      var left, sign, zeros, right :| Spelling(s, n, left, sign, zeros, right);
      ReadsSpelling(s, n, left, sign, zeros, right);
    }
  }
}
