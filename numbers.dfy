/**
 * The numeric conversions the application leans on, restricted to decimal integers:
 * `Number(s)` (spend and impression bounds), `Number.parseInt(s, 10)` (the page size)
 * and the decimal rendering of an integer (`String(n)`, `n.toString()`).
 */
module Numbers {
  import opened Wrappers

  predicate IsDigit(c: char) { '0' <= c <= '9' }

  function DigitValue(c: char): nat
    requires IsDigit(c)
  {
    (c as int) - ('0' as int)
  }

  function DigitChar(d: nat): (c: char)
    requires d < 10
    ensures IsDigit(c) && DigitValue(c) == d
  {
    (('0' as int) + d) as char
  }

  /**
   * The characters JavaScript strips before reading a number: the ECMAScript
   * WhiteSpace set (tab, vertical tab, form feed, space, no-break space, the byte
   * order mark and the Unicode space separators) and LineTerminator set.
   */
  predicate IsJsSpace(c: char) {
    c == ' ' || c == '\t' || c == '\n' || c == '\r' || c == '\U{000B}' || c == '\U{000C}'
    || c == '\U{00A0}' || c == '\U{1680}' || ('\U{2000}' <= c <= '\U{200A}')
    || c == '\U{2028}' || c == '\U{2029}' || c == '\U{202F}' || c == '\U{205F}'
    || c == '\U{3000}' || c == '\U{FEFF}'
  }

  function TrimStart(s: string): (r: string)
    ensures r == [] || !IsJsSpace(r[0])
    ensures |r| <= |s| && r == s[|s| - |r|..]
  {
    if s != [] && IsJsSpace(s[0]) then TrimStart(s[1..]) else s
  }

  function TrimEnd(s: string): (r: string)
    ensures r == [] || !IsJsSpace(r[|r| - 1])
    ensures r <= s
  {
    if s != [] && IsJsSpace(s[|s| - 1]) then TrimEnd(s[..|s| - 1]) else s
  }

  function Trim(s: string): string {
    TrimEnd(TrimStart(s))
  }

  predicate AllDigits(s: string) {
    forall i :: 0 <= i < |s| ==> IsDigit(s[i])
  }

  /** The value of a string of decimal digits, most significant first. */
  function DigitsValue(s: string): nat
    requires AllDigits(s)
  {
    if s == [] then 0 else 10 * DigitsValue(s[..|s| - 1]) + DigitValue(s[|s| - 1])
  }

  /** An optional sign followed by at least one decimal digit. */
  predicate IsDecimalInteger(s: string) {
    if s != [] && (s[0] == '+' || s[0] == '-') then s[1..] != [] && AllDigits(s[1..])
    else s != [] && AllDigits(s)
  }

  function DecimalValue(s: string): int
    requires IsDecimalInteger(s)
  {
    if s[0] == '-' then -(DigitsValue(s[1..]) as int)
    else if s[0] == '+' then DigitsValue(s[1..])
    else DigitsValue(s)
  }

  /**
   * `Number(s)` where the result is a finite integer: blank text reads as 0, a
   * decimal integer as its value, anything else as not-a-number (None).
   */
  function JsNumber(s: string): (r: Option<int>)
    ensures r.Some? <==> Trim(s) == [] || IsDecimalInteger(Trim(s))
    ensures Trim(s) == [] ==> r == Some(0)
    ensures IsDecimalInteger(Trim(s)) ==> r == Some(DecimalValue(Trim(s)))
  {
    var t := Trim(s);
    if t == [] then Some(0)
    else if IsDecimalInteger(t) then Some(DecimalValue(t))
    else None
  }

  /** Length of the longest prefix of `s` made of decimal digits. */
  function DigitRun(s: string): (n: nat)
    ensures n <= |s| && AllDigits(s[..n])
    ensures n < |s| ==> !IsDigit(s[n])
  {
    if s != [] && IsDigit(s[0]) then
      var n := 1 + DigitRun(s[1..]);
      assert forall i :: 1 <= i < n ==> s[..n][i] == s[1..][..n - 1][i - 1];
      n
    else 0
  }

  /**
   * `Number.parseInt(s, 10)`: skip leading white space, read an optional sign and
   * then as many decimal digits as follow; None (NaN) when there is no digit.
   * Trailing text after the digits is ignored.
   */
  function ParseInt(s: string): (r: Option<int>)
    ensures r.Some? ==>
      exists n :: 0 < n <= |TrimStart(s)| && IsDecimalInteger(TrimStart(s)[..n])
        && DecimalValue(TrimStart(s)[..n]) == r.value
        && (n == |TrimStart(s)| || !IsDigit(TrimStart(s)[n]))
    ensures r.None? ==> forall n :: 0 < n <= |TrimStart(s)| ==> !IsDecimalInteger(TrimStart(s)[..n])
  {
    ParseTrimmedPrefix(TrimStart(s));
    ParseTrimmed(TrimStart(s))
  }

  /** `parseInt` after the white space: an optional sign and the digits that follow it. */
  function ParseTrimmed(t: string): Option<int> {
    var k := SignLength(t);
    var n := DigitRun(t[k..]);
    if n == 0 then None
    else if k == 1 && t[0] == '-' then Some(-(DigitsValue(t[k..][..n]) as int))
    else Some(DigitsValue(t[k..][..n]))
  }

  /** The value read is that of the longest decimal integer starting `t`; none when there is no such integer. */
  lemma ParseTrimmedPrefix(t: string)
    ensures ParseTrimmed(t).Some? ==>
      exists n :: 0 < n <= |t| && IsDecimalInteger(t[..n]) && DecimalValue(t[..n]) == ParseTrimmed(t).value
        && (n == |t| || !IsDigit(t[n]))
    ensures ParseTrimmed(t).None? ==> forall n :: 0 < n <= |t| ==> !IsDecimalInteger(t[..n])
  {
    var n := DigitRun(t[SignLength(t)..]);
    if n == 0 {
      NoDigitsNoInteger(t);
    } else {
      DigitsAfterSign(t, n);
    }
  }

  /** 1 when `t` starts with a sign, else 0. */
  function SignLength(t: string): (k: nat)
    ensures k <= |t|
  {
    if t != [] && (t[0] == '-' || t[0] == '+') then 1 else 0
  }

  /** The sign and the digit run that follows it make the longest decimal integer starting `t`. */
  lemma DigitsAfterSign(t: string, n: nat)
    requires 0 < n && n == DigitRun(t[SignLength(t)..])
    ensures var m := SignLength(t) + n;
      && m <= |t| && IsDecimalInteger(t[..m])
      && DecimalValue(t[..m]) ==
           (if SignLength(t) == 1 && t[0] == '-' then -(DigitsValue(t[SignLength(t)..][..n]) as int)
            else DigitsValue(t[SignLength(t)..][..n]))
      && (m == |t| || !IsDigit(t[m]))
  {
    var k := SignLength(t);
    var m := k + n;
    assert t[..m][k..] == t[k..][..n];
    if k == 0 {
      assert t[..m] == t[k..][..n];
      assert IsDigit(t[k..][0]);
    }
  }

  /** Without a digit after the optional sign, no prefix of `t` is a decimal integer. */
  lemma NoDigitsNoInteger(t: string)
    requires DigitRun(t[SignLength(t)..]) == 0
    ensures forall m :: 0 < m <= |t| ==> !IsDecimalInteger(t[..m])
  {
    var k := SignLength(t);
    forall m | 0 < m <= |t| ensures !IsDecimalInteger(t[..m]) {
      var p := t[..m];
      if k == 1 {
        if |p| > 1 {
          assert p[1..][0] == t[k..][0];
        }
      } else {
        assert p[0] == t[k..][0];
      }
    }
  }

  /** Decimal rendering of a natural number, without leading zeros. */
  function NatToString(n: nat): (s: string)
    ensures s != [] && AllDigits(s)
    decreases n
  {
    if n < 10 then [DigitChar(n)] else NatToString(n / 10) + [DigitChar(n % 10)]
  }

  /** `String(n)` for an integer. */
  function IntToString(i: int): string {
    if i < 0 then "-" + NatToString(-i) else NatToString(i)
  }

  lemma {:induction false} NatToStringValue(n: nat)
    ensures DigitsValue(NatToString(n)) == n
    decreases n
  {
    if n >= 10 {
      var s := NatToString(n);
      assert s[..|s| - 1] == NatToString(n / 10);
      NatToStringValue(n / 10);
    }
  }

  /** A string that neither starts nor ends with white space is its own trim. */
  lemma TrimUnspaced(s: string)
    requires s != [] && !IsJsSpace(s[0]) && !IsJsSpace(s[|s| - 1])
    ensures TrimStart(s) == s && Trim(s) == s
  {
  }

  /** The rendering of an integer is a decimal integer denoting it. */
  lemma IntToStringDecimal(i: int)
    ensures IsDecimalInteger(IntToString(i)) && DecimalValue(IntToString(i)) == i
  {
    var s := IntToString(i);
    if i < 0 {
      assert s[1..] == NatToString(-i);
      NatToStringValue(-i);
    } else {
      NatToStringValue(i);
    }
  }

  /** Rendering an integer and reading it back with `Number` gives the integer. */
  lemma IntToStringJsNumber(i: int)
    ensures JsNumber(IntToString(i)) == Some(i)
  {
    var s := IntToString(i);
    assert IsDigit(s[|s| - 1]);
    TrimUnspaced(s);
    IntToStringDecimal(i);
  }

  /** Rendering an integer and reading it back with `parseInt` gives the integer. */
  lemma IntToStringParseInt(i: int)
    ensures ParseInt(IntToString(i)) == Some(i)
  {
    var s := IntToString(i);
    var m: nat := if i < 0 then -i else i;
    var digits := NatToString(m);
    assert IsDigit(s[|s| - 1]);
    TrimUnspaced(s);
    var k := SignLength(s);
    assert k == if i < 0 then 1 else 0;
    assert s[k..] == digits;
    AllDigitsRun(digits);
    assert digits[..|digits|] == digits;
    NatToStringValue(m);
    assert ParseTrimmed(s) == Some(i);
  }

  lemma {:induction false} AllDigitsRun(s: string)
    requires AllDigits(s)
    ensures DigitRun(s) == |s|
  {
    if s != [] {
      AllDigitsRun(s[1..]);
    }
  }
}
