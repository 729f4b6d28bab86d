/** Python's integer conversions as the script uses them: `int(s)` on a
    string (the Hershey header fields), `str(n)` on an integer (the numbers
    of a G01 command) and `int(v + 0.5)` (rounding before formatting). */
module PyInt {

  datatype Option<T> = None | Some(value: T)

  predicate IsDigit(c: char) { '0' <= c <= '9' }

  function DigitValue(c: char): (d: nat)
    requires IsDigit(c)
    ensures d < 10
  {
    c as int - '0' as int
  }

  function DigitChar(d: nat): (c: char)
    requires d < 10
    ensures IsDigit(c) && DigitValue(c) == d
  {
    ('0' as int + d) as char
  }

  /** The characters Python's `str.isspace` accepts (the ones `int()` strips). */
  predicate IsSpace(c: char)
  {
    var n := c as int;
    (9 <= n <= 13) || (28 <= n <= 32) || n == 0x85 || n == 0xA0 || n == 0x1680
    || (0x2000 <= n <= 0x200A) || n == 0x2028 || n == 0x2029 || n == 0x202F
    || n == 0x205F || n == 0x3000
  }

  function TrimLeft(s: string): (r: string)
    ensures |r| <= |s| && r == s[|s| - |r|..]
    ensures r == [] || !IsSpace(r[0])
    ensures forall i :: 0 <= i < |s| - |r| ==> IsSpace(s[i])
  {
    if |s| > 0 && IsSpace(s[0]) then TrimLeft(s[1..]) else s
  }

  function TrimRight(s: string): (r: string)
    ensures |r| <= |s| && r == s[..|r|]
    ensures r == [] || !IsSpace(r[|r| - 1])
    ensures forall i :: |r| <= i < |s| ==> IsSpace(s[i])
  {
    if |s| > 0 && IsSpace(s[|s| - 1]) then TrimRight(s[..|s| - 1]) else s
  }

  /** `str.strip()`: drop leading and trailing white space. */
  function Strip(s: string): string
  {
    TrimRight(TrimLeft(s))
  }

  /** A base-10 digit run as `int()` accepts it: digits, where a single
      underscore may stand between two digits. */
  predicate IsDigitRun(s: string)
  {
    |s| > 0 && IsDigit(s[0]) &&
    forall i :: 0 < i < |s| ==>
      IsDigit(s[i]) || (s[i] == '_' && i + 1 < |s| && IsDigit(s[i + 1]))
  }

  /** The value of a digit run, underscores skipped. */
  function RunValue(s: string): nat
  {
    if s == [] then 0
    else
      var c := s[|s| - 1];
      if IsDigit(c) then RunValue(s[..|s| - 1]) * 10 + DigitValue(c)
      else RunValue(s[..|s| - 1])
  }

  /** `int(s)` for a string in base 10: `None` where Python raises ValueError. */
  function ParseInt(s: string): (r: Option<int>)
    ensures r.Some? ==> |Strip(s)| > 0
  {
    var t := Strip(s);
    if |t| > 0 && (t[0] == '+' || t[0] == '-') then
      if IsDigitRun(t[1..]) then
        Some(if t[0] == '-' then -(RunValue(t[1..]) as int) else RunValue(t[1..]))
      else None
    else if IsDigitRun(t) then Some(RunValue(t))
    else None
  }

  /** `str(n)` for a natural number: decimal, no leading zeros. */
  function Decimal(n: nat): (r: string)
    ensures |r| > 0 && forall i :: 0 <= i < |r| ==> IsDigit(r[i])
    ensures r[0] == '0' ==> n == 0
  {
    if n < 10 then [DigitChar(n)] else Decimal(n / 10) + [DigitChar(n % 10)]
  }

  /** `str(n)` for an integer: a minus sign, then the decimal of |n|. */
  function FormatInt(n: int): (r: string)
    ensures |r| > 0 && IsDigit(r[|r| - 1])
    ensures forall i :: 0 <= i < |r| ==> IsDigit(r[i]) || r[i] == '-'
    ensures (r[0] == '-') == (n < 0)
  {
    if n < 0 then "-" + Decimal(-n) else Decimal(n)
  }

  /** Python's `int()` of a float truncates toward zero; for a rational
      `a / b` with `b > 0` that is this division. */
  function TruncDiv(a: int, b: int): int
    requires b > 0
  {
    if a >= 0 then a / b else -((-a) / b)
  }

  /** `int(v + 0.5)` for an integral `v`: `v` itself for non-negative `v`
      but `v + 1` for negative `v`, as `RoundHalfUpTruncates` shows. */
  function RoundHalfUp(v: int): int
  {
    if v >= 0 then v else v + 1
  }

  /** `v + 0.5` is the rational `(2v + 1) / 2`, and `int()` truncates it
      toward zero: that is exactly the case split of `RoundHalfUp`. */
  lemma RoundHalfUpTruncates(v: int)
    ensures RoundHalfUp(v) == TruncDiv(2 * v + 1, 2)
    ensures RoundHalfUp(v) >= v && RoundHalfUp(v) - v <= 1
  {
  }

  lemma {:induction false} DecimalIsRun(n: nat)
    ensures IsDigitRun(Decimal(n)) && RunValue(Decimal(n)) == n
  {
    if n >= 10 {
      DecimalIsRun(n / 10);
      var p := Decimal(n / 10);
      var s := p + [DigitChar(n % 10)];
      assert s[..|s| - 1] == p;
    }
  }

  lemma StripFormatted(n: int)
    ensures Strip(FormatInt(n)) == FormatInt(n)
  {
    var r := FormatInt(n);
    assert !IsSpace(r[0]);
    assert TrimLeft(r) == r;
    assert !IsSpace(r[|r| - 1]);
  }

  /** `int(str(n)) == n`: what G01 writes, a parser of the same format reads back. */
  lemma ParseFormat(n: int)
    ensures ParseInt(FormatInt(n)) == Some(n)
  {
    StripFormatted(n);
    if n < 0 {
      DecimalIsRun(-n);
      assert FormatInt(n)[1..] == Decimal(-n);
    } else {
      DecimalIsRun(n);
    }
  }

  /** `int(s)` ignores the white space around a number, as the Hershey
      header's right-aligned fields need. */
  lemma ParsePadded(pad: string, n: nat)
    requires forall i :: 0 <= i < |pad| ==> pad[i] == ' '
    ensures ParseInt(pad + Decimal(n)) == Some(n)
  {
    var d := Decimal(n);
    PadTrimmed(pad, d);
    assert TrimRight(d) == d;
    assert Strip(pad + d) == d;
    DecimalIsRun(n);
    assert !(d[0] == '+' || d[0] == '-');
  }

  lemma {:induction false} PadTrimmed(pad: string, d: string)
    requires forall i :: 0 <= i < |pad| ==> pad[i] == ' '
    requires |d| > 0 && !IsSpace(d[0])
    ensures TrimLeft(pad + d) == d
  {
    if pad != [] {
      assert (pad + d)[1..] == pad[1..] + d;
      PadTrimmed(pad[1..], d);
    }
  }
}
