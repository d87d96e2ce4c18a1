/**
 The cells of the source table and the two JavaScript coercions the pivot engine
 applies to them: `String(cell)` for grouping keys and `Number(cell) || 0` for the
 measure.
 */
module Cells {
  import opened Wrappers

  /** A cell of the source grid: the grid is typed `(string | number)[][]`. */
  datatype Cell = Text(s: string) | Num(n: int)

  predicate IsDigit(c: char) {
    '0' <= c <= '9'
  }

  predicate AllDigits(d: string) {
    forall i :: 0 <= i < |d| ==> IsDigit(d[i])
  }

  function DigitValue(c: char): (v: nat)
    requires IsDigit(c)
    ensures v < 10
  {
    (c as int) - ('0' as int)
  }

  function DigitChar(d: nat): (c: char)
    requires d < 10
    ensures IsDigit(c) && DigitValue(c) == d
  {
    (('0' as int) + d) as char
  }

  /** Decimal text of a natural number: most significant digit first, no leading zeros. */
  function NatToDecimal(n: nat): (r: string)
    ensures |r| > 0 && AllDigits(r)
    ensures |r| > 1 ==> r[0] != '0'
    decreases n
  {
    if n < 10 then [DigitChar(n)] else NatToDecimal(n / 10) + [DigitChar(n % 10)]
  }

  /** `String(n)` for an integer-valued JavaScript number. */
  function IntToDecimal(n: int): string {
    if n < 0 then "-" + NatToDecimal(-n) else NatToDecimal(n)
  }

  /** `String(cell)`: the grouping key of a cell; text passes through unchanged. */
  function Key(c: Cell): string {
    match c
    case Text(s) => s
    case Num(n) => IntToDecimal(n)
  }

  /** Value of a non-empty digit string read in base 10. */
  function DigitsValue(d: string): nat
    requires AllDigits(d)
    decreases |d|
  {
    if d == [] then 0 else 10 * DigitsValue(d[..|d| - 1]) + DigitValue(d[|d| - 1])
  }

  /** The characters `Number` strips from both ends of a string (JavaScript's WhiteSpace and LineTerminator). */
  predicate IsSpace(c: char) {
    || c == '\t' || c == '\n' || c == '\r' || c == ' '
    || c == '\U{000B}' || c == '\U{000C}' || c == '\U{00A0}' || c == '\U{1680}'
    || ('\U{2000}' <= c <= '\U{200A}')
    || c == '\U{2028}' || c == '\U{2029}' || c == '\U{202F}' || c == '\U{205F}'
    || c == '\U{3000}' || c == '\U{FEFF}'
  }

  /** `s` without its leading white space. */
  function TrimStart(s: string): (r: string)
    ensures r == [] || !IsSpace(r[0])
    decreases |s|
  {
    if s != [] && IsSpace(s[0]) then TrimStart(s[1..]) else s
  }

  /** `s` without its trailing white space. */
  function TrimEnd(s: string): (r: string)
    ensures r == [] || !IsSpace(r[|r| - 1])
    decreases |s|
  {
    if s != [] && IsSpace(s[|s| - 1]) then TrimEnd(s[..|s| - 1]) else s
  }

  /** Trimming the start removes white space only: what is left is a suffix, and all that went before it is white space. */
  lemma {:induction false} TrimStartRemovesSpace(s: string)
    ensures |TrimStart(s)| <= |s| && TrimStart(s) == s[|s| - |TrimStart(s)|..]
    ensures forall i :: 0 <= i < |s| - |TrimStart(s)| ==> IsSpace(s[i])
    decreases |s|
  {
    if s != [] && IsSpace(s[0]) {
      TrimStartRemovesSpace(s[1..]);
      forall i | 0 < i < |s| - |TrimStart(s)| ensures IsSpace(s[i]) {
        assert s[i] == s[1..][i - 1];
      }
    }
  }

  /** Trimming the end removes white space only: what is left is a prefix, and all that came after it is white space. */
  lemma {:induction false} TrimEndRemovesSpace(s: string)
    ensures |TrimEnd(s)| <= |s| && TrimEnd(s) == s[..|TrimEnd(s)|]
    ensures forall i :: |TrimEnd(s)| <= i < |s| ==> IsSpace(s[i])
    decreases |s|
  {
    if s != [] && IsSpace(s[|s| - 1]) {
      var n := |s| - 1;
      TrimEndRemovesSpace(s[..n]);
      forall i | |TrimEnd(s)| <= i < n ensures IsSpace(s[i]) {
        assert s[i] == s[..n][i];
      }
    }
  }

  /** A decimal integer literal with an optional sign: `None` when it is not one. */
  function ParseSignedDigits(t: string): Option<int> {
    if t != [] && (t[0] == '-' || t[0] == '+') then
      var d := t[1..];
      if d != [] && AllDigits(d) then
        var v: int := DigitsValue(d);
        Some(if t[0] == '-' then -v else v)
      else None
    else if t != [] && AllDigits(t) then Some(DigitsValue(t))
    else None
  }

  /**
   `Number(text)` on integer literals; `None` stands for `NaN`. Surrounding white
   space is ignored and text that is empty after trimming reads as 0, as in JavaScript.
   */
  function ParseNumber(s: string): Option<int> {
    var t := TrimEnd(TrimStart(s));
    if t == [] then Some(0) else ParseSignedDigits(t)
  }

  /** `Number(cell) || 0`: the measure of a cell; `NaN` counts as 0. */
  function Measure(c: Cell): int {
    match c
    case Num(n) => n
    case Text(s) => match ParseNumber(s) case Some(v) => v case None => 0
  }

  /** Reading back the decimal text of a natural number gives the number. */
  lemma {:induction false} NatDecimalRoundTrip(n: nat)
    ensures DigitsValue(NatToDecimal(n)) == n
    decreases n
  {
    if n >= 10 {
      NatDecimalRoundTrip(n / 10);
      var r := NatToDecimal(n);
      assert r[..|r| - 1] == NatToDecimal(n / 10);
    }
  }

  /** Text that starts and ends with non-white-space characters is left as it is by trimming. */
  lemma NoSpaceAtEnds(t: string)
    requires t != [] && !IsSpace(t[0]) && !IsSpace(t[|t| - 1])
    ensures TrimEnd(TrimStart(t)) == t
  {
    assert TrimStart(t) == t;
  }

  lemma NatKeyParses(n: nat)
    ensures ParseNumber(NatToDecimal(n)) == Some(n)
  {
    var d := NatToDecimal(n);
    NatDecimalRoundTrip(n);
    assert IsDigit(d[0]) && IsDigit(d[|d| - 1]);
    NoSpaceAtEnds(d);
  }

  lemma NegativeKeyParses(n: nat)
    requires n > 0
    ensures ParseNumber("-" + NatToDecimal(n)) == Some(-(n as int))
  {
    var d := NatToDecimal(n);
    var t := "-" + d;
    NatDecimalRoundTrip(n);
    assert t[1..] == d && t[|t| - 1] == d[|d| - 1];
    assert IsDigit(d[|d| - 1]);
    NoSpaceAtEnds(t);
  }

  /** `Number(String(n)) == n`: the key of a numeric cell, read back as a measure, is the number. */
  lemma KeyMeasureRoundTrip(n: int)
    ensures ParseNumber(Key(Num(n))) == Some(n)
    ensures Measure(Text(Key(Num(n)))) == Measure(Num(n))
  {
    var t := Key(Num(n));
    if n < 0 {
      var k: nat := -n;
      assert t == "-" + NatToDecimal(k);
      NegativeKeyParses(k);
      assert ParseNumber(t) == Some(n);
    } else {
      assert t == NatToDecimal(n);
      NatKeyParses(n);
      assert ParseNumber(t) == Some(n);
    }
  }

  /** Distinct numbers never share a grouping key. */
  lemma NumericKeysInjective(a: int, b: int)
    ensures Key(Num(a)) == Key(Num(b)) <==> a == b
  {
    KeyMeasureRoundTrip(a);
    KeyMeasureRoundTrip(b);
  }
}
