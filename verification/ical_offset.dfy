/** `tzical._parse_offset`: an iCalendar UTC-offset value
    (`[+|-]HHMM[SS]`, section 3.3.14 of RFC 5545) read as signed seconds. */
module IcalOffset {

  import opened Base
  import opened Text

  datatype OffsetError =
    | EmptyOffset
    | InvalidOffset(body: string)
    | InvalidLiteral(digits: string)

  /** Python's `int()` on a two-character string: two digits, a sign and a
      digit, or a digit with whitespace on one side. */
  function Int2(s: string): (r: Result<int, OffsetError>)
    requires |s| == 2
    ensures IsDigit(s[0]) && IsDigit(s[1]) ==> r == Success(10 * DigitValue(s[0]) + DigitValue(s[1]))
    ensures r.Success? ==> -9 <= r.value <= 99
    ensures !IsDigit(s[0]) && !IsDigit(s[1]) ==> r.Failure?
  {
    if IsDigit(s[0]) && IsDigit(s[1]) then Success(10 * DigitValue(s[0]) + DigitValue(s[1]))
    else if s[0] == '+' && IsDigit(s[1]) then Success(DigitValue(s[1]))
    else if s[0] == '-' && IsDigit(s[1]) then Success(-(DigitValue(s[1]) as int))
    else if IsSpace(s[0]) && IsDigit(s[1]) then Success(DigitValue(s[1]))
    else if IsDigit(s[0]) && IsSpace(s[1]) then Success(DigitValue(s[0]))
    else Failure(InvalidLiteral(s))
  }

  predicate HasSign(t: string) {
    |t| > 0 && (t[0] == '+' || t[0] == '-')
  }

  /** The value without its sign character. */
  function Unsigned(t: string): string {
    if HasSign(t) then t[1..] else t
  }

  /** `-1` for a leading minus, `+1` otherwise. */
  function SignOf(t: string): int {
    if |t| > 0 && t[0] == '-' then -1 else 1
  }

  predicate AllDigits(s: string) {
    forall i :: 0 <= i < |s| ==> IsDigit(s[i])
  }

  /** A canonical offset literal: optional sign, then four or six digits. */
  predicate IsOffsetLiteral(t: string) {
    (|Unsigned(t)| == 4 || |Unsigned(t)| == 6) && AllDigits(Unsigned(t))
  }

  /** The magnitude four or six digits denote: HH*3600 + MM*60 + SS. */
  function DigitsValue(b: string): nat
    requires (|b| == 4 || |b| == 6) && AllDigits(b)
  {
    var hh := 10 * DigitValue(b[0]) + DigitValue(b[1]);
    var mm := 10 * DigitValue(b[2]) + DigitValue(b[3]);
    var ss := if |b| == 6 then 10 * DigitValue(b[4]) + DigitValue(b[5]) else 0;
    hh * 3600 + mm * 60 + ss
  }

  /** The value a canonical literal denotes, negated after a minus sign. */
  function LiteralValue(t: string): int
    requires IsOffsetLiteral(t)
  {
    if SignOf(t) < 0 then -(DigitsValue(Unsigned(t)) as int) else DigitsValue(Unsigned(t))
  }

  /** The four- or six-character body read as two-character integers. */
  function Magnitude(b: string): (r: Result<int, OffsetError>)
    requires |b| == 4 || |b| == 6
    ensures AllDigits(b) ==> r == Success(DigitsValue(b))
  {
    var hh :- Int2(b[..2]);
    var mm :- Int2(b[2..4]);
    if |b| == 4 then Success(hh * 3600 + mm * 60)
    else
      var ss :- Int2(b[4..]);
      Success(hh * 3600 + mm * 60 + ss)
  }

  /** The stripped value: an optional sign, then exactly four or six
      characters read as two-character integers. */
  function ParseStripped(t: string): (r: Result<int, OffsetError>)
    ensures t == [] ==> r == Failure(EmptyOffset)
    ensures t != [] && |Unsigned(t)| != 4 && |Unsigned(t)| != 6 ==> r == Failure(InvalidOffset(Unsigned(t)))
    ensures IsOffsetLiteral(t) ==> r == Success(LiteralValue(t))
  {
    if t == [] then Failure(EmptyOffset)
    else
      var signal := if t[0] == '+' || t[0] == '-' then (if t[0] == '+' then 1 else -1) else 1;
      var b := Unsigned(t);
      if |b| == 4 || |b| == 6 then
        var m :- Magnitude(b);
        Success(if signal < 0 then -m else m)
      else
        Failure(InvalidOffset(b))
  }

  /** `_parse_offset`: strip surrounding whitespace, then read the rest. */
  function ParseOffset(s: string): (r: Result<int, OffsetError>)
    ensures Strip(s) == [] ==> r == Failure(EmptyOffset)
    ensures Strip(s) != [] && |Unsigned(Strip(s))| != 4 && |Unsigned(Strip(s))| != 6 ==>
      r == Failure(InvalidOffset(Unsigned(Strip(s))))
    ensures IsOffsetLiteral(Strip(s)) ==> r == Success(LiteralValue(Strip(s)))
  {
    ParseStripped(Strip(s))
  }

  function DigitChar(d: nat): (c: char)
    requires d < 10
    ensures IsDigit(c) && DigitValue(c) == d
  {
    ('0' as int + d) as char
  }

  function TwoDigits(n: nat): (s: string)
    requires n < 100
    ensures |s| == 2 && AllDigits(s)
    ensures 10 * DigitValue(s[0]) + DigitValue(s[1]) == n
  {
    [DigitChar(n / 10), DigitChar(n % 10)]
  }

  /** Writes an offset as `+HHMM`, or `+HHMMSS` when the seconds are not zero. */
  function FormatOffset(x: int): (s: string)
    requires -360000 < x < 360000
    ensures IsOffsetLiteral(s) && HasSign(s)
    ensures |s| == 5 || |s| == 7
  {
    var a := if x < 0 then -x else x;
    var sign := if x < 0 then '-' else '+';
    var rem := a % 3600;
    var hh := a / 3600;
    var mm := rem / 60;
    var ss := rem % 60;
    if ss == 0 then [sign] + TwoDigits(hh) + TwoDigits(mm)
    else [sign] + TwoDigits(hh) + TwoDigits(mm) + TwoDigits(ss)
  }

  /** The digits of a formatted offset denote its magnitude. */
  lemma FormatDigits(x: int)
    requires -360000 < x < 360000
    ensures DigitsValue(Unsigned(FormatOffset(x))) == if x < 0 then -x else x
  {
    var a := if x < 0 then -x else x;
    assert a == (a / 3600) * 3600 + a % 3600;
    assert a % 3600 == ((a % 3600) / 60) * 60 + (a % 3600) % 60;
  }

  /** Reading a formatted offset gives the offset back. */
  lemma FormatThenParse(x: int)
    requires -360000 < x < 360000
    ensures ParseOffset(FormatOffset(x)) == Success(x)
  {
    var s := FormatOffset(x);
    StripNoSpace(s);
    FormatDigits(x);
  }
}
