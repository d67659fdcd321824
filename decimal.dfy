/** Decimal text of numbers as the token codec writes and reads it: `long.ToString()`,
    `double.ToString()` of a millisecond count, and `long.Parse` with its default
    `NumberStyles.Integer` (surrounding white space, one optional sign, ASCII digits).
    The calls name no culture, so they use the current one; the model fixes it to one
    that writes '-', ASCII digits and '.' (as the invariant culture does). */
module Decimal {
  import opened Time

  predicate IsDigit(c: char) { '0' <= c <= '9' }

  predicate AllDigits(s: string) { forall i :: 0 <= i < |s| ==> IsDigit(s[i]) }

  function DigitValue(c: char): nat
    requires IsDigit(c)
  {
    (c as int) - ('0' as int)
  }

  function DigitChar(d: nat): (c: char)
    requires d < 10
    ensures IsDigit(c) && DigitValue(c) == d
  {
    (('0' as int) + d) as char
  }

  /** The decimal digits of `n`, most significant first, without leading zeros. */
  function NatToString(n: nat): (s: string)
    ensures |s| >= 1 && AllDigits(s)
    ensures |s| > 1 ==> s[0] != '0'
    decreases n
  {
    if n < 10 then [DigitChar(n)] else NatToString(n / 10) + [DigitChar(n % 10)]
  }

  /** The number a string of digits denotes. */
  function DigitsValue(s: string): nat
    requires AllDigits(s)
  {
    if |s| == 0 then 0 else 10 * DigitsValue(s[..|s| - 1]) + DigitValue(s[|s| - 1])
  }

  lemma {:induction false} DigitsValueOfNatToString(n: nat)
    ensures DigitsValue(NatToString(n)) == n
    decreases n
  {
    if n >= 10 {
      var s := NatToString(n);
      assert s[..|s| - 1] == NatToString(n / 10);
      DigitsValueOfNatToString(n / 10);
    }
  }

  /** `long.ToString()`: a minus sign for negative values, then the digits. */
  function IntToString(i: int): (s: string)
    ensures |s| >= 1
    ensures s[0] == '-' || IsDigit(s[0])
    ensures forall k :: 1 <= k < |s| ==> IsDigit(s[k])
    ensures IsDigit(s[|s| - 1])
  {
    if i < 0 then "-" + NatToString(-i) else NatToString(i)
  }

  /** The characters `char.IsWhiteSpace` accepts among the ASCII range, which is what
      `NumberStyles.AllowLeadingWhite` and `AllowTrailingWhite` skip. */
  predicate IsWhiteSpace(c: char) { c == ' ' || '\t' <= c <= '\r' }

  function TrimStart(s: string): (t: string)
    ensures |t| <= |s| && t == s[|s| - |t|..]
    ensures forall i :: 0 <= i < |s| - |t| ==> IsWhiteSpace(s[i])
    ensures |t| > 0 ==> !IsWhiteSpace(t[0])
  {
    if |s| > 0 && IsWhiteSpace(s[0]) then TrimStart(s[1..]) else s
  }

  function TrimEnd(s: string): (t: string)
    ensures |t| <= |s| && t == s[..|t|]
    ensures forall i :: |t| <= i < |s| ==> IsWhiteSpace(s[i])
    ensures |t| > 0 ==> !IsWhiteSpace(t[|t| - 1])
  {
    if |s| > 0 && IsWhiteSpace(s[|s| - 1]) then TrimEnd(s[..|s| - 1]) else s
  }

  /** What `long.Parse` makes of a string: a number, a `FormatException`
      (`NotANumber`) or an `OverflowException` (`OutOfRange`). */
  datatype LongParse = Number(value: int) | NotANumber | OutOfRange

  function Trim(s: string): string { TrimEnd(TrimStart(s)) }

  /** The digits after an optional leading sign, and whether the sign was a minus. */
  function Unsigned(t: string): (string, bool)
  {
    if |t| > 0 && (t[0] == '-' || t[0] == '+') then (t[1..], t[0] == '-') else (t, false)
  }

  /** The text without its trailing NUL characters. After the number and its trailing
      white space, `long.Parse` accepts a rest made only of '\0' (kept, in .NET, for
      compatibility). */
  function TrimTrailingNuls(s: string): (t: string)
    ensures |t| <= |s| && t == s[..|t|]
    ensures forall i :: |t| <= i < |s| ==> s[i] == '\0'
    ensures |t| > 0 ==> t[|t| - 1] != '\0'
  {
    if |s| > 0 && s[|s| - 1] == '\0' then TrimTrailingNuls(s[..|s| - 1]) else s
  }

  /** `long.Parse(s)`. */
  function ParseLong(s: string): (r: LongParse)
    ensures r.Number? ==> IsLong(r.value)
  {
    var (digits, negative) := Unsigned(Trim(TrimTrailingNuls(s)));
    if |digits| == 0 || !AllDigits(digits) then NotANumber
    else
      var n: int := DigitsValue(digits);
      var v := if negative then -n else n;
      if IsLong(v) then Number(v) else OutOfRange
  }

  /** A string that starts and ends with a non-white character is its own trim. */
  lemma TrimUntrimmed(s: string)
    requires |s| > 0 && !IsWhiteSpace(s[0]) && !IsWhiteSpace(s[|s| - 1])
    ensures Trim(s) == s
  {
  }

  /** `long.Parse` reads back exactly what `long.ToString()` wrote. */
  lemma ParseIntToString(i: int)
    requires IsLong(i)
    ensures ParseLong(IntToString(i)) == Number(i)
  {
    var s := IntToString(i);
    assert TrimTrailingNuls(s) == s;
    TrimUntrimmed(s);
    var n: nat := if i < 0 then -i else i;
    var digits := NatToString(n);
    DigitsValueOfNatToString(n);
    if i < 0 {
      assert s[1..] == digits;
      assert Unsigned(s) == (digits, true);
    } else {
      assert Unsigned(s) == (digits, false);
    }
  }

  /** NUL characters at the end are ignored: "5\0" and "5 \0" read as 5. */
  lemma TrailingNulIgnored(s: string)
    ensures ParseLong(s + ['\0']) == ParseLong(s)
  {
    var t := s + ['\0'];
    assert t[..|t| - 1] == s;
    assert TrimTrailingNuls(t) == TrimTrailingNuls(s);
  }

  /** A character that is neither white space, a sign, a digit nor NUL makes any string
      a `FormatException`, wherever it stands. */
  lemma {:induction false} ForeignCharacterIsNotANumber(s: string, j: int)
    requires 0 <= j < |s|
    requires !IsWhiteSpace(s[j]) && !IsDigit(s[j]) && s[j] != '-' && s[j] != '+' && s[j] != '\0'
    ensures ParseLong(s) == NotANumber
  {
    var z := TrimTrailingNuls(s);
    assert j < |z| && z[j] == s[j];
    ForeignCharacterIsNotANumberUntrimmed(z, j);
  }

  /** The same, before NULs are dropped: the character survives the trim. */
  lemma {:induction false} ForeignCharacterIsNotANumberUntrimmed(s: string, j: int)
    requires 0 <= j < |s|
    requires !IsWhiteSpace(s[j]) && !IsDigit(s[j]) && s[j] != '-' && s[j] != '+'
    ensures Unsigned(Trim(s)).0 == [] || !AllDigits(Unsigned(Trim(s)).0)
  {
    var u := TrimStart(s);
    var k := |s| - |u|;
    assert k <= j;
    assert u[j - k] == s[j];
    var t := TrimEnd(u);
    assert j - k < |t|;
    assert t[j - k] == s[j];
    var (digits, negative) := Unsigned(t);
    if |t| > 0 && (t[0] == '-' || t[0] == '+') {
      assert j - k >= 1;
      assert digits[j - k - 1] == s[j];
    } else {
      assert digits[j - k] == s[j];
    }
  }

  /** In particular a decimal point makes a number a `FormatException`. */
  lemma DecimalPointIsNotANumber(s: string, j: int)
    requires 0 <= j < |s| && s[j] == '.'
    ensures ParseLong(s) == NotANumber
  {
    ForeignCharacterIsNotANumber(s, j);
  }

  /** The four decimal places of `f` (a count of ten-thousandths) with the trailing zeros
      removed, as the shortest round-trip formatting of a double prints them. */
  function FractionDigits(f: nat): (s: string)
    requires 0 < f < 10_000
  {
    var d := [DigitChar(f / 1000), DigitChar(f / 100 % 10), DigitChar(f / 10 % 10), DigitChar(f % 10)];
    if f % 1000 == 0 then d[..1]
    else if f % 100 == 0 then d[..2]
    else if f % 10 == 0 then d[..3]
    else d
  }

  /** `TimeSpan.TotalMilliseconds.ToString()` of a span given in ticks, rendered as the
      exact decimal value of the millisecond count (the double precision of
      `TotalMilliseconds` is not modelled). */
  function MillisecondsText(span: int): (s: string)
  {
    var a := Abs(span);
    var whole, frac := a / TicksPerMillisecond, a % TicksPerMillisecond;
    (if span < 0 then "-" else "") + NatToString(whole)
      + (if frac == 0 then "" else "." + FractionDigits(frac))
  }

  /** The millisecond text is never empty and never holds a new line. */
  lemma MillisecondsTextIsOneLine(span: int)
    ensures MillisecondsText(span) != "" && '\n' !in MillisecondsText(span)
  {
    var a := Abs(span);
    var digits := NatToString(a / TicksPerMillisecond);
    assert '\n' !in digits;
    if a % TicksPerMillisecond != 0 {
      var f := FractionDigits(a % TicksPerMillisecond);
      assert forall i :: 0 <= i < |f| ==> IsDigit(f[i]);
      assert '\n' !in f;
    }
  }

  /** A whole number of milliseconds is written as an integer... */
  lemma WholeMillisecondsText(span: int)
    requires IsWholeMilliseconds(span)
    ensures MillisecondsText(span) == IntToString(span / TicksPerMillisecond)
  {
    if span < 0 {
      assert Abs(span) / TicksPerMillisecond == -(span / TicksPerMillisecond);
    }
  }

  /** ...and any other span is written with a decimal point, so reading it back with
      `long.Parse` is a `FormatException`. */
  lemma FractionalMillisecondsNotANumber(span: int)
    requires !IsWholeMilliseconds(span)
    ensures ParseLong(MillisecondsText(span)) == NotANumber
  {
    var a := Abs(span);
    assert a % TicksPerMillisecond != 0;
    var prefix := (if span < 0 then "-" else "") + NatToString(a / TicksPerMillisecond);
    var s := MillisecondsText(span);
    assert s == prefix + "." + FractionDigits(a % TicksPerMillisecond);
    assert s[|prefix|] == '.';
    DecimalPointIsNotANumber(s, |prefix|);
  }
}
