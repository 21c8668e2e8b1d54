/** `formatTime` of the route cards: a duration in whole minutes shown as
    "<hours> ч <minutes> мин", with the hours part left out below one hour.
    The hours are floored and the minutes are JavaScript's remainder, whose
    sign follows the dividend. */
module TimeFormat {
  import opened Wrappers

  /** `Math.floor(minutes / 60)`; Dafny's division by a positive divisor
      rounds down as well. */
  function HoursPart(m: int): int {
    m / 60
  }

  /** `minutes % 60`: the remainder of the division truncated toward zero,
      negative for a negative duration. */
  function MinutesPart(m: int): int {
    if m >= 0 then m % 60 else -((-m) % 60)
  }

  /** For a non-negative duration the two parts recombine to it and the
      minutes stay below an hour; the hours part is positive exactly from
      60 minutes on; the minutes part never reaches an hour either way. */
  lemma SplitTime(m: int)
    ensures m >= 0 ==> HoursPart(m) * 60 + MinutesPart(m) == m && 0 <= MinutesPart(m) < 60
    ensures HoursPart(m) > 0 <==> m >= 60
    ensures -60 < MinutesPart(m) < 60
    ensures MinutesPart(m) < 0 ==> m < 0
  {
  }

  predicate IsDigit(c: char) {
    '0' <= c <= '9'
  }

  predicate AllDigits(s: string) {
    forall i :: 0 <= i < |s| ==> IsDigit(s[i])
  }

  function DigitChar(d: int): (c: char)
    requires 0 <= d < 10
    ensures IsDigit(c)
  {
    (d + '0' as int) as char
  }

  function DigitVal(c: char): (d: int)
    requires IsDigit(c)
    ensures 0 <= d < 10 && DigitChar(d) == c
  {
    c as int - '0' as int
  }

  /** The decimal numeral of a natural number, as a template literal shows
      it: at least one digit, no leading zero. */
  function NatToString(n: nat): (s: string)
    ensures |s| >= 1 && AllDigits(s)
    ensures s[0] == '0' ==> n == 0
    decreases n
  {
    if n < 10 then [DigitChar(n)] else NatToString(n / 10) + [DigitChar(n % 10)]
  }

  /** The number a string of decimal digits denotes. */
  function DigitsValue(s: string): nat
    requires AllDigits(s)
    decreases |s|
  {
    if |s| == 0 then 0 else DigitsValue(s[..|s| - 1]) * 10 + DigitVal(s[|s| - 1])
  }

  /** Reading a numeral back gives the number. */
  lemma {:induction false} DigitsRoundTrip(n: nat)
    ensures DigitsValue(NatToString(n)) == n
    decreases n
  {
    var s := NatToString(n);
    if n >= 10 {
      DigitsRoundTrip(n / 10);
      assert s[..|s| - 1] == NatToString(n / 10);
    }
  }

  /** An integer as a template literal shows it: a minus sign before the
      numeral of a negative one. */
  function IntToString(i: int): (s: string)
    ensures i >= 0 ==> s == NatToString(i)
    ensures i < 0 ==> s == "-" + NatToString(-i)
  {
    if i < 0 then "-" + NatToString(-i) else NatToString(i)
  }

  /** `formatTime(minutes)`. The text always ends in the minutes unit, and it
      opens with a minus sign exactly for a negative duration that is not a
      whole number of hours (the truncating remainder is then negative and
      the hours part, never positive, is dropped). */
  function FormatTime(m: int): (s: string)
    ensures |s| >= 5 && s[|s| - 4..] == " мин"
    ensures s[0] == '-' <==> m < 0 && (-m) % 60 != 0
    ensures s[0] != '-' ==> IsDigit(s[0])
  {
    (if HoursPart(m) > 0 then IntToString(HoursPart(m)) + " ч " else "") + IntToString(MinutesPart(m)) + " мин"
  }

  /** The number of leading decimal digits of `s`. */
  function DigitRun(s: string): (k: nat)
    ensures k <= |s|
    ensures forall i :: 0 <= i < k ==> IsDigit(s[i])
    ensures k < |s| ==> !IsDigit(s[k])
    decreases |s|
  {
    if |s| == 0 || !IsDigit(s[0]) then 0 else 1 + DigitRun(s[1..])
  }

  /** Reads a duration back from what `formatTime` shows: "<m> мин", or
      "<h> ч <m> мин" standing for `h * 60 + m`. */
  function ParseTime(s: string): Option<int> {
    var k := DigitRun(s);
    if k == 0 then None
    else
      assert AllDigits(s[..k]);
      ParseAfter(DigitsValue(s[..k]), s[k..])
  }

  /** What follows the first numeral: either the minutes unit, or the hours
      unit and a second numeral of minutes. */
  function ParseAfter(first: int, rest: string): Option<int> {
    if rest == " мин" then Some(first)
    else if |rest| >= 3 && rest[..3] == " ч " then
      var t := rest[3..];
      var j := DigitRun(t);
      assert AllDigits(t[..j]);
      if j > 0 && t[j..] == " мин" then Some(first * 60 + DigitsValue(t[..j])) else None
    else None
  }

  /** The digit run of a numeral followed by a non-digit is the numeral. */
  lemma {:induction false} RunOfNumeral(a: string, x: string)
    requires AllDigits(a)
    requires |x| > 0 && !IsDigit(x[0])
    ensures DigitRun(a + x) == |a|
    decreases |a|
  {
    if |a| > 0 {
      assert (a + x)[1..] == a[1..] + x;
      RunOfNumeral(a[1..], x);
    } else {
      assert a + x == x;
    }
  }

  /** A numeral followed by a string that starts with a non-digit splits into
      the numeral, read back as its number, and that string. */
  lemma ReadNumeral(n: nat, x: string)
    requires |x| > 0 && !IsDigit(x[0])
    ensures var s := NatToString(n) + x;
      && DigitRun(s) == |NatToString(n)|
      && s[DigitRun(s)..] == x
      && AllDigits(s[..DigitRun(s)])
      && DigitsValue(s[..DigitRun(s)]) == n
  {
    var a := NatToString(n);
    RunOfNumeral(a, x);
    assert (a + x)[..|a|] == a;
    DigitsRoundTrip(n);
  }

  lemma ParseNumeral(n: nat, x: string)
    requires |x| > 0 && !IsDigit(x[0])
    ensures ParseTime(NatToString(n) + x) == ParseAfter(n, x)
  {
    ReadNumeral(n, x);
  }

  lemma ParseHoursUnit(h: int, mm: nat)
    ensures ParseAfter(h, " ч " + (NatToString(mm) + " мин")) == Some(h * 60 + mm)
  {
    var x := " ч " + (NatToString(mm) + " мин");
    assert |x| > 4;
    assert x[..3] == " ч ";
    assert x[3..] == NatToString(mm) + " мин";
    ReadNumeral(mm, " мин");
  }

  /** From one hour on both parts are shown, the minutes below an hour. */
  lemma FormatLong(m: int)
    requires m >= 60
    ensures m / 60 > 0 && 0 <= m % 60 < 60
    ensures FormatTime(m) == NatToString(m / 60) + (" ч " + (NatToString(m % 60) + " мин"))
  {
    var a := NatToString(m / 60);
    var b := NatToString(m % 60);
    assert HoursPart(m) == m / 60 > 0;
    assert MinutesPart(m) == m % 60;
    assert FormatTime(m) == ((a + " ч ") + b) + " мин";
    assert ((a + " ч ") + b) + " мин" == a + (" ч " + (b + " мин"));
  }

  /** Below one hour only the minutes are shown. */
  lemma FormatShort(m: int)
    requires 0 <= m < 60
    ensures FormatTime(m) == NatToString(m) + " мин"
  {
    assert HoursPart(m) == 0;
    assert MinutesPart(m) == m;
    assert FormatTime(m) == "" + NatToString(m) + " мин";
    assert "" + NatToString(m) == NatToString(m);
  }

  /** From one hour on, the two numerals read back as hours and minutes. */
  lemma ReadLong(m: int)
    requires m >= 60
    ensures ParseTime(NatToString(m / 60) + (" ч " + (NatToString(m % 60) + " мин"))) == Some(m)
  {
    ParseNumeral(m / 60, " ч " + (NatToString(m % 60) + " мин"));
    ParseHoursUnit(m / 60, m % 60);
  }

  /** What `formatTime` shows for a non-negative duration reads back as the
      same number of minutes. */
  lemma FormatRoundTrip(m: int)
    requires m >= 0
    ensures ParseTime(FormatTime(m)) == Some(m)
  {
    if m >= 60 {
      FormatLong(m);
      ReadLong(m);
    } else {
      FormatShort(m);
      ParseNumeral(m, " мин");
    }
  }

  /** A negative duration shows no hours, only the truncated remainder, so
      that -90 minutes reads "-30 мин". */
  lemma FormatNegative(m: int)
    requires m < 0
    ensures (-m) % 60 != 0 ==> FormatTime(m) == "-" + NatToString((-m) % 60) + " мин"
    ensures (-m) % 60 == 0 ==> FormatTime(m) == "0 мин"
  {
  }
}
