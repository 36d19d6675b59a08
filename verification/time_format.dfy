/**
 * The time display of the audio widgets: `formatTime` renders a duration in
 * seconds as `M:SS`, or as `H:MM:SS` from one hour up, and renders anything
 * that is not a finite, non-negative number as `0:00`.
 *
 * The script works on doubles; here a number is either `NonFinite` (NaN or an
 * infinity) or a `Finite` real. Everything after `Math.floor` is integer
 * arithmetic on `FormatClock`, whose inverse `ParseClock` reads the text back.
 */
module TimeFormat {
  import opened Wrappers

  /** A JavaScript number: NaN and the infinities, or a finite value. */
  datatype Num = NonFinite | Finite(value: real)

  datatype Clock = Clock(hours: nat, minutes: nat, seconds: nat)

  predicate IsDigit(c: char) { '0' <= c <= '9' }

  predicate AllDigits(s: string) { forall i :: 0 <= i < |s| ==> IsDigit(s[i]) }

  function DigitChar(d: nat): (c: char)
    requires d < 10
    ensures IsDigit(c)
  {
    ('0' as int + d) as char
  }

  function DigitValue(c: char): (d: nat)
    requires IsDigit(c)
    ensures d < 10
  {
    c as int - '0' as int
  }

  /** `String(n)` for a non-negative integer: decimal, no leading zero. */
  function Decimal(n: nat): (s: string)
    ensures 1 <= |s| && AllDigits(s)
    ensures |s| == 1 <==> n < 10
    ensures s[0] == '0' ==> n == 0
  {
    if n < 10 then [DigitChar(n)] else Decimal(n / 10) + [DigitChar(n % 10)]
  }

  /** `String(n).padStart(2, "0")`. */
  function Pad2(n: nat): (s: string)
    ensures AllDigits(s)
    ensures n < 100 ==> |s| == 2
  {
    var d := Decimal(n);
    if |d| < 2 then "0" + d else d
  }

  /** The hours, minutes and seconds fields of a whole number of seconds. */
  function Split(total: nat): (c: Clock)
    ensures c.hours * 3600 + c.minutes * 60 + c.seconds == total
    ensures c.minutes < 60 && c.seconds < 60
  {
    var h, rest := total / 3600, total % 3600;
    var c := Clock(h, rest / 60, rest % 60);
    assert total % 60 == rest % 60 by {
      assert total == h * 3600 + rest;
      assert total == (h * 60 + rest / 60) * 60 + rest % 60;
    }
    c
  }

  /**
   * `formatTime` once `Math.floor` has produced a non-negative integer: at
   * least `m:ss`, with a colon before the two characters of the seconds.
   */
  function FormatClock(total: nat): (s: string)
    ensures |s| >= 4 && s[|s| - 3] == ':'
  {
    var c := Split(total);
    if c.hours > 0 then
      Decimal(c.hours) + ":" + Pad2(c.minutes) + ":" + Pad2(c.seconds)
    else
      Decimal(c.minutes) + ":" + Pad2(c.seconds)
  }

  /** `formatTime(seconds)`: "0:00" for NaN, the infinities and negative values. */
  function FormatTime(t: Num): (s: string)
    ensures t.NonFinite? || t.value < 0.0 ==> s == "0:00"
  {
    if t.NonFinite? || t.value < 0.0 then "0:00" else FormatClock(t.value.Floor)
  }

  /** The whole seconds that `FormatTime` shows: the floor of a finite non-negative value, else 0. */
  function ShownSeconds(t: Num): nat
  {
    if t.NonFinite? || t.value < 0.0 then 0 else t.value.Floor
  }

  // ---------------------------------------------------------------------------
  // Reading the text back

  /** The value of a string of decimal digits. */
  function DigitsValue(s: string): nat
    requires AllDigits(s)
  {
    if s == [] then 0 else DigitsValue(s[..|s| - 1]) * 10 + DigitValue(s[|s| - 1])
  }

  function ParseDigits(s: string): Option<nat>
  {
    if s != [] && AllDigits(s) then Some(DigitsValue(s)) else None
  }

  /** `s` cut at every occurrence of `sep`; a string without `sep` is one field. */
  function Fields(s: string, sep: char): (f: seq<string>)
    ensures |f| >= 1
  {
    if s == [] then [""]
    else
      var rest := Fields(s[1..], sep);
      if s[0] == sep then [""] + rest else [[s[0]] + rest[0]] + rest[1..]
  }

  /** A two-digit minute or second field below 60. */
  function ParseSexagesimal(s: string): Option<nat>
  {
    match ParseDigits(s)
    case Some(v) => if |s| == 2 && v < 60 then Some(v) else None
    case None => None
  }

  /**
   * The number of seconds a `M:SS` or `H:MM:SS` text stands for, with two-digit
   * fields below 60 after the first one, and `None` for any other text.
   */
  function ParseClock(s: string): Option<nat>
  {
    var f := Fields(s, ':');
    if |f| == 2 then
      match (ParseDigits(f[0]), ParseSexagesimal(f[1]))
      case (Some(m), Some(sec)) => Some(m * 60 + sec)
      case _ => None
    else if |f| == 3 then
      match (ParseDigits(f[0]), ParseSexagesimal(f[1]), ParseSexagesimal(f[2]))
      case (Some(h), Some(m), Some(sec)) => Some(h * 3600 + m * 60 + sec)
      case _ => None
    else None
  }

  // ---------------------------------------------------------------------------
  // Lemmas

  lemma {:induction false} DecimalValue(n: nat)
    ensures DigitsValue(Decimal(n)) == n
  {
    if n >= 10 {
      var d := Decimal(n);
      assert d[..|d| - 1] == Decimal(n / 10);
      DecimalValue(n / 10);
    }
  }

  lemma Pad2Value(n: nat)
    requires n < 60
    ensures ParseSexagesimal(Pad2(n)) == Some(n)
  {
    DecimalValue(n);
    var d := Decimal(n);
    if n < 10 {
      var p := "0" + d;
      assert p == Pad2(n) && |p| == 2;
      assert p[..1] == "0" && "0"[..0] == [];
      assert p[1] == DigitChar(n) && DigitValue(DigitChar(n)) == n;
      assert DigitsValue("0") == 0;
      assert DigitsValue(p) == DigitsValue(p[..1]) * 10 + n;
    }
  }

  lemma DigitsHaveNoSeparator(s: string, sep: char)
    requires AllDigits(s) && !IsDigit(sep)
    ensures sep !in s
  {
  }

  lemma {:induction false} FieldsOne(a: string, sep: char)
    requires sep !in a
    ensures Fields(a, sep) == [a]
  {
    if a != [] {
      FieldsOne(a[1..], sep);
      assert [a[0]] + a[1..] == a;
    }
  }

  lemma {:induction false} FieldsCons(a: string, sep: char, b: string)
    requires sep !in a
    ensures Fields(a + [sep] + b, sep) == [a] + Fields(b, sep)
  {
    if a == [] {
      assert a + [sep] + b == [sep] + b;
      assert ([sep] + b)[1..] == b;
    } else {
      var s := a + [sep] + b;
      assert s[1..] == a[1..] + [sep] + b;
      FieldsCons(a[1..], sep, b);
      assert [a[0]] + a[1..] == a;
    }
  }

  /** Two separator-free fields joined by the separator split back into those two. */
  lemma FieldsTwo(a: string, b: string)
    requires AllDigits(a) && AllDigits(b)
    ensures Fields(a + ":" + b, ':') == [a, b]
  {
    DigitsHaveNoSeparator(a, ':');
    DigitsHaveNoSeparator(b, ':');
    FieldsCons(a, ':', b);
    FieldsOne(b, ':');
  }

  /** Three separator-free fields joined by the separator split back into those three. */
  lemma FieldsThree(a: string, b: string, c: string)
    requires AllDigits(a) && AllDigits(b) && AllDigits(c)
    ensures Fields(a + ":" + b + ":" + c, ':') == [a, b, c]
  {
    DigitsHaveNoSeparator(a, ':');
    assert a + ":" + b + ":" + c == a + [':'] + (b + ":" + c);
    FieldsCons(a, ':', b + ":" + c);
    FieldsTwo(b, c);
  }

  /** `FormatClock` below one hour: two fields, `minutes:SS`. */
  lemma FormatBelowHour(total: nat)
    requires total < 3600
    ensures Fields(FormatClock(total), ':') == [Decimal(total / 60), Pad2(total % 60)]
  {
    var c := Split(total);
    assert c == Clock(0, total / 60, total % 60);
    FieldsTwo(Decimal(c.minutes), Pad2(c.seconds));
  }

  /** `FormatClock` from one hour up: three fields, `hours:MM:SS`. */
  lemma FormatFromHour(total: nat)
    requires total >= 3600
    ensures Fields(FormatClock(total), ':') == [Decimal(total / 3600), Pad2(total % 3600 / 60), Pad2(total % 60)]
  {
    var c := Split(total);
    assert c == Clock(total / 3600, total % 3600 / 60, total % 60);
    FieldsThree(Decimal(c.hours), Pad2(c.minutes), Pad2(c.seconds));
  }

  lemma RoundTripBelowHour(total: nat)
    requires total < 3600
    ensures ParseClock(FormatClock(total)) == Some(total)
  {
    var m, sec := total / 60, total % 60;
    FormatBelowHour(total);
    DecimalValue(m);
    Pad2Value(sec);
    assert ParseDigits(Decimal(m)) == Some(m);
  }

  lemma RoundTripFromHour(total: nat)
    requires total >= 3600
    ensures ParseClock(FormatClock(total)) == Some(total)
  {
    var c := Split(total);
    assert c == Clock(total / 3600, total % 3600 / 60, total % 60);
    FormatFromHour(total);
    ParseThreeFields(FormatClock(total), c.hours, c.minutes, c.seconds);
  }

  /** A text whose fields are an hour count and two padded numbers below 60 reads back as their seconds. */
  lemma ParseThreeFields(s: string, h: nat, m: nat, sec: nat)
    requires m < 60 && sec < 60
    requires Fields(s, ':') == [Decimal(h), Pad2(m), Pad2(sec)]
    ensures ParseClock(s) == Some(h * 3600 + m * 60 + sec)
  {
    DecimalValue(h);
    Pad2Value(m);
    Pad2Value(sec);
    assert ParseDigits(Decimal(h)) == Some(h);
  }


  /**
   * The text has an hour field exactly from 3600 seconds up, every field after
   * the first has two digits, and it reads back as the number it was made from.
   */
  lemma FormatClockRoundTrip(total: nat)
    ensures |Fields(FormatClock(total), ':')| == (if total < 3600 then 2 else 3)
    ensures ParseClock(FormatClock(total)) == Some(total)
  {
    if total < 3600 {
      FormatBelowHour(total);
      RoundTripBelowHour(total);
    } else {
      FormatFromHour(total);
      RoundTripFromHour(total);
    }
  }

  /** Different whole numbers of seconds never render as the same text. */
  lemma FormatClockInjective(a: nat, b: nat)
    requires FormatClock(a) == FormatClock(b)
    ensures a == b
  {
    FormatClockRoundTrip(a);
    FormatClockRoundTrip(b);
  }

  /** `formatTime` always produces a valid clock text, for the floored input or 0. */
  lemma FormatTimeRoundTrip(t: Num)
    ensures ParseClock(FormatTime(t)) == Some(ShownSeconds(t))
  {
    FormatClockRoundTrip(ShownSeconds(t));
    if t.NonFinite? || t.value < 0.0 {
      ZeroFormat();
    }
  }

  lemma ZeroFormat()
    ensures FormatClock(0) == "0:00"
  {
    assert Split(0) == Clock(0, 0, 0);
    assert Decimal(0) == "0";
  }

  /** The worked values of `formatTime`: 0, 65 and 65.9 seconds, one hour one minute one second, NaN, -5. */
  lemma FormatTimeExamples()
    ensures FormatTime(Finite(0.0)) == "0:00"
    ensures FormatTime(Finite(65.0)) == "1:05"
    ensures FormatTime(Finite(65.9)) == "1:05"
    ensures FormatTime(Finite(3661.0)) == "1:01:01"
    ensures FormatTime(NonFinite) == "0:00"
    ensures FormatTime(Finite(-5.0)) == "0:00"
  {
    ZeroFormat();
    assert (65.9).Floor == 65 && (65.0).Floor == 65 && (3661.0).Floor == 3661;
    Format65();
    Format3661();
  }

  lemma Format65()
    ensures FormatClock(65) == "1:05"
  {
    assert Split(65) == Clock(0, 1, 5);
    assert Decimal(1) == "1" && Decimal(5) == "5";
  }

  lemma Format3661()
    ensures FormatClock(3661) == "1:01:01"
  {
    assert Split(3661) == Clock(1, 1, 1);
    assert Decimal(1) == "1";
    assert Pad2(1) == "01";
  }
}
