/**
 * The model's stand-in for `new Date(s)` on the local date-time strings the
 * components build and store: `YYYY-MM-DDTHH:MM` and `YYYY-MM-DDTHH:MM:SS`.
 * A string of another shape, or with a field out of range, is an Invalid
 * Date (`None`, JavaScript's NaN), and every comparison with it is false.
 * An instant is a number that orders date-times chronologically.
 */
module Timestamps {
  import opened Options

  datatype DateTime = DateTime(year: nat, month: nat, day: nat, hour: nat, minute: nat, second: nat)

  /** The fields are in the ranges a date-time string may carry. */
  predicate InRange(d: DateTime)
  {
    1 <= d.month <= 12 && 1 <= d.day <= 31 && d.hour < 24 && d.minute < 60 && d.second < 60
  }

  /** Chronological order of two date-times: compare field by field, most significant first. */
  predicate Earlier(d1: DateTime, d2: DateTime)
  {
    d1.year < d2.year || (d1.year == d2.year &&
    (d1.month < d2.month || (d1.month == d2.month &&
    (d1.day < d2.day || (d1.day == d2.day &&
    (d1.hour < d2.hour || (d1.hour == d2.hour &&
    (d1.minute < d2.minute || (d1.minute == d2.minute &&
    d1.second < d2.second)))))))))
  }

  // ---------------------------------------------------------------------------
  // Parsing
  // ---------------------------------------------------------------------------

  predicate IsDigit(c: char) { '0' <= c <= '9' }

  function Digit(c: char): nat
    requires IsDigit(c)
  {
    c as int - '0' as int
  }

  /** Two decimal digits at `s[i]`, `s[i + 1]`. */
  predicate DigitsAt(s: string, i: nat)
  {
    i + 2 <= |s| && IsDigit(s[i]) && IsDigit(s[i + 1])
  }

  function TwoDigits(s: string, i: nat): nat
    requires DigitsAt(s, i)
  {
    10 * Digit(s[i]) + Digit(s[i + 1])
  }

  /** `s` reads `YYYY-MM-DDTHH:MM`, optionally followed by `:SS`. */
  predicate Shaped(s: string)
  {
    (|s| == 16 || (|s| == 19 && s[16] == ':' && DigitsAt(s, 17))) &&
    DigitsAt(s, 0) && DigitsAt(s, 2) && s[4] == '-' &&
    DigitsAt(s, 5) && s[7] == '-' && DigitsAt(s, 8) && s[10] == 'T' &&
    DigitsAt(s, 11) && s[13] == ':' && DigitsAt(s, 14)
  }

  /** The fields a shaped string spells; the seconds are 0 when absent. */
  function Fields(s: string): DateTime
    requires Shaped(s)
  {
    DateTime(100 * TwoDigits(s, 0) + TwoDigits(s, 2), TwoDigits(s, 5), TwoDigits(s, 8),
             TwoDigits(s, 11), TwoDigits(s, 14), if |s| == 19 then TwoDigits(s, 17) else 0)
  }

  function Parse(s: string): (r: Option<DateTime>)
    ensures r.Some? ==> InRange(r.value) && r.value.year < 10000
  {
    if Shaped(s) && InRange(Fields(s)) then Some(Fields(s)) else None
  }

  // ---------------------------------------------------------------------------
  // Formatting, the inverse of parsing
  // ---------------------------------------------------------------------------

  function DigitChar(n: nat): char
    requires n < 10
  {
    ('0' as int + n) as char
  }

  /** The tens digit of a two-digit number. */
  function Tens(n: nat): char
    requires n < 100
  {
    DigitChar(n / 10)
  }

  /** The units digit of a two-digit number. */
  function Units(n: nat): char
    requires n < 100
  {
    DigitChar(n % 10)
  }

  /** The `YYYY-MM-DDTHH:MM:SS` spelling of a date-time, each field zero-padded to its width. */
  function Format(d: DateTime): (s: string)
    requires InRange(d) && d.year < 10000
    ensures |s| == 19
  {
    var hi, lo := d.year / 100, d.year % 100;
    [Tens(hi), Units(hi), Tens(lo), Units(lo), '-', Tens(d.month), Units(d.month), '-',
     Tens(d.day), Units(d.day), 'T', Tens(d.hour), Units(d.hour), ':',
     Tens(d.minute), Units(d.minute), ':', Tens(d.second), Units(d.second)]
  }

  /** Two padded digits read back as the number they spell. */
  lemma PaddedDigits(s: string, i: nat, n: nat)
    requires n < 100 && i + 2 <= |s| && s[i] == Tens(n) && s[i + 1] == Units(n)
    ensures DigitsAt(s, i) && TwoDigits(s, i) == n
  {
  }

  /** Parsing a formatted date-time gives it back. */
  lemma ParseFormat(d: DateTime)
    requires InRange(d) && d.year < 10000
    ensures Parse(Format(d)) == Some(d)
  {
    var s := Format(d);
    PaddedDigits(s, 0, d.year / 100);
    PaddedDigits(s, 2, d.year % 100);
    PaddedDigits(s, 5, d.month);
    PaddedDigits(s, 8, d.day);
    PaddedDigits(s, 11, d.hour);
    PaddedDigits(s, 14, d.minute);
    PaddedDigits(s, 17, d.second);
    assert Shaped(s);
    assert Fields(s) == d;
  }

  /** Two digits are the padded spelling of the number they read as. */
  lemma DigitsPadded(s: string, i: nat)
    requires DigitsAt(s, i)
    ensures TwoDigits(s, i) < 100 && s[i] == Tens(TwoDigits(s, i)) && s[i + 1] == Units(TwoDigits(s, i))
  {
    var n := TwoDigits(s, i);
    assert n / 10 == Digit(s[i]) && n % 10 == Digit(s[i + 1]);
  }

  /** Formatting what a full-length string parses to spells that string again. */
  lemma FormatParse(s: string)
    requires |s| == 19 && Parse(s).Some?
    ensures Format(Parse(s).value) == s
  {
    var d := Parse(s).value;
    DigitsPadded(s, 0);
    DigitsPadded(s, 2);
    DigitsPadded(s, 5);
    DigitsPadded(s, 8);
    DigitsPadded(s, 11);
    DigitsPadded(s, 14);
    DigitsPadded(s, 17);
    assert d.year / 100 == TwoDigits(s, 0) && d.year % 100 == TwoDigits(s, 2);
    var f := Format(d);
    assert forall k :: 0 <= k < 19 ==> f[k] == s[k];
  }

  /** A string without seconds denotes the same date-time as the string with `:00` added. */
  lemma SecondsDefaultToZero(s: string)
    requires |s| == 16
    ensures Parse(s + ":00") == Parse(s)
  {
    var t := s + ":00";
    assert forall k :: 0 <= k < 16 ==> t[k] == s[k];
    assert t[16] == ':' && t[17] == '0' && t[18] == '0';
    if Shaped(s) {
      assert Shaped(t);
      assert Fields(t) == Fields(s);
    } else {
      assert !Shaped(t);
    }
  }

  // ---------------------------------------------------------------------------
  // Instants
  // ---------------------------------------------------------------------------

  /** Mixed-radix step: `a * base + b` with `b` a digit below `base`. */
  function Step(a: nat, b: nat, base: nat): nat
  {
    a * base + b
  }

  /** The number of seconds since year 0, counting every month as 31 days. */
  function Encode(d: DateTime): nat
    requires InRange(d)
  {
    Step(Step(Step(DayNumber(d), d.hour, 24), d.minute, 60), d.second, 60)
  }

  /** A mixed-radix step orders like its pair of digits, most significant first. */
  lemma StepOrder(a1: nat, b1: nat, a2: nat, b2: nat, base: nat)
    requires b1 < base && b2 < base
    ensures Step(a1, b1, base) < Step(a2, b2, base) <==> a1 < a2 || (a1 == a2 && b1 < b2)
    ensures Step(a1, b1, base) == Step(a2, b2, base) <==> a1 == a2 && b1 == b2
  {
    if a1 < a2 {
      assert (a1 + 1) * base <= a2 * base;
    } else if a2 < a1 {
      assert (a2 + 1) * base <= a1 * base;
    }
  }

  /** The number of days since year 0, counting every month as 31 days. */
  function DayNumber(d: DateTime): nat
    requires InRange(d)
  {
    Step(Step(d.year, d.month - 1, 12), d.day - 1, 31)
  }

  /** Day numbers order calendar days chronologically. */
  lemma DayNumberOrder(d1: DateTime, d2: DateTime)
    requires InRange(d1) && InRange(d2)
    ensures DayNumber(d1) < DayNumber(d2) <==>
              d1.year < d2.year || (d1.year == d2.year && (d1.month < d2.month || (d1.month == d2.month && d1.day < d2.day)))
    ensures DayNumber(d1) == DayNumber(d2) <==> d1.year == d2.year && d1.month == d2.month && d1.day == d2.day
  {
    var m1, m2 := Step(d1.year, d1.month - 1, 12), Step(d2.year, d2.month - 1, 12);
    StepOrder(d1.year, d1.month - 1, d2.year, d2.month - 1, 12);
    StepOrder(m1, d1.day - 1, m2, d2.day - 1, 31);
  }

  /** Instants order date-times chronologically, and distinct date-times have distinct instants. */
  lemma EncodeOrder(d1: DateTime, d2: DateTime)
    requires InRange(d1) && InRange(d2)
    ensures Encode(d1) < Encode(d2) <==> Earlier(d1, d2)
    ensures Encode(d1) == Encode(d2) <==> d1 == d2
  {
    var y1, y2 := DayNumber(d1), DayNumber(d2);
    DayNumberOrder(d1, d2);
    var h1, h2 := Step(y1, d1.hour, 24), Step(y2, d2.hour, 24);
    StepOrder(y1, d1.hour, y2, d2.hour, 24);
    var n1, n2 := Step(h1, d1.minute, 60), Step(h2, d2.minute, 60);
    StepOrder(h1, d1.minute, h2, d2.minute, 60);
    StepOrder(n1, d1.second, n2, d2.second, 60);
  }

  /** `new Date(s).getTime()`, up to the host's time zone: `None` is an Invalid Date. */
  function Instant(s: string): Option<int>
  {
    match Parse(s)
    case None => None
    case Some(d) => Some(Encode(d))
  }

  /** `new Date(a) <= new Date(b)`: false when either side is NaN. */
  predicate AtOrBefore(a: Option<int>, b: Option<int>)
  {
    a.Some? && b.Some? && a.value <= b.value
  }

  /** `new Date(a) < new Date(b)`: false when either side is NaN. */
  predicate Before(a: Option<int>, b: Option<int>)
  {
    a.Some? && b.Some? && a.value < b.value
  }

  /** Comparing instants of well-formed strings is comparing their date-times chronologically. */
  lemma InstantOrder(a: string, b: string)
    requires Parse(a).Some? && Parse(b).Some?
    ensures Before(Instant(a), Instant(b)) <==> Earlier(Parse(a).value, Parse(b).value)
    ensures Instant(a) == Instant(b) <==> Parse(a) == Parse(b)
  {
    EncodeOrder(Parse(a).value, Parse(b).value);
  }
}
