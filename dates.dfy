/** Calendar dates and times of day.

    A `LocalDate` is a valid proleptic Gregorian (year, month, day) triple,
    ordered as the calendar orders it; `plusDays` steps through the calendar
    one day at a time. A `LocalTime` is its minute of the day, and
    `plusMinutes`/`minusMinutes` wrap around midnight as `LocalTime` does.
    `LocalDate.parse` is modelled for the ISO form yyyy-MM-dd with a
    four-digit year, under the strict resolver of
    `DateTimeFormatter.ISO_LOCAL_DATE`.
 */
module Dates {
  import opened Wrappers
  import opened Text

  const MINUTES_PER_DAY: int := 1440
  type Minute = m: int | 0 <= m < MINUTES_PER_DAY

  /** `LocalTime.of(h, m)`. */
  function TimeOf(h: nat, m: nat): (t: Minute)
    requires h < 24 && m < 60
    ensures t / 60 == h && t % 60 == m
  {
    h * 60 + m
  }

  /** `LocalTime.plusMinutes`: arithmetic modulo one day. */
  function PlusMinutes(t: Minute, n: int): (r: Minute)
    ensures (r - t - n) % MINUTES_PER_DAY == 0
  {
    (t + n) % MINUTES_PER_DAY
  }

  predicate IsLeapYear(y: int) { y % 4 == 0 && (y % 100 != 0 || y % 400 == 0) }

  function DaysInMonth(y: int, m: int): (n: int)
    requires 1 <= m <= 12
    ensures 28 <= n <= 31
  {
    if m == 2 then (if IsLeapYear(y) then 29 else 28)
    else if m == 4 || m == 6 || m == 9 || m == 11 then 30
    else 31
  }

  datatype Ymd = Ymd(year: int, month: int, day: int)

  predicate ValidYmd(d: Ymd) { 1 <= d.month <= 12 && 1 <= d.day <= DaysInMonth(d.year, d.month) }

  type Date = d: Ymd | ValidYmd(d) witness Ymd(1970, 1, 1)

  /** `a.isBefore(b)`. */
  predicate Before(a: Date, b: Date) {
    a.year < b.year || (a.year == b.year && (a.month < b.month || (a.month == b.month && a.day < b.day)))
  }

  lemma BeforeTransitive(a: Date, b: Date, c: Date)
    requires Before(a, b) && Before(b, c)
    ensures Before(a, c)
  {
  }

  /** Exactly one of a < b, a == b, b < a holds. */
  lemma BeforeTotal(a: Date, b: Date)
    ensures Before(a, b) || a == b || Before(b, a)
    ensures !(Before(a, b) && Before(b, a)) && !Before(a, a)
  {
  }

  /** `d.plusDays(1)`. */
  function NextDate(d: Date): (r: Date)
    ensures Before(d, r)
  {
    if d.day < DaysInMonth(d.year, d.month) then Ymd(d.year, d.month, d.day + 1)
    else if d.month < 12 then Ymd(d.year, d.month + 1, 1)
    else Ymd(d.year + 1, 1, 1)
  }

  /** `d.plusDays(n)` for n >= 0. */
  function PlusDays(d: Date, n: nat): Date
    decreases n
  {
    if n == 0 then d else PlusDays(NextDate(d), n - 1)
  }

  /** Adding a positive number of days gives a strictly later date. */
  lemma {:induction false} PlusDaysLater(d: Date, n: nat)
    requires n > 0
    ensures Before(d, PlusDays(d, n))
    decreases n
  {
    if n > 1 {
      PlusDaysLater(NextDate(d), n - 1);
      BeforeTransitive(d, NextDate(d), PlusDays(d, n));
    }
  }

  /** No date lies strictly between a date and the next one. */
  lemma NextDateImmediate(d: Date, e: Date)
    requires Before(d, e)
    ensures NextDate(d) == e || Before(NextDate(d), e)
  {
  }

  datatype DateTime = DateTime(date: Date, time: Minute)

  /** `a.isBefore(b)` on date-times. */
  predicate Earlier(a: DateTime, b: DateTime) {
    Before(a.date, b.date) || (a.date == b.date && a.time < b.time)
  }

  lemma EarlierTransitive(a: DateTime, b: DateTime, c: DateTime)
    requires Earlier(a, b) && Earlier(b, c)
    ensures Earlier(a, c)
  {
    if Before(a.date, b.date) && Before(b.date, c.date) {
      BeforeTransitive(a.date, b.date, c.date);
    }
  }

  /** `date.atTime(h, m)`. */
  function AtTime(d: Date, h: nat, m: nat): (r: DateTime)
    requires h < 24 && m < 60
    ensures r.date == d && r.time == TimeOf(h, m)
  {
    DateTime(d, TimeOf(h, m))
  }

  // ---- ISO yyyy-MM-dd ----

  lemma Value1(c: char)
    requires IsDigit(c)
    ensures DigitsValue([c]) == DigitValue(c)
  {
    assert [c][..0] == [];
  }

  lemma Value2(s: string)
    requires |s| == 2 && AllDigits(s)
    ensures DigitsValue(s) == DigitValue(s[0]) * 10 + DigitValue(s[1])
  {
    assert s[..1] == [s[0]];
    Value1(s[0]);
  }

  lemma Value4(s: string)
    requires |s| == 4 && AllDigits(s)
    ensures DigitsValue(s) == DigitValue(s[0]) * 1000 + DigitValue(s[1]) * 100 + DigitValue(s[2]) * 10 + DigitValue(s[3])
  {
    assert s[..3][..2] == s[..2];
    Value2(s[..2]);
  }

  function Digits2(n: nat): (s: string)
    requires n < 100
    ensures |s| == 2 && AllDigits(s) && DigitsValue(s) == n
  {
    var s := [DigitChar(n / 10), DigitChar(n % 10)];
    Value2(s);
    s
  }

  function Digits4(n: nat): (s: string)
    requires n < 10000
    ensures |s| == 4 && AllDigits(s) && DigitsValue(s) == n
  {
    var r1 := n % 1000;
    var r2 := r1 % 100;
    var s := [DigitChar(n / 1000), DigitChar(r1 / 100), DigitChar(r2 / 10), DigitChar(r2 % 10)];
    assert n == n / 1000 * 1000 + r1;
    assert r1 == r1 / 100 * 100 + r2;
    Value4(s);
    s
  }

  /** `LocalDate.toString()` for a year from 0 to 9999. */
  function FormatIsoDate(d: Date): (s: string)
    requires 0 <= d.year <= 9999
    ensures |s| == 10
  {
    Digits4(d.year) + "-" + Digits2(d.month) + "-" + Digits2(d.day)
  }

  /** `LocalDate.parse(s)`; None stands for DateTimeParseException. */
  function ParseIsoDate(s: string): Option<Date>
  {
    if |s| == 10 && s[4] == '-' && s[7] == '-' &&
       AllDigits(s[..4]) && AllDigits(s[5..7]) && AllDigits(s[8..])
    then
      var d := Ymd(DigitsValue(s[..4]), DigitsValue(s[5..7]), DigitsValue(s[8..]));
      if ValidYmd(d) then Some(d) else None
    else None
  }

  /** Printing a date and parsing it back gives that date. */
  lemma ParseFormatRoundTrip(d: Date)
    requires 0 <= d.year <= 9999
    ensures ParseIsoDate(FormatIsoDate(d)) == Some(d)
  {
    var s := FormatIsoDate(d);
    assert s[..4] == Digits4(d.year);
    assert s[5..7] == Digits2(d.month);
    assert s[8..] == Digits2(d.day);
  }

  /** The parser accepts nothing but the printed forms of valid dates. */
  lemma ParseOnlyIsoDates(s: string)
    requires ParseIsoDate(s).Some?
    ensures 0 <= ParseIsoDate(s).value.year <= 9999
    ensures FormatIsoDate(ParseIsoDate(s).value) == s
  {
    var d := ParseIsoDate(s).value;
    DigitsBound4(s[..4]);
    DigitsBound2(s[5..7]);
    DigitsBound2(s[8..]);
    DigitsInjective2(Digits2(d.month), s[5..7]);
    DigitsInjective2(Digits2(d.day), s[8..]);
    DigitsInjective4(Digits4(d.year), s[..4]);
    assert s == s[..4] + "-" + s[5..7] + "-" + s[8..];
  }

  lemma DigitsBound2(s: string)
    requires |s| == 2 && AllDigits(s)
    ensures DigitsValue(s) < 100
  {
    Value2(s);
  }

  lemma DigitsBound4(s: string)
    requires |s| == 4 && AllDigits(s)
    ensures DigitsValue(s) < 10000
  {
    Value4(s);
  }

  lemma DigitsInjective2(s: string, t: string)
    requires |s| == 2 && AllDigits(s) && |t| == 2 && AllDigits(t) && DigitsValue(s) == DigitsValue(t)
    ensures s == t
  {
    Value2(s);
    Value2(t);
    DigitValueInjective(s[0], t[0]);
    DigitValueInjective(s[1], t[1]);
  }

  lemma DigitsInjective4(s: string, t: string)
    requires |s| == 4 && AllDigits(s) && |t| == 4 && AllDigits(t) && DigitsValue(s) == DigitsValue(t)
    ensures s == t
  {
    Value4(s);
    Value4(t);
    DigitValueInjective(s[0], t[0]);
    DigitValueInjective(s[1], t[1]);
    DigitValueInjective(s[2], t[2]);
    DigitValueInjective(s[3], t[3]);
  }

  lemma DigitValueInjective(a: char, b: char)
    requires IsDigit(a) && IsDigit(b) && DigitValue(a) == DigitValue(b)
    ensures a == b
  {
  }
}
