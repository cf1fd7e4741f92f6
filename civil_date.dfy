/**
 * UTC calendar dates of instants given in whole seconds since the Unix
 * epoch: the day number, the proleptic Gregorian year, month and day of that
 * day, and its `%Y-%m-%d` text.
 */
module CivilDate {
  import opened Text

  const SecondsPerDay: int := 24 * 60 * 60

  /** `DateTime::date_naive` as a day number: days since 1970-01-01, rounding down before the epoch. */
  function UtcDay(t: int): int
  {
    t / SecondsPerDay
  }

  /** Two instants on the same UTC day are less than a day apart. */
  lemma SameDayIsClose(a: int, b: int)
    requires UtcDay(a) == UtcDay(b)
    ensures -SecondsPerDay < a - b < SecondsPerDay
  {
    var d := UtcDay(a);
    assert SecondsPerDay * d <= a < SecondsPerDay * d + SecondsPerDay;
    assert SecondsPerDay * d <= b < SecondsPerDay * d + SecondsPerDay;
  }

  /** Every instant of day `d` belongs to day `d`, and no other. */
  lemma UtcDayOf(d: int, offset: int)
    requires 0 <= offset < SecondsPerDay
    ensures UtcDay(SecondsPerDay * d + offset) == d
  {
  }

  // ---------------------------------------------------------------------------
  // The proleptic Gregorian calendar

  predicate IsLeap(y: int)
  {
    y % 4 == 0 && (y % 100 != 0 || y % 400 == 0)
  }

  function YearLength(y: int): (n: int)
    ensures n == 365 || n == 366
  {
    if IsLeap(y) then 366 else 365
  }

  function MonthLength(y: int, m: int): (n: int)
    requires 1 <= m <= 12
    ensures 28 <= n <= 31
  {
    if m == 2 then (if IsLeap(y) then 29 else 28)
    else if m == 4 || m == 6 || m == 9 || m == 11 then 30
    else 31
  }

  /** The days of months `m` to 12 of year `y`. */
  function DaysFromMonth(y: int, m: int): int
    requires 1 <= m <= 13
    decreases 13 - m
  {
    if m == 13 then 0 else MonthLength(y, m) + DaysFromMonth(y, m + 1)
  }

  /** The twelve months make up the year. */
  lemma YearIsTwelveMonths(y: int)
    ensures DaysFromMonth(y, 1) == YearLength(y)
  {
    assert DaysFromMonth(y, 12) == 31;
    assert DaysFromMonth(y, 9) == 30 + 31 + 30 + 31;
    assert DaysFromMonth(y, 5) == 31 + 30 + 31 + 31 + 30 + 31 + 30 + 31;
  }

  /** Day `rest` (from 0) of the part of year `y` that starts with month `m`, as a month and a day of the month. */
  function MonthDay(y: int, m: int, rest: int): (r: (int, int))
    requires 1 <= m <= 12 && 0 <= rest < DaysFromMonth(y, m)
    ensures m <= r.0 <= 12 && 1 <= r.1 <= MonthLength(y, r.0)
    ensures rest == DaysFromMonth(y, m) - DaysFromMonth(y, r.0) + r.1 - 1
    decreases 12 - m
  {
    if rest < MonthLength(y, m) then (m, rest + 1)
    else MonthDay(y, m + 1, rest - MonthLength(y, m))
  }

  /** The number of days from 1970-01-01 to the first of January of year `y`. */
  function YearStart(y: int): int
    decreases if y >= 1970 then y - 1970 else 1970 - y
  {
    if y == 1970 then 0
    else if y > 1970 then YearStart(y - 1) + YearLength(y - 1)
    else YearStart(y + 1) - YearLength(y)
  }

  /** Consecutive years follow each other without gap or overlap. */
  lemma YearStartStep(y: int)
    ensures YearStart(y + 1) == YearStart(y) + YearLength(y)
  {
  }

  /** Walking `rest` days from the first of January of year `y`: the year reached and the day within it. */
  function Locate(y: int, rest: int): (r: (int, int))
    ensures 0 <= r.1 < YearLength(r.0)
    ensures YearStart(r.0) + r.1 == YearStart(y) + rest
    decreases if rest < 0 then 1 else 0, if rest < 0 then -rest else rest
  {
    if rest < 0 then
      YearStartStep(y - 1);
      Locate(y - 1, rest + YearLength(y - 1))
    else if rest < YearLength(y) then (y, rest)
    else
      YearStartStep(y);
      Locate(y + 1, rest - YearLength(y))
  }

  datatype Date = Date(year: int, month: int, day: int)

  predicate ValidDate(d: Date)
  {
    1 <= d.month <= 12 && 1 <= d.day <= MonthLength(d.year, d.month)
  }

  /** The calendar date of day `z`, counted from 1970-01-01. */
  function CivilFromDays(z: int): (d: Date)
    ensures ValidDate(d)
  {
    var located := Locate(1970, z);
    YearIsTwelveMonths(located.0);
    var md := MonthDay(located.0, 1, located.1);
    Date(located.0, md.0, md.1)
  }

  /** The day number of a date, counted from 1970-01-01. */
  function DaysFromCivil(d: Date): int
    requires ValidDate(d)
  {
    YearStart(d.year) + (DaysFromMonth(d.year, 1) - DaysFromMonth(d.year, d.month)) + d.day - 1
  }

  /** A day number survives the trip to a date and back. */
  lemma CivilRoundTrip(z: int)
    ensures DaysFromCivil(CivilFromDays(z)) == z
  {
    var located := Locate(1970, z);
    YearIsTwelveMonths(located.0);
    var md := MonthDay(located.0, 1, located.1);
    assert CivilFromDays(z) == Date(located.0, md.0, md.1);
  }

  /** Different days have different dates. */
  lemma CivilInjective(a: int, b: int)
    requires CivilFromDays(a) == CivilFromDays(b)
    ensures a == b
  {
    CivilRoundTrip(a);
    CivilRoundTrip(b);
  }

  /** The epoch is the first of January 1970. */
  lemma EpochIsNewYear1970()
    ensures CivilFromDays(0) == Date(1970, 1, 1)
  {
  }

  // ---------------------------------------------------------------------------
  // Text

  /** chrono's `%Y`: four digits at least, with a sign outside 0000 to 9999. */
  function YearText(y: int): (s: string)
    ensures 0 <= y <= 9999 ==> s == Pad4(y)
  {
    if 0 <= y <= 9999 then Pad4(y)
    else if y > 9999 then "+" + Decimal(y)
    else "-" + Pad4(-y)
  }

  /** `%Y-%m-%d`. */
  function DateText(d: Date): (s: string)
    requires ValidDate(d)
    ensures 0 <= d.year <= 9999 ==> |s| == 10 && s[4] == '-' && s[7] == '-'
  {
    YearText(d.year) + "-" + Pad2(d.month) + "-" + Pad2(d.day)
  }

  /** The three fields of a `yyyy-mm-dd` text sit at fixed places. */
  lemma FieldsOf(year: string, month: string, day: string)
    requires |year| == 4 && |month| == 2 && |day| == 2
    ensures var s := year + "-" + month + "-" + day;
            s[..4] == year && s[5..7] == month && s[8..] == day
  {
    var s := year + "-" + month + "-" + day;
    assert s == year + ("-" + month + "-" + day);
    assert ("-" + month + "-" + day)[1..3] == month;
  }

  /** In the four-digit years a date text names one date only. */
  lemma DateTextInjective(d: Date, e: Date)
    requires ValidDate(d) && ValidDate(e)
    requires 0 <= d.year <= 9999 && 0 <= e.year <= 9999
    requires DateText(d) == DateText(e)
    ensures d == e
  {
    FieldsOf(Pad4(d.year), Pad2(d.month), Pad2(d.day));
    FieldsOf(Pad4(e.year), Pad2(e.month), Pad2(e.day));
    Pad4Injective(d.year, e.year);
    assert DigitsValue(Pad2(d.month)) == DigitsValue(Pad2(e.month));
    assert DigitsValue(Pad2(d.day)) == DigitsValue(Pad2(e.day));
  }

  /** `departure_time.format("%Y-%m-%d")`: the date text of the instant's UTC day. */
  function FormatDate(t: int): string
  {
    DateText(CivilFromDays(UtcDay(t)))
  }

  /** Two instants with the same date text in a four-digit year lie on the same UTC day, and conversely. */
  lemma FormatDateIffSameDay(a: int, b: int)
    requires 0 <= CivilFromDays(UtcDay(a)).year <= 9999 && 0 <= CivilFromDays(UtcDay(b)).year <= 9999
    ensures FormatDate(a) == FormatDate(b) <==> UtcDay(a) == UtcDay(b)
  {
    if FormatDate(a) == FormatDate(b) {
      DateTextInjective(CivilFromDays(UtcDay(a)), CivilFromDays(UtcDay(b)));
      CivilInjective(UtcDay(a), UtcDay(b));
    }
  }
}
