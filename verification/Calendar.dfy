/**
 The proleptic Gregorian calendar, years 0 to 9999: days counted one by one, a closed form
 for the count (as `MakeDay` in section 21.4.1 of ECMA-262 computes it), and ISO 8601 text.
 */
module Calendar {
  import opened Numerals

  datatype Date = Date(year: nat, month: nat, day: nat)

  predicate IsLeap(year: nat) {
    year % 4 == 0 && (year % 100 != 0 || year % 400 == 0)
  }

  function DaysInMonth(year: nat, month: nat): nat {
    if month == 2 then (if IsLeap(year) then 29 else 28)
    else if month == 4 || month == 6 || month == 9 || month == 11 then 30
    else 31
  }

  predicate IsDate(d: Date) {
    1 <= d.month <= 12 && 1 <= d.day <= DaysInMonth(d.year, d.month)
  }

  function NextDay(d: Date): (n: Date)
    requires IsDate(d)
    ensures IsDate(n)
  {
    if d.day < DaysInMonth(d.year, d.month) then d.(day := d.day + 1)
    else if d.month < 12 then Date(d.year, d.month + 1, 1)
    else Date(d.year + 1, 1, 1)
  }

  /** The date `n` days after the first of January of year 0. */
  function DateOf(n: nat): (d: Date)
    ensures IsDate(d)
  {
    if n == 0 then Date(0, 1, 1) else NextDay(DateOf(n - 1))
  }

  function DaysBeforeYear(year: nat): nat {
    365 * year + (year + 3) / 4 - (year + 99) / 100 + (year + 399) / 400
  }

  function DaysBeforeMonth(year: nat, month: nat): nat
    requires 1 <= month <= 12
  {
    if month == 1 then 0 else DaysBeforeMonth(year, month - 1) + DaysInMonth(year, month - 1)
  }

  /** The closed form: how many days after the first of January of year 0 a date is. */
  function DayNumber(d: Date): nat
    requires IsDate(d)
  {
    DaysBeforeYear(d.year) + DaysBeforeMonth(d.year, d.month) + (d.day - 1)
  }

  lemma FourthYears(year: nat)
    ensures (year + 4) / 4 == (year + 3) / 4 + (if year % 4 == 0 then 1 else 0)
  {
  }

  lemma Centuries(year: nat)
    ensures (year + 100) / 100 == (year + 99) / 100 + (if year % 100 == 0 then 1 else 0)
  {
  }

  lemma FourthCenturies(year: nat)
    ensures (year + 400) / 400 == (year + 399) / 400 + (if year % 400 == 0 then 1 else 0)
  {
  }

  lemma FourTimes(n: nat)
    ensures 4 * n % 4 == 0
  {
  }

  lemma CenturyIsFourthYear(year: nat)
    requires year % 100 == 0
    ensures year % 4 == 0
  {
    FourTimes(25 * (year / 100));
  }

  lemma HundredTimes(n: nat)
    ensures 100 * n % 100 == 0
  {
  }

  lemma FourthCenturyIsCentury(year: nat)
    requires year % 400 == 0
    ensures year % 100 == 0
  {
    HundredTimes(4 * (year / 400));
  }

  lemma YearLength(year: nat)
    ensures DaysBeforeYear(year + 1) == DaysBeforeYear(year) + (if IsLeap(year) then 366 else 365)
  {
    FourthYears(year);
    Centuries(year);
    FourthCenturies(year);
    if year % 100 == 0 { CenturyIsFourthYear(year); }
    if year % 400 == 0 { FourthCenturyIsCentury(year); }
  }

  lemma DecemberEnds(year: nat)
    ensures DaysBeforeMonth(year, 12) == (if IsLeap(year) then 335 else 334)
  {
    var leap := if IsLeap(year) then 1 else 0;
    assert DaysBeforeMonth(year, 3) == 59 + leap by { assert DaysBeforeMonth(year, 2) == 31; }
    assert DaysBeforeMonth(year, 5) == 120 + leap by { assert DaysBeforeMonth(year, 4) == 90 + leap; }
    assert DaysBeforeMonth(year, 7) == 181 + leap by { assert DaysBeforeMonth(year, 6) == 151 + leap; }
    assert DaysBeforeMonth(year, 9) == 243 + leap by { assert DaysBeforeMonth(year, 8) == 212 + leap; }
    assert DaysBeforeMonth(year, 11) == 304 + leap by { assert DaysBeforeMonth(year, 10) == 273 + leap; }
  }

  /** The closed form counts one more for the next day, across months, years and leap days. */
  lemma NextDayCounts(d: Date)
    requires IsDate(d)
    ensures DayNumber(NextDay(d)) == DayNumber(d) + 1
  {
    if d.day == DaysInMonth(d.year, d.month) && d.month == 12 {
      YearLength(d.year);
      DecemberEnds(d.year);
    }
  }

  lemma {:induction false} DateOfCounts(n: nat)
    ensures DayNumber(DateOf(n)) == n
  {
    if n == 0 {
    } else {
      DateOfCounts(n - 1);
      NextDayCounts(DateOf(n - 1));
    }
  }

  predicate Before(a: Date, b: Date) {
    a.year < b.year || (a.year == b.year && (a.month < b.month || (a.month == b.month && a.day < b.day)))
  }

  lemma {:induction false} YearsAreOrdered(a: nat, b: nat)
    requires a < b
    ensures DaysBeforeYear(a) + (if IsLeap(a) then 366 else 365) <= DaysBeforeYear(b)
    decreases b
  {
    YearLength(b - 1);
    if a == b - 1 {
    } else {
      YearsAreOrdered(a, b - 1);
    }
  }

  lemma {:induction false} MonthsAreOrdered(year: nat, a: nat, b: nat)
    requires 1 <= a < b <= 12
    ensures DaysBeforeMonth(year, a) + DaysInMonth(year, a) <= DaysBeforeMonth(year, b)
    decreases b
  {
    if a == b - 1 {
    } else {
      MonthsAreOrdered(year, a, b - 1);
    }
  }

  lemma CountIsOrdered(a: Date, b: Date)
    requires IsDate(a) && IsDate(b) && Before(a, b)
    ensures DayNumber(a) < DayNumber(b)
  {
    if a.year < b.year {
      YearsAreOrdered(a.year, b.year);
      DecemberEnds(a.year);
      if a.month < 12 { MonthsAreOrdered(a.year, a.month, 12); }
    } else if a.month < b.month {
      MonthsAreOrdered(a.year, a.month, b.month);
    }
  }

  /** Counting and naming days are inverse to each other. */
  lemma DayNumberNames(d: Date)
    requires IsDate(d)
    ensures DateOf(DayNumber(d)) == d
  {
    var e := DateOf(DayNumber(d));
    DateOfCounts(DayNumber(d));
    if Before(d, e) { CountIsOrdered(d, e); } else if Before(e, d) { CountIsOrdered(e, d); }
  }

  // ----- weekdays -----

  /** Sunday is 0. The first of January of year 0 was a Saturday. */
  function Weekday(dayNumber: nat): (w: nat)
    ensures w < 7
  {
    (dayNumber + 6) % 7
  }

  lemma EpochIsThursday()
    ensures DayNumber(Date(1970, 1, 1)) == 719528 && Weekday(719528) == 4
  {
  }

  // ----- ISO 8601 text -----

  function IsoDate(d: Date): (s: string)
    ensures |s| == 10
  {
    Padded(d.year, 4) + "-" + Padded(d.month, 2) + "-" + Padded(d.day, 2)
  }

  lemma IsoDateInjective(a: Date, b: Date)
    requires IsDate(a) && IsDate(b) && a.year < 10000 && b.year < 10000 && IsoDate(a) == IsoDate(b)
    ensures a == b
  {
    var s, t := IsoDate(a), IsoDate(b);
    assert s[..4] == Padded(a.year, 4) && s[5..7] == Padded(a.month, 2) && s[8..] == Padded(a.day, 2);
    assert t[..4] == Padded(b.year, 4) && t[5..7] == Padded(b.month, 2) && t[8..] == Padded(b.day, 2);
    assert Pow10(4) == 10000 && Pow10(2) == 100;
    PaddedInjective(a.year, b.year, 4);
    PaddedInjective(a.month, b.month, 2);
    PaddedInjective(a.day, b.day, 2);
  }

  const MS_PER_DAY := 86_400_000
  const EPOCH_DAY := 719528

  function TimeText(hour: nat, minute: nat, second: nat, ms: nat): (s: string)
    ensures |s| == 14
  {
    "T" + Padded(hour, 2) + ":" + Padded(minute, 2) + ":" + Padded(second, 2) + "." + Padded(ms, 3) + "Z"
  }

  /** The time of day of an instant, `t` milliseconds after midnight. */
  function TimeOfDay(t: nat): string {
    TimeText(t / 1000 / 60 / 60, t / 1000 / 60 % 60, t / 1000 % 60, t % 1000)
  }

  /** `toISOString` of an instant given in milliseconds since 1970. */
  function IsoInstant(ms: nat): (s: string)
    ensures |s| == 24
  {
    IsoDate(DateOf(EPOCH_DAY + ms / MS_PER_DAY)) + TimeOfDay(ms % MS_PER_DAY)
  }

  predicate InFourDigitYears(ms: nat) {
    DateOf(EPOCH_DAY + ms / MS_PER_DAY).year < 10000
  }

  lemma TimeTextInjective(h: nat, m: nat, s: nat, ms: nat, h': nat, m': nat, s': nat, ms': nat)
    requires h < 100 && m < 100 && s < 100 && ms < 1000 && h' < 100 && m' < 100 && s' < 100 && ms' < 1000
    requires TimeText(h, m, s, ms) == TimeText(h', m', s', ms')
    ensures h == h' && m == m' && s == s' && ms == ms'
  {
    var a, b := TimeText(h, m, s, ms), TimeText(h', m', s', ms');
    assert a[1..3] == Padded(h, 2) && a[4..6] == Padded(m, 2) && a[7..9] == Padded(s, 2) && a[10..13] == Padded(ms, 3);
    assert b[1..3] == Padded(h', 2) && b[4..6] == Padded(m', 2) && b[7..9] == Padded(s', 2)
        && b[10..13] == Padded(ms', 3);
    assert Pow10(2) == 100 && Pow10(3) == 1000;
    PaddedInjective(h, h', 2);
    PaddedInjective(m, m', 2);
    PaddedInjective(s, s', 2);
    PaddedInjective(ms, ms', 3);
  }

  lemma TimeOfDayInjective(x: nat, y: nat)
    requires x < MS_PER_DAY && y < MS_PER_DAY && TimeOfDay(x) == TimeOfDay(y)
    ensures x == y
  {
    assert x / 1000 / 60 / 60 < 24 && y / 1000 / 60 / 60 < 24;
    TimeTextInjective(x / 1000 / 60 / 60, x / 1000 / 60 % 60, x / 1000 % 60, x % 1000,
                      y / 1000 / 60 / 60, y / 1000 / 60 % 60, y / 1000 % 60, y % 1000);
  }

  lemma IsoInstantInjective(a: nat, b: nat)
    requires InFourDigitYears(a) && InFourDigitYears(b) && IsoInstant(a) == IsoInstant(b)
    ensures a == b
  {
    var m, n := EPOCH_DAY + a / MS_PER_DAY, EPOCH_DAY + b / MS_PER_DAY;
    assert IsoInstant(a)[..10] == IsoDate(DateOf(m)) && IsoInstant(b)[..10] == IsoDate(DateOf(n));
    assert IsoInstant(a)[10..] == TimeOfDay(a % MS_PER_DAY) && IsoInstant(b)[10..] == TimeOfDay(b % MS_PER_DAY);
    IsoDateInjective(DateOf(m), DateOf(n));
    DateOfCounts(m);
    DateOfCounts(n);
    TimeOfDayInjective(a % MS_PER_DAY, b % MS_PER_DAY);
  }
}
