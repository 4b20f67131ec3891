/** The proleptic Gregorian calendar that `datetime` counts in, as far as bucketing needs it. */
module Calendar {

  datatype Date = Date(year: int, month: int, day: int)

  /** A time of day is its microseconds: 3_600_000_000 to the hour, 86_400_000_000 to the day. */
  datatype DateTime = DateTime(date: Date, micros: int)

  predicate Leap(year: int) { year % 4 == 0 && (year % 100 != 0 || year % 400 == 0) }

  function DaysIn(year: int, month: int): (n: int)
    ensures 28 <= n <= 31
  {
    if month == 2 then (if Leap(year) then 29 else 28)
    else if month == 4 || month == 6 || month == 9 || month == 11 then 30
    else 31
  }

  predicate IsDate(d: Date) { d.year >= 1 && 1 <= d.month <= 12 && 1 <= d.day <= DaysIn(d.year, d.month) }
  predicate IsDateTime(t: DateTime) { IsDate(t.date) && 0 <= t.micros < 86_400_000_000 }

  type Day = d: Date | IsDate(d) witness Date(1, 1, 1)
  type Instant = t: DateTime | IsDateTime(t) witness DateTime(Date(1, 1, 1), 0)

  function YearDays(year: int): int { if Leap(year) then 366 else 365 }

  function DaysBeforeYear(year: int): (n: int)
    ensures n >= 0
  {
    if year <= 1 then 0 else DaysBeforeYear(year - 1) + YearDays(year - 1)
  }

  function DaysBeforeMonth(year: int, month: int): (n: int)
    requires 1 <= month <= 13
    ensures n >= 0
  {
    if month == 1 then 0 else DaysBeforeMonth(year, month - 1) + DaysIn(year, month - 1)
  }

  /** `date.toordinal`: day 1 is 0001-01-01. */
  function Ordinal(d: Day): int { DaysBeforeYear(d.year) + DaysBeforeMonth(d.year, d.month) + d.day }

  /** `date.weekday`: Monday is 0. */
  function Weekday(d: Day): (w: int)
    ensures 0 <= w < 7
  {
    (Ordinal(d) + 6) % 7
  }

  /** The order of `datetime`: field by field. */
  predicate DateBefore(a: Day, b: Day) {
    a.year < b.year || (a.year == b.year && (a.month < b.month || (a.month == b.month && a.day < b.day)))
  }

  predicate Before(a: Instant, b: Instant) {
    DateBefore(a.date, b.date) || (a.date == b.date && a.micros < b.micros)
  }

  // ---------------------------------------------------------------------------
  // Ordinals
  // ---------------------------------------------------------------------------

  lemma {:induction false} MonthsMakeYear(year: int)
    ensures DaysBeforeMonth(year, 13) == YearDays(year)
  {
    assert DaysBeforeMonth(year, 7) == 181 + if Leap(year) then 1 else 0 by {
      assert DaysBeforeMonth(year, 4) == 90 + if Leap(year) then 1 else 0 by {
        assert DaysBeforeMonth(year, 2) == 31;
        assert DaysBeforeMonth(year, 3) == 59 + if Leap(year) then 1 else 0;
      }
      assert DaysBeforeMonth(year, 5) == DaysBeforeMonth(year, 4) + 30;
      assert DaysBeforeMonth(year, 6) == DaysBeforeMonth(year, 5) + 31;
    }
    assert DaysBeforeMonth(year, 8) == DaysBeforeMonth(year, 7) + 31;
    assert DaysBeforeMonth(year, 9) == DaysBeforeMonth(year, 8) + 31;
    assert DaysBeforeMonth(year, 10) == DaysBeforeMonth(year, 9) + 30;
    assert DaysBeforeMonth(year, 11) == DaysBeforeMonth(year, 10) + 31;
    assert DaysBeforeMonth(year, 12) == DaysBeforeMonth(year, 11) + 30;
  }

  lemma {:induction false} LaterMonth(year: int, m1: int, m2: int)
    requires 1 <= m1 < m2 <= 13
    ensures DaysBeforeMonth(year, m1) + DaysIn(year, m1) <= DaysBeforeMonth(year, m2)
    decreases m2 - m1
  {
    if m1 + 1 < m2 {
      LaterMonth(year, m1, m2 - 1);
    }
  }

  lemma {:induction false} LaterYear(y1: int, y2: int)
    requires 1 <= y1 <= y2
    ensures DaysBeforeYear(y1) <= DaysBeforeYear(y2)
    decreases y2 - y1
  {
    if y1 < y2 {
      LaterYear(y1, y2 - 1);
    }
  }

  lemma {:induction false} WithinYear(d: Day)
    ensures DaysBeforeYear(d.year) < Ordinal(d) <= DaysBeforeYear(d.year + 1)
  {
    MonthsMakeYear(d.year);
    LaterMonth(d.year, d.month, 13);
  }

  lemma {:induction false} OrdinalOrder(a: Day, b: Day)
    requires DateBefore(a, b)
    ensures Ordinal(a) < Ordinal(b)
  {
    if a.year < b.year {
      WithinYear(a);
      WithinYear(b);
      LaterYear(a.year + 1, b.year);
    } else if a.month < b.month {
      LaterMonth(a.year, a.month, b.month);
    }
  }

  /** Field-by-field order is the order of ordinals, and equal ordinals are equal dates. */
  lemma {:induction false} OrdinalExact(a: Day, b: Day)
    ensures DateBefore(a, b) <==> Ordinal(a) < Ordinal(b)
    ensures a == b <==> Ordinal(a) == Ordinal(b)
  {
    if DateBefore(a, b) {
      OrdinalOrder(a, b);
    } else if a != b {
      OrdinalOrder(b, a);
    }
  }

  /** Every fourth year is a leap year but for three centuries in four. */
  lemma {:induction false} YearsInDays(year: int)
    requires year >= 1
    ensures DaysBeforeYear(year) == 365 * (year - 1) + (year - 1) / 4 - (year - 1) / 100 + (year - 1) / 400
    decreases year
  {
    if year > 1 {
      var n := year - 1;
      YearsInDays(n);
      Quotient(n, 4);
      Quotient(n, 100);
      Quotient(n, 400);
      LeapCount(n);
      hide Leap;
    }
  }

  lemma {:induction false} LeapCount(n: int)
    ensures (if n % 4 == 0 then 1 else 0) - (if n % 100 == 0 then 1 else 0) + (if n % 400 == 0 then 1 else 0)
      == if Leap(n) then 1 else 0
  {
    assert n % 100 == 0 ==> n == n / 100 * 100;
    assert n % 400 == 0 ==> n == n / 400 * 400;
  }

  lemma {:induction false} Quotient(n: int, k: int)
    requires n >= 1 && k in {4, 100, 400}
    ensures n / k == (n - 1) / k + if n % k == 0 then 1 else 0
  {
  }

  /** The days of a common year before each month; in a leap year there is one more from March on. */
  function CommonDays(month: int): int
    requires 1 <= month <= 12
  {
    match month
    case 1 => 0 case 2 => 31 case 3 => 59 case 4 => 90 case 5 => 120 case 6 => 151
    case 7 => 181 case 8 => 212 case 9 => 243 case 10 => 273 case 11 => 304 case _ => 334
  }

  lemma {:induction false} MonthsInDays(year: int, month: int)
    requires 1 <= month <= 12
    ensures DaysBeforeMonth(year, month) == CommonDays(month) +
      if month > 2 && (year % 400 == 0 || (year % 4 == 0 && year % 100 != 0)) then 1 else 0
    decreases month
  {
    if month > 1 {
      MonthsInDays(year, month - 1);
      LeapYears(year);
      hide Leap;
    }
  }

  lemma {:induction false} LeapYears(year: int)
    ensures Leap(year) <==> year % 400 == 0 || (year % 4 == 0 && year % 100 != 0)
  {
  }

  /** 1970-01-01 was a Thursday. */
  lemma {:induction false} EpochIsThursday()
    ensures Ordinal(Date(1970, 1, 1)) == 719163 && Weekday(Date(1970, 1, 1)) == 3
  {
    YearsInDays(1970);
  }

  lemma {:induction false} OrdinalPositive(d: Day)
    ensures Ordinal(d) >= 1
  {
    LaterYear(1, d.year);
  }

  /** Microseconds since the start of the calendar. */
  function Key(t: Instant): int { Ordinal(t.date) * 86_400_000_000 + t.micros }

  lemma {:induction false} KeyExact(a: Instant, b: Instant)
    ensures Before(a, b) <==> Key(a) < Key(b)
    ensures a == b <==> Key(a) == Key(b)
  {
    OrdinalExact(a.date, b.date);
    if Ordinal(a.date) < Ordinal(b.date) {
      assert Ordinal(a.date) * 86_400_000_000 + 86_400_000_000 <= Ordinal(b.date) * 86_400_000_000;
    } else if Ordinal(b.date) < Ordinal(a.date) {
      assert Ordinal(b.date) * 86_400_000_000 + 86_400_000_000 <= Ordinal(a.date) * 86_400_000_000;
    }
  }

  // ---------------------------------------------------------------------------
  // Adding and subtracting days
  // ---------------------------------------------------------------------------

  function NextMonth(d: Day): (r: Day)
    ensures r.day == 1
  {
    if d.month == 12 then Date(d.year + 1, 1, 1) else Date(d.year, d.month + 1, 1)
  }

  lemma {:induction false} NextMonthOrdinal(d: Day)
    ensures Ordinal(NextMonth(d)) == Ordinal(d) - d.day + DaysIn(d.year, d.month) + 1
  {
    if d.month == 12 {
      MonthsMakeYear(d.year);
    }
  }

  function NextDay(d: Day): Day {
    if d.day < DaysIn(d.year, d.month) then d.(day := d.day + 1) else NextMonth(d)
  }

  function PreviousDay(d: Day): Day {
    if d.day > 1 then d.(day := d.day - 1)
    else if d.month > 1 then Date(d.year, d.month - 1, DaysIn(d.year, d.month - 1))
    else if d.year > 1 then Date(d.year - 1, 12, 31)
    else d
  }

  lemma {:induction false} NextDayOrdinal(d: Day)
    ensures Ordinal(NextDay(d)) == Ordinal(d) + 1
  {
    NextMonthOrdinal(d);
  }

  lemma {:induction false} PreviousDayOrdinal(d: Day)
    requires Ordinal(d) > 1
    ensures Ordinal(PreviousDay(d)) == Ordinal(d) - 1
  {
    if d.day == 1 && d.month == 1 && d.year > 1 {
      MonthsMakeYear(d.year - 1);
    }
  }

  /** `+ timedelta(days=n)`. */
  function PlusDays(d: Day, n: nat): Day
    decreases n
  {
    if n == 0 then d else PlusDays(NextDay(d), n - 1)
  }

  /** `- timedelta(days=n)`, on dates that have so many before them. */
  function MinusDays(d: Day, n: nat): Day
    decreases n
  {
    if n == 0 then d else MinusDays(PreviousDay(d), n - 1)
  }

  lemma {:induction false} PlusDaysOrdinal(d: Day, n: nat)
    ensures Ordinal(PlusDays(d, n)) == Ordinal(d) + n
    decreases n
  {
    if n > 0 {
      NextDayOrdinal(d);
      PlusDaysOrdinal(NextDay(d), n - 1);
    }
  }

  lemma {:induction false} MinusDaysOrdinal(d: Day, n: nat)
    requires n < Ordinal(d)
    ensures Ordinal(MinusDays(d, n)) == Ordinal(d) - n
    decreases n
  {
    if n > 0 {
      PreviousDayOrdinal(d);
      MinusDaysOrdinal(PreviousDay(d), n - 1);
    }
  }
}
