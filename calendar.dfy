/** The civil calendar the schedule is evaluated against: Go's `time.Time`
    reduced to the five fields a cron schedule looks at, in the proleptic
    Gregorian calendar without time zones. */
module Calendar {
  import opened Arith

  /** A leap year of the Gregorian calendar. The test only asks whether a
      remainder is zero, so Go's truncating `%` and Dafny's Euclidean `%`
      agree here for negative years too. */
  predicate IsLeap(year: int) {
    year % 4 == 0 && (year % 100 != 0 || year % 400 == 0)
  }

  /** `daysPerMonth` (cronschedule.go:259-276) for a month in 1..12. */
  function DaysPerMonth(month: int, year: int): (n: int)
    requires 1 <= month <= 12
    ensures 28 <= n <= 31
  {
    if month in {1, 3, 5, 7, 8, 10, 12} then 31
    else if month in {4, 6, 9, 11} then 30
    else if YearDay(year, 12, 31) > 365 then 29
    else 28
  }

  /** The number of days of the months before `month` in `year`. */
  function DaysBefore(month: int, year: int): (n: int)
    requires 1 <= month <= 12
  {
    [0, 31, 59, 90, 120, 151, 181, 212, 243, 273, 304, 334][month - 1]
    + if month > 2 && IsLeap(year) then 1 else 0
  }

  /** Go's `Time.YearDay`: the day's position in its year, from 1. */
  function YearDay(year: int, month: int, day: int): int
    requires 1 <= month <= 12
  {
    DaysBefore(month, year) + day
  }

  /** The months have the lengths of the Gregorian calendar, and February's
      29th day, which the source detects by asking whether December 31st is
      the 366th day of the year, exists exactly in leap years. */
  lemma MonthLengths(year: int)
    ensures forall m :: m in {1, 3, 5, 7, 8, 10, 12} ==> DaysPerMonth(m, year) == 31
    ensures forall m :: m in {4, 6, 9, 11} ==> DaysPerMonth(m, year) == 30
    ensures DaysPerMonth(2, year) == 29 <==> IsLeap(year)
    ensures DaysPerMonth(2, year) == 28 <==> !IsLeap(year)
  {
  }

  /** `DaysBefore` is the running sum of the month lengths, so a year has
      365 days, or 366 in a leap year. */
  lemma DaysBeforeSum(year: int)
    ensures DaysBefore(1, year) == 0
    ensures forall m :: 1 <= m < 12 ==> DaysBefore(m + 1, year) == DaysBefore(m, year) + DaysPerMonth(m, year)
    ensures YearDay(year, 12, DaysPerMonth(12, year)) == if IsLeap(year) then 366 else 365
  {
  }

  /** Days from 1970-01-01 to the given date, counted in 400-year eras of
      146097 days, with the year taken to start on March 1st so that the
      leap day falls at its end. Dafny's `/` rounds down for a positive
      divisor, which is the floor these formulas need. */
  function DaysFromCivil(year: int, month: int, day: int): int
    requires 1 <= month <= 12
  {
    var y := if month <= 2 then year - 1 else year;
    var era := y / 400;
    var yoe := y - era * 400;
    var mp := if month > 2 then month - 3 else month + 9;
    var doy := (153 * mp + 2) / 5 + day - 1;
    var doe := yoe * 365 + yoe / 4 - yoe / 100 + doy;
    era * 146097 + doe - 719468
  }

  /** Go's `Time.Weekday`, with Sunday as 0: 1970-01-01 was a Thursday. */
  function Weekday(year: int, month: int, day: int): (w: int)
    requires 1 <= month <= 12
    ensures 0 <= w < 7
  {
    (DaysFromCivil(year, month, day) + 4) % 7
  }

  /** The date after the given one. */
  function NextDate(year: int, month: int, day: int): (r: (int, int, int))
    requires 1 <= month <= 12 && 1 <= day <= DaysPerMonth(month, year)
    ensures 1 <= r.1 <= 12 && 1 <= r.2 <= DaysPerMonth(r.1, r.0)
  {
    if day < DaysPerMonth(month, year) then (year, month, day + 1)
    else if month < 12 then (year, month + 1, 1)
    else (year + 1, 1, 1)
  }

  /** Consecutive dates are consecutive day numbers. With
      `DaysFromCivil(1970, 1, 1) == 0` this pins the day count, and so the
      weekday, down for every date. */
  lemma {:induction false} DaysFromCivilNext(year: int, month: int, day: int)
    requires 1 <= month <= 12 && 1 <= day <= DaysPerMonth(month, year)
    ensures var (y, m, d) := NextDate(year, month, day);
            DaysFromCivil(y, m, d) == DaysFromCivil(year, month, day) + 1
  {
    if day < DaysPerMonth(month, year) {
      assert NextDate(year, month, day) == (year, month, day + 1);
    } else if month == 2 {
      LeapDay(year);
    } else {
      MonthEnd(year, month);
    }
  }

  /** Across the end of a month other than February: the first of the next
      month has the next day number. */
  lemma MonthEnd(year: int, month: int)
    requires 1 <= month <= 12 && month != 2
    ensures var (y, m, d) := NextDate(year, month, DaysPerMonth(month, year));
            DaysFromCivil(y, m, d) == DaysFromCivil(year, month, DaysPerMonth(month, year)) + 1
  {
    var n := DaysPerMonth(month, year);
    var (y, m, d) := NextDate(year, month, n);
    FromMarchFirst(year, month, n);
    FromMarchFirst(y, m, d);
    if month == 12 {
      assert (y, m, d) == (year + 1, 1, 1);
    } else {
      assert (y, m, d) == (year, month + 1, 1);
      MonthOffsetStep(month, n);
    }
  }

  /** The offset of the first of the month after `month` in a shifted year. */
  lemma MonthOffsetStep(month: int, n: int)
    requires 1 <= month < 12 && month != 2
    requires n == (if month in {1, 3, 5, 7, 8, 10} then 31 else 30)
    ensures var mp := if month > 2 then month - 3 else month + 9;
            (153 * (mp + 1) + 2) / 5 == (153 * mp + 2) / 5 + n
  {
    if month == 1 { assert (153 * 11 + 2) / 5 == (153 * 10 + 2) / 5 + 31; }
    else if month == 3 { assert (153 * 1 + 2) / 5 == (153 * 0 + 2) / 5 + 31; }
    else if month == 4 { assert (153 * 2 + 2) / 5 == (153 * 1 + 2) / 5 + 30; }
    else if month == 5 { assert (153 * 3 + 2) / 5 == (153 * 2 + 2) / 5 + 31; }
    else if month == 6 { assert (153 * 4 + 2) / 5 == (153 * 3 + 2) / 5 + 30; }
    else if month == 7 { assert (153 * 5 + 2) / 5 == (153 * 4 + 2) / 5 + 31; }
    else if month == 8 { assert (153 * 6 + 2) / 5 == (153 * 5 + 2) / 5 + 31; }
    else if month == 9 { assert (153 * 7 + 2) / 5 == (153 * 6 + 2) / 5 + 30; }
    else if month == 10 { assert (153 * 8 + 2) / 5 == (153 * 7 + 2) / 5 + 31; }
    else { assert (153 * 9 + 2) / 5 == (153 * 8 + 2) / 5 + 30; }
  }

  /** A date's day number is that of March 1st of its shifted year plus the
      date's offset in that year. */
  lemma FromMarchFirst(year: int, month: int, day: int)
    requires 1 <= month <= 12
    ensures DaysFromCivil(year, month, day)
            == MarchFirst(if month <= 2 then year - 1 else year)
               + (153 * (if month > 2 then month - 3 else month + 9) + 2) / 5 + day - 1
  {
  }

  /** Across the end of February: the day number of March 1st exceeds that of
      February's last day by one. */
  lemma LeapDay(year: int)
    ensures DaysFromCivil(year, 3, 1) == DaysFromCivil(year, 2, DaysPerMonth(2, year)) + 1
  {
    ShiftedYearLength(year - 1);
  }

  /** The day number of March 1st of `y`, the first day of a shifted year. */
  function MarchFirst(y: int): int {
    var era := y / 400;
    var yoe := y - era * 400;
    era * 146097 + yoe * 365 + yoe / 4 - yoe / 100 - 719468
  }

  /** A shifted year, March to February, has 366 days when the February it
      ends with has a leap day. */
  lemma ShiftedYearLength(y: int)
    ensures MarchFirst(y + 1) == MarchFirst(y) + 365 + if IsLeap(y + 1) then 1 else 0
  {
    var era := y / 400;
    var yoe := y - era * 400;
    EraStep(y);
    if yoe == 399 {
      DivModUnique(y + 1, 4, (era + 1) * 100, 0);
      DivModUnique(y + 1, 400, era + 1, 0);
    } else {
      var z := yoe + 1;
      Residues(y + 1, era, z);
      QuotientStep(yoe, 4);
      QuotientStep(yoe, 100);
    }
  }

  /** Counting up by one raises a quotient exactly at a multiple. */
  lemma QuotientStep(a: int, d: int)
    requires d > 0
    ensures (a + 1) / d == a / d + (if (a + 1) % d == 0 then 1 else 0)
  {
    if a % d < d - 1 {
      DivModUnique(a + 1, d, a / d, a % d + 1);
    } else {
      DivModUnique(a + 1, d, a / d + 1, 0);
    }
  }

  /** Adding one to a number adds one to its remainder by 7, cyclically. */
  lemma NextResidue(x: int)
    ensures (x + 1) % 7 == (x % 7 + 1) % 7
  {
    if x % 7 < 6 {
      DivModUnique(x + 1, 7, x / 7, x % 7 + 1);
      DivModUnique(x % 7 + 1, 7, 0, x % 7 + 1);
    } else {
      DivModUnique(x + 1, 7, x / 7 + 1, 0);
    }
  }

  /** How `y / 400` moves on to `y + 1`. */
  lemma EraStep(y: int)
    ensures var era := y / 400; var yoe := y - era * 400;
            0 <= yoe < 400
            && (yoe < 399 ==> (y + 1) / 400 == era)
            && (yoe == 399 ==> (y + 1) / 400 == era + 1)
  {
    var era := y / 400;
    var yoe := y - era * 400;
    if yoe < 399 {
      DivModUnique(y + 1, 400, era, yoe + 1);
    } else {
      DivModUnique(y + 1, 400, era + 1, 0);
    }
  }

  /** Writing `x` as `400 * era + z` keeps its remainders by 4, 100 and 400. */
  lemma Residues(x: int, era: int, z: int)
    requires x == era * 400 + z && 0 < z < 400
    ensures x % 4 == z % 4 && x % 100 == z % 100 && x % 400 != 0
  {
    DivModUnique(x, 4, era * 100 + z / 4, z % 4);
    DivModUnique(x, 100, era * 4 + z / 100, z % 100);
    DivModUnique(x, 400, era, z);
  }

  /** The weekday of 1970-01-01 is Thursday, and each next date is the next
      weekday. */
  lemma WeekdayNext(year: int, month: int, day: int)
    requires 1 <= month <= 12 && 1 <= day <= DaysPerMonth(month, year)
    ensures Weekday(1970, 1, 1) == 4
    ensures var (y, m, d) := NextDate(year, month, day);
            Weekday(y, m, d) == (Weekday(year, month, day) + 1) % 7
  {
    DaysFromCivilNext(year, month, day);
    NextResidue(DaysFromCivil(year, month, day) + 4);
  }

  /** A moment as the schedule sees it; seconds and finer are dropped. */
  datatype Instant = Instant(year: int, month: int, day: int, hour: int, minute: int)

  /** A date and time that exists in the calendar. */
  predicate ValidInstant(t: Instant) {
    1 <= t.month <= 12 && 1 <= t.day <= DaysPerMonth(t.month, t.year)
    && 0 <= t.hour <= 23 && 0 <= t.minute <= 59
  }

  /** Chronological order of instants. */
  predicate Before(a: Instant, b: Instant) {
    a.year < b.year
    || (a.year == b.year && (a.month < b.month
    || (a.month == b.month && (a.day < b.day
    || (a.day == b.day && (a.hour < b.hour
    || (a.hour == b.hour && a.minute < b.minute)))))))
  }

  /** The instant one minute later, `t.Add(1 * time.Minute)`. */
  function AddMinute(t: Instant): (r: Instant)
    requires ValidInstant(t)
    ensures ValidInstant(r) && Before(t, r)
  {
    if t.minute < 59 then t.(minute := t.minute + 1)
    else if t.hour < 23 then t.(hour := t.hour + 1, minute := 0)
    else if t.day < DaysPerMonth(t.month, t.year) then t.(day := t.day + 1, hour := 0, minute := 0)
    else if t.month < 12 then Instant(t.year, t.month + 1, 1, 0, 0)
    else Instant(t.year + 1, 1, 1, 0, 0)
  }

  /** No valid instant lies strictly between `t` and one minute later. */
  lemma AddMinuteIsNext(t: Instant, u: Instant)
    requires ValidInstant(t) && ValidInstant(u)
    ensures Before(t, u) <==> !Before(u, AddMinute(t))
  {
  }

  /** `Before` is a strict total order. */
  lemma BeforeOrder(a: Instant, b: Instant, c: Instant)
    ensures !Before(a, a)
    ensures Before(a, b) ==> !Before(b, a)
    ensures Before(a, b) && Before(b, c) ==> Before(a, c)
    ensures a == b || Before(a, b) || Before(b, a)
  {
  }
}
