/** When the monthly refill is next due, on the proleptic Gregorian calendar. */
module Calendar {
  datatype Date = Date(year: int, month: int, day: int)

  /** A wall-clock moment in the schedule's fixed zone; `rest` is the microseconds past the hour. */
  datatype Moment = Moment(date: Date, hour: int, rest: int)

  const HOUR := 3_600_000_000

  predicate Leap(year: int)
  {
    year % 4 == 0 && (year % 100 != 0 || year % 400 == 0)
  }

  function DaysIn(year: int, month: int): int
  {
    if month == 2 then if Leap(year) then 29 else 28
    else if month == 4 || month == 6 || month == 9 || month == 11 then 30
    else 31
  }

  predicate ValidDate(d: Date)
  {
    d.year >= 1 && 1 <= d.month <= 12 && 1 <= d.day <= DaysIn(d.year, d.month)
  }

  predicate ValidMoment(t: Moment)
  {
    ValidDate(t.date) && 0 <= t.hour < 24 && 0 <= t.rest < HOUR
  }

  // ---- days as numbers ----

  function DaysBeforeYear(year: int): int
  {
    var y := year - 1;
    y * 365 + y / 4 - y / 100 + y / 400
  }

  function DaysBeforeMonth(year: int, month: int): int
    requires 1 <= month <= 12
    decreases month
  {
    if month == 1 then 0 else DaysBeforeMonth(year, month - 1) + DaysIn(year, month - 1)
  }

  /** The day number, with 1 January of year 1 as 1. */
  function Ordinal(d: Date): int
    requires ValidDate(d)
  {
    DaysBeforeYear(d.year) + DaysBeforeMonth(d.year, d.month) + d.day
  }

  function NextMonth(d: Date): Date
  {
    if d.month == 12 then Date(d.year + 1, 1, 1) else Date(d.year, d.month + 1, 1)
  }

  function NextDay(d: Date): (r: Date)
    requires ValidDate(d)
    ensures ValidDate(r)
  {
    if d.day < DaysIn(d.year, d.month) then d.(day := d.day + 1) else NextMonth(d)
  }

  /** Adding a `timedelta` of whole days. */
  function PlusDays(d: Date, n: nat): (r: Date)
    requires ValidDate(d)
    ensures ValidDate(r)
    decreases n
  {
    if n == 0 then d else PlusDays(NextDay(d), n - 1)
  }

  lemma YearLength(year: int)
    ensures DaysBeforeYear(year + 1) == DaysBeforeYear(year) + if Leap(year) then 366 else 365
  {
    var y := year - 1;
    assert (y + 1) / 4 == y / 4 + if year % 4 == 0 then 1 else 0;
    assert (y + 1) / 100 == y / 100 + if year % 100 == 0 then 1 else 0;
    assert (y + 1) / 400 == y / 400 + if year % 400 == 0 then 1 else 0;
    assert year % 400 == 0 ==> year % 100 == 0;
    assert year % 100 == 0 ==> year % 4 == 0;
  }

  lemma YearIsTwelveMonths(year: int)
    ensures DaysBeforeMonth(year, 12) + 31 == if Leap(year) then 366 else 365
  {
    assert DaysBeforeMonth(year, 3) == 31 + DaysIn(year, 2);
    assert DaysBeforeMonth(year, 6) == DaysBeforeMonth(year, 3) + 92;
    assert DaysBeforeMonth(year, 9) == DaysBeforeMonth(year, 6) + 92;
    assert DaysBeforeMonth(year, 12) == DaysBeforeMonth(year, 9) + 91;
  }

  /** The successor of a date is the next day number, across month and year ends. */
  lemma NextDayIsNextOrdinal(d: Date)
    requires ValidDate(d)
    ensures Ordinal(NextDay(d)) == Ordinal(d) + 1
  {
    if d.day == DaysIn(d.year, d.month) && d.month == 12 {
      YearLength(d.year);
      YearIsTwelveMonths(d.year);
    }
  }

  lemma {:induction false} PlusDaysAddsOrdinals(d: Date, n: nat)
    requires ValidDate(d)
    ensures Ordinal(PlusDays(d, n)) == Ordinal(d) + n
    decreases n
  {
    if n > 0 {
      NextDayIsNextOrdinal(d);
      PlusDaysAddsOrdinals(NextDay(d), n - 1);
    }
  }

  predicate DateBefore(a: Date, b: Date)
  {
    a.year < b.year || (a.year == b.year && (a.month < b.month || (a.month == b.month && a.day < b.day)))
  }

  lemma {:induction false} MonthsAddUp(year: int, a: int, b: int)
    requires 1 <= a < b <= 12
    ensures DaysBeforeMonth(year, a) + DaysIn(year, a) <= DaysBeforeMonth(year, b)
    ensures DaysBeforeMonth(year, b) >= 0
    decreases b
  {
    if a < b - 1 {
      MonthsAddUp(year, a, b - 1);
    } else {
      MonthStart(year, a);
    }
  }

  lemma {:induction false} MonthStart(year: int, month: int)
    requires 1 <= month <= 12
    ensures DaysBeforeMonth(year, month) >= 0
    decreases month
  {
    if month > 1 {
      MonthStart(year, month - 1);
    }
  }

  lemma {:induction false} YearsAddUp(a: int, b: int)
    requires a < b
    ensures DaysBeforeYear(a) + (if Leap(a) then 366 else 365) <= DaysBeforeYear(b)
    decreases b - a
  {
    YearLength(b - 1);
    if a < b - 1 {
      YearsAddUp(a, b - 1);
    }
  }

  lemma WithinYear(d: Date)
    requires ValidDate(d)
    ensures DaysBeforeYear(d.year) < Ordinal(d) <= DaysBeforeYear(d.year) + if Leap(d.year) then 366 else 365
  {
    MonthStart(d.year, d.month);
    YearIsTwelveMonths(d.year);
    if d.month < 12 {
      MonthsAddUp(d.year, d.month, 12);
    }
  }

  /** Comparing dates field by field is comparing day numbers. */
  lemma DateOrderIsOrdinalOrder(a: Date, b: Date)
    requires ValidDate(a) && ValidDate(b)
    ensures DateBefore(a, b) <==> Ordinal(a) < Ordinal(b)
  {
    if DateBefore(a, b) {
      BeforeIsLess(a, b);
    } else if DateBefore(b, a) {
      BeforeIsLess(b, a);
    }
  }

  lemma BeforeIsLess(a: Date, b: Date)
    requires ValidDate(a) && ValidDate(b) && DateBefore(a, b)
    ensures Ordinal(a) < Ordinal(b)
  {
    if a.year < b.year {
      WithinYear(a);
      WithinYear(b);
      YearsAddUp(a.year, b.year);
    } else if a.month < b.month {
      MonthsAddUp(a.year, a.month, b.month);
    }
  }

  // ---- the schedule ----

  /** A moment as microseconds from a fixed origin. */
  function Instant(t: Moment): int
    requires ValidMoment(t)
  {
    (Ordinal(t.date) * 24 + t.hour) * HOUR + t.rest
  }

  predicate Earlier(a: Moment, b: Moment)
  {
    DateBefore(a.date, b.date)
    || (a.date == b.date && (a.hour < b.hour || (a.hour == b.hour && a.rest < b.rest)))
  }

  lemma EarlierIsBefore(a: Moment, b: Moment)
    requires ValidMoment(a) && ValidMoment(b)
    ensures Earlier(a, b) <==> Instant(a) < Instant(b)
  {
    DateOrderIsOrdinalOrder(a.date, b.date);
    DateOrderIsOrdinalOrder(b.date, a.date);
    if DateBefore(a.date, b.date) {
      SameDayOrder(a, b);
    } else if DateBefore(b.date, a.date) {
      SameDayOrder(b, a);
    }
  }

  lemma SameDayOrder(a: Moment, b: Moment)
    requires ValidMoment(a) && ValidMoment(b) && Ordinal(a.date) < Ordinal(b.date)
    ensures Instant(a) < Instant(b)
  {
    assert Ordinal(a.date) * 24 + a.hour + 1 <= Ordinal(b.date) * 24 + b.hour;
  }

  /** `replace` of the day and hour, with everything below set to zero. */
  function At(d: Date, day: int, hour: int): Moment
  {
    Moment(d.(day := day), hour, 0)
  }

  /** The schedule endpoint's next refill. */
  function NextRefill(now: Moment, day: int, hour: int): Moment
    requires ValidMoment(now) && 1 <= day <= 28 && 0 <= hour < 24
  {
    var target := At(now.date, day, hour);
    if !Earlier(now, target) then At(PlusDays(target.date.(day := 1), 32), day, hour) else target
  }

  /** Thirty-two days from the first of a month always fall in the following month. */
  lemma ThirtyTwoDaysReachNextMonth(d: Date)
    requires ValidDate(d) && d.day == 1
    ensures var r := PlusDays(d, 32);
            r.day <= 28 && r.year == NextMonth(d).year && r.month == NextMonth(d).month
  {
    var left := DaysIn(d.year, d.month);
    WithinMonth(d, left - 1);
    SplitDays(d, left - 1, 33 - left);
    var last := d.(day := left);
    assert NextDay(last) == NextMonth(d);
    assert PlusDays(last, 33 - left) == PlusDays(NextMonth(d), 32 - left);
    WithinMonth(NextMonth(d), 32 - left);
  }

  lemma {:induction false} WithinMonth(d: Date, n: nat)
    requires ValidDate(d) && d.day + n <= DaysIn(d.year, d.month)
    ensures PlusDays(d, n) == d.(day := d.day + n)
    decreases n
  {
    if n > 0 {
      WithinMonth(NextDay(d), n - 1);
    }
  }

  lemma {:induction false} SplitDays(d: Date, m: nat, n: nat)
    requires ValidDate(d)
    ensures PlusDays(d, m + n) == PlusDays(PlusDays(d, m), n)
    decreases m
  {
    if m > 0 {
      SplitDays(NextDay(d), m - 1, n);
    }
  }

  predicate OnSchedule(t: Moment, day: int, hour: int)
  {
    ValidMoment(t) && t.date.day == day && t.hour == hour && t.rest == 0
  }

  /** The answer is on schedule and strictly later than now, and no scheduled moment lies between. */
  lemma NextRefillIsTheNext(now: Moment, day: int, hour: int, t: Moment)
    requires ValidMoment(now) && 1 <= day <= 28 && 0 <= hour < 24
    ensures OnSchedule(NextRefill(now, day, hour), day, hour)
    ensures Instant(now) < Instant(NextRefill(now, day, hour))
    ensures OnSchedule(t, day, hour) && Instant(now) < Instant(t) ==>
              Instant(NextRefill(now, day, hour)) <= Instant(t)
  {
    var first := now.date.(day := 1);
    ThirtyTwoDaysReachNextMonth(first);
    var r := NextRefill(now, day, hour);
    EarlierIsBefore(now, r);
    if OnSchedule(t, day, hour) && Instant(now) < Instant(t) {
      EarlierIsBefore(now, t);
      EarlierIsBefore(t, r);
    }
  }

  /** The months of the calendar, in order. */
  lemma MonthLengths(year: int, month: int)
    requires 1 <= month <= 12
    ensures DaysIn(year, month) ==
            [31, if year % 400 == 0 || (year % 4 == 0 && year % 100 != 0) then 29 else 28,
             31, 30, 31, 30, 31, 31, 30, 31, 30, 31][month - 1]
  {
  }
}
