/**
 The calendar rules the settlement engine borrows from Qt's `QDate`: the
 Gregorian leap-year rule, the number of days in a month, and what makes a
 start date valid. Qt's calendar is proleptic and has no year 0, so the
 years before 1 (1 BCE is year -1) are shifted by one before the leap rule
 is applied.
 */
module Calendar {

  /** A calendar date as `QDate` holds it. */
  datatype Date = Date(year: int, month: int, day: int)

  /** Qt's `QDate::isLeapYear`: the Gregorian rule, with year -1 playing year 0. */
  predicate IsLeapYear(year: int)
  {
    var y := if year < 1 then year + 1 else year;
    y % 4 == 0 && (y % 100 != 0 || y % 400 == 0)
  }

  /** Qt's `QDate(year, month, 1).daysInMonth()` for a month in 1..12. */
  function DaysInMonth(year: int, month: int): (days: int)
    requires 1 <= month <= 12
    ensures 28 <= days <= 31
    ensures days == 29 <==> month == 2 && IsLeapYear(year)
    ensures days == 28 <==> month == 2 && !IsLeapYear(year)
    ensures days == 30 <==> month in {4, 6, 9, 11}
  {
    if month == 2 then (if IsLeapYear(year) then 29 else 28)
    else if month == 4 || month == 6 || month == 9 || month == 11 then 30
    else 31
  }

  /** A date `QDate::isValid` accepts: no year 0, a month in 1..12, a day inside that month. */
  predicate ValidDate(d: Date)
  {
    d.year != 0 && 1 <= d.month <= 12 && 1 <= d.day <= DaysInMonth(d.year, d.month)
  }

  /** Days in the months 1..month-1 of a year: an independent reference for the month lengths. */
  function DaysBeforeMonth(year: int, month: int): (days: int)
    requires 1 <= month <= 13
    decreases month
  {
    if month == 1 then 0 else DaysBeforeMonth(year, month - 1) + DaysInMonth(year, month - 1)
  }

  /** The twelve month lengths add up to a Gregorian year: 366 days exactly in a leap year. */
  lemma YearLength(year: int)
    ensures DaysBeforeMonth(year, 13) == if IsLeapYear(year) then 366 else 365
  {
    assert DaysBeforeMonth(year, 3) == 31 + DaysInMonth(year, 2);
    assert DaysBeforeMonth(year, 7) == DaysBeforeMonth(year, 3) + 122;
    assert DaysBeforeMonth(year, 13) == DaysBeforeMonth(year, 7) + 184;
  }
}
