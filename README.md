# Salary settlement engine of the hotel payroll tracker

The payroll tracker records employees, per-month salary overrides and cash
advances. For one employee it computes the salary still owed for a month
("kalan maaş"). The `Employee` class of `main.py` holds that logic, and this
project models it in Dafny:

- **Effective salary** (`get_salary_for_month`): the month's stored override,
  or the base salary when there is none.
- **Advances of a month** (`advances_for_month`, `total_advances_for_month`):
  the advances whose stored date falls in a given month and year, and the sum
  of their amounts (0 when there are none). Dates are stored as `yyyy-MM-dd`
  text (main.py:469-470). The query compares `strftime('%Y', date)` with
  `str(year)`, and `%Y` always has four digits, so only the years 1000 to 9999
  can match. `InMonth` models this.
- **Proration**: an employee is paid only the days from the start day to the
  end of the start month, `(days_in_month - start_day + 1) / days_in_month`.
  The month lengths follow Qt's Gregorian calendar, including leap years.
- **Carried balance** (`carried_salary_for_month`): the sum of
  (salary − advances) over the months before the target month. In the start
  year it runs from the start month up to the target month. In any other year
  it is the start year from the start month through December, plus the
  current year's months before the target. The years in between are never
  summed. This is kept exactly as written.
- **Remaining salary** (`remaining_salary_for_month`): in the start month of
  the start year, the prorated salary minus advances, with no carry. In every
  other month, carry + salary − advances. Negative remainders are never
  clamped.

Files:

- `calendar.dfy` (module `Calendar`): dates, the leap-year rule and month
  lengths of `QDate`.
- `settlement.dfy` (module `Settlement`): the records, the four engine
  operations and the lemmas about them.
- `scenarios.dfy` (module `Scenarios`): worked settlements with concrete
  dates and amounts.

The database is a value, `Store`: the `salaries` table as a map keyed by
(employee, year, month), and the `advances` table as a sequence of rows. The
"current year" that the source reads from `QDate.currentDate()` is a
parameter. Amounts are exact `real`s.

`carried_salary_for_month` accumulates in loops. It is modelled as the method
`CarriedSalaryForMonth`, which is proved to compute the function
`CarriedBalance`. Its three `for month in range(...)` loops have the same
shape, so they are one loop method, `AccumulateMonths`, called three times.
The start month's salary is scaled by a share: the proration factor in the
two loops over the start year, and 1 in the loop over the current year,
which has no start-month case. The other operations are straight-line lookups and
arithmetic, so they are modelled as functions. `RemainingSalary` uses
`CarriedBalance`.

With no overrides and no advances, the remaining salary of a month after
the start month is not the base salary: the code adds the carry of the
earlier months. `UntouchedSalaryAccrues` states what the code computes: the
prorated first month plus one full salary for every later month so far.

## Model

| member | source | states |
|---|---|---|
| `Calendar.DaysInMonth` | main.py:163 | a month has 28 to 31 days; February has 29 exactly in a leap year; April, June, September and November have 30 |
| `Calendar.YearLength` | main.py:163 | the month lengths add up to 366 days in a leap year and 365 otherwise (Gregorian rule; Qt has no year 0) |
| `Settlement.EffectiveSalary` | main.py:68-77 | the stored override for (employee, year, month) when one exists, otherwise the base salary |
| `Settlement.InMonth` | main.py:98-101 | an advance matches the SQL filter only for the same employee, a valid stored date, the same month and the same year; a match is possible only for a month in 1..12 and a year in 1000..9999, since `%Y` gives four digits and `strftime` gives NULL for a month outside 1..12 (a day past the month's end SQLite would move into the next month; stored dates never have one) |
| `Settlement.AdvancesForMonth` | main.py:93-108 | lists exactly the stored advances of the employee that match the filter, each as many times as it is stored and no row that does not match; never more rows than stored |
| `Settlement.TotalAdvancesForMonth` | main.py:118-128 | the `SUM(amount)` query over the same filter; 0 for a month number outside 1..12 or a year outside 1000..9999, where no row can match |
| `Settlement.TotalIsSumOfListed` | main.py:118-128 | the monthly total equals the sum of the amounts of the advances that `advances_for_month` lists |
| `Settlement.NoAdvancesTotalZero` | main.py:127-128 | the monthly total is 0 when no advance of the employee falls in that month |
| `Settlement.TotalNonNegative` | main.py:118-128 | non-negative advance amounts give a non-negative monthly total |
| `Settlement.ProrationFactor` | main.py:163-164 | the start-month share lies in (0, 1] and equals 1 exactly when the start day is the 1st |
| `Settlement.ProrationDaysWorked` | main.py:163-164 | the share times the month's length is the number of days from the start day to the end of the month |
| `Settlement.ProrationMonotone` | main.py:163-164 | a later start day in the same month never gives a larger share |
| `Settlement.ProratedSalaryMonotone` | main.py:163-165 | a later start day never gives a larger prorated salary, for a non-negative salary |
| `Settlement.CarriedBalance` | main.py:138-194 | the carry is 0 for a target month outside 1..12, 0 for the start month of the start year, and 0 in the start year for every month up to the start month |
| `Settlement.AccumulateMonths` | main.py:159-170 | one accumulation loop over `range(lo, hi)` yields the sum of the months' (salary, start month scaled by the share, minus advances), 0 for an empty range |
| `Settlement.CarriedSalaryForMonth` | main.py:138-194 | the three accumulation loops compute exactly `CarriedBalance` |
| `Settlement.RemainingSalary` | main.py:196-212 | in the start month of the start year: that month's prorated salary minus its advances, with no carry; otherwise the carry plus the month's full salary minus its advances |
| `Settlement.SameYearCarry` | main.py:157-170 | in the start year, the carry into a later month is the prorated start month's remainder plus the full remainders of the months between |
| `Settlement.OtherYearCarry` | main.py:171-192 | in any other year, the carry is the start year's remainders from the start month (prorated) through December plus the current year's full remainders before the target |
| `Settlement.CarryForwardStartYear` | main.py:157-212 | in the start year, from the start month on, a month's remaining salary is exactly the carry into the next month |
| `Settlement.CarryForwardOtherYear` | main.py:186-212 | in any other year, a month's remaining salary is exactly the carry into the next month |
| `Settlement.CarryIntoOtherYear` | main.py:171-194 | the carry into January of any year other than the start year equals the salary still owed in December of the start year |
| `Settlement.IntermediateYearIgnored` | main.py:171-192 | two years after the start year, January carries exactly what it carries one year after it: the year between is not summed |
| `Settlement.CarryStep` | main.py:167-170 | outside the start month, the next carry is this carry plus salary minus advances, and it falls exactly when the advances exceed the salary (no clamping) |
| `Settlement.UntouchedSalaryAccrues` | main.py:196-212 | with no overrides and no advances, a month of the start year owes the prorated first month plus one full salary for each later month |
| `Settlement.FullMonthsIsProduct` | main.py:186-192 | adding up n full months of a salary, as the loop does month by month, gives n times the salary; with `UntouchedSalaryAccrues` this is the closed form prorated salary + (month − start month) × salary |
| `Scenarios.StartMonthSettlement` | main.py:201-207 | a start on 15 June 2024 at 10000 with a 1000 advance: share 16/30, remaining 13000/3 |
| `Scenarios.NextMonthSettlement` | main.py:157-212 | the same employee in July: carry 13000/3, remaining 13000/3 + 10000 |
| `Scenarios.OverdrawnMonthReducesCarry` | main.py:167-170 | advancing 12000 against a 10000 July salary lowers August's carry by 2000 |
| `Scenarios.FebruaryProration` | main.py:163-164 | a February start on the 10th is paid 20/29 in 2024 and 2000, and 19/28 in 2023 and 1900 |
| `Scenarios.DecemberStarterNextYear` | main.py:171-192 | a start on 15 December 2024: the carry into March 2025 is 10000 × 17/31 plus two full salaries |

## Left out

- The PyQt5 windows, dialogs, tables, tray icon, hourly timer and message boxes: presentation only.
- The SQLite connection, schema creation and `ALTER TABLE` migration: I/O. The tables are the `Store` value.
- The `sqlite3.Error` and `Exception` handlers, which show a warning and fall back to the base salary, 0 or an empty list: a pure store cannot fail.
- Reading the clock: the current year is a parameter. The `year=None` default of `advances_for_month` and `total_advances_for_month` therefore does not occur; every call passes a year.
- `AdvancesForMonth`: does not model the `ORDER BY date` of the query, because ordering matters only for display. It also does not model the `QDate.fromString` re-parsing of the date text; the rows keep the dates they were stored with.
- `InMonth`: stored dates are the valid dates Qt writes with `toString("yyyy-MM-dd")` from a date editor (main.py:470, main.py:617), and the `ValidDate` conjunct stands for that store invariant. SQLite's handling of other date text is not modelled: it gives NULL for a month outside 1..12 but moves a day past the month's end into the following month (`2024-02-30` counts in March), whereas the model matches such a row in no month.
- Python `float` arithmetic and its rounding: amounts are exact reals. The parsing of typed amounts, including clamping negative input to 0, happens in the dialogs and is not modelled.
- Qt's own limits on the range of valid years: a valid date here is one with year ≠ 0, a month in 1..12 and a day inside that month.
- Inserting, updating and deleting employees, advances and salary overrides: these are plain CRUD operations used by the presentation layer.
