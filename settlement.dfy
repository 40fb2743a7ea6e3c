/**
 The settlement engine of the `Employee` class: the salary that applies to a
 month, the advances paid in a month, the balance carried into a month from
 the months before it, and the salary still owed for a month.

 The record store is a value (`Store`): salary overrides keyed by
 (employee, year, month) and the list of advances. The "current year" that
 the engine reads from the clock is an explicit parameter. Amounts are exact
 reals.
 */
module Settlement {
  import opened Calendar

  /** An employee row; its fields are only set when the object is built. */
  datatype Employee = Employee(id: int, firstName: string, lastName: string, startDate: Date, salary: real)

  /** An advance row of the `advances` table. */
  datatype Advance = Advance(id: int, employeeId: int, date: Date, amount: real, description: string)

  /** The stored rows the engine reads: the `salaries` table (unique per employee, year and month) and the `advances` table. */
  datatype Store = Store(overrides: map<(int, int, int), real>, advances: seq<Advance>)

  // ---------------------------------------------------------------------------
  // Effective salary

  /** `get_salary_for_month`: the month's override when one is stored, the base salary otherwise. */
  function EffectiveSalary(e: Employee, db: Store, month: int, year: int): (s: real)
    ensures (e.id, year, month) in db.overrides ==> s == db.overrides[(e.id, year, month)]
    ensures (e.id, year, month) !in db.overrides ==> s == e.salary
  {
    if (e.id, year, month) in db.overrides then db.overrides[(e.id, year, month)] else e.salary
  }

  // ---------------------------------------------------------------------------
  // Advances of a month

  /**
   The SQL filter `employee_id = ? AND strftime('%m', date) = ? AND
   strftime('%Y', date) = ?`, whose arguments are `f"{month:02d}"` and
   `str(year)`. `strftime('%Y')` always yields four digits, so the text
   comparison can only succeed for a year written with four digits.
   `strftime` yields NULL for a month outside 1..12, and NULL matches
   nothing. Every stored date is a valid date written by Qt, so `ValidDate`
   stands for that store invariant; for other date text SQLite would move a
   day past the month's end into the following month, which is not modelled.
   */
  predicate InMonth(a: Advance, employeeId: int, month: int, year: int)
    ensures InMonth(a, employeeId, month, year) ==> 1 <= month <= 12 && 1000 <= year <= 9999
  {
    && ValidDate(a.date)
    && a.employeeId == employeeId && a.date.month == month && a.date.year == year && 1000 <= year <= 9999
  }

  /** `advances_for_month`: the stored advances of the employee dated in the given month. */
  function AdvancesForMonth(advances: seq<Advance>, employeeId: int, month: int, year: int): (r: seq<Advance>)
    ensures forall a :: a in r <==> a in advances && InMonth(a, employeeId, month, year)
    ensures forall a :: multiset(r)[a] == if InMonth(a, employeeId, month, year) then multiset(advances)[a] else 0
    ensures |r| <= |advances|
    decreases |advances|
  {
    if advances == [] then []
    else
      var rest := AdvancesForMonth(advances[..|advances| - 1], employeeId, month, year);
      var last := advances[|advances| - 1];
      assert advances == advances[..|advances| - 1] + [last];
      if InMonth(last, employeeId, month, year) then rest + [last] else rest
  }

  /** The sum of the amounts of a list of advances. */
  function SumAmounts(s: seq<Advance>): real
    decreases |s|
  {
    if s == [] then 0.0 else SumAmounts(s[..|s| - 1]) + s[|s| - 1].amount
  }

  /**
   `total_advances_for_month`: `SELECT SUM(amount)` over the same filter, 0
   when no row matches; for a month number outside 1..12 no row can match.
   */
  function TotalAdvancesForMonth(advances: seq<Advance>, employeeId: int, month: int, year: int): (t: real)
    ensures (month < 1 || month > 12 || year < 1000 || year > 9999) ==> t == 0.0
    decreases |advances|
  {
    if advances == [] then 0.0
    else
      var last := advances[|advances| - 1];
      TotalAdvancesForMonth(advances[..|advances| - 1], employeeId, month, year)
      + (if InMonth(last, employeeId, month, year) then last.amount else 0.0)
  }

  /** The monthly total is the sum of the amounts of the advances the month lists. */
  lemma {:induction false} TotalIsSumOfListed(advances: seq<Advance>, employeeId: int, month: int, year: int)
    ensures TotalAdvancesForMonth(advances, employeeId, month, year)
            == SumAmounts(AdvancesForMonth(advances, employeeId, month, year))
    decreases |advances|
  {
    if advances != [] {
      var init := advances[..|advances| - 1];
      var last := advances[|advances| - 1];
      TotalIsSumOfListed(init, employeeId, month, year);
      var rest := AdvancesForMonth(init, employeeId, month, year);
      if InMonth(last, employeeId, month, year) {
        assert (rest + [last])[..|rest + [last]| - 1] == rest;
      }
    }
  }

  /** With no advance of the employee in the month, the total is 0. */
  lemma {:induction false} NoAdvancesTotalZero(advances: seq<Advance>, employeeId: int, month: int, year: int)
    requires forall a :: a in advances ==> !InMonth(a, employeeId, month, year)
    ensures TotalAdvancesForMonth(advances, employeeId, month, year) == 0.0
    decreases |advances|
  {
    if advances != [] {
      var init := advances[..|advances| - 1];
      assert forall a :: a in init ==> a in advances;
      assert advances[|advances| - 1] in advances;
      NoAdvancesTotalZero(init, employeeId, month, year);
    }
  }

  /** Advances of non-negative amounts give a non-negative total. */
  lemma {:induction false} TotalNonNegative(advances: seq<Advance>, employeeId: int, month: int, year: int)
    requires forall a :: a in advances ==> a.amount >= 0.0
    ensures TotalAdvancesForMonth(advances, employeeId, month, year) >= 0.0
    decreases |advances|
  {
    if advances != [] {
      var init := advances[..|advances| - 1];
      assert forall a :: a in init ==> a in advances;
      assert advances[|advances| - 1] in advances;
      TotalNonNegative(init, employeeId, month, year);
    }
  }

  // ---------------------------------------------------------------------------
  // Proration of the start month

  /**
   The share of the start month that was worked:
   `(days_in_month - start_day + 1) / days_in_month`, with the day count of
   the start date's own month and year.
   */
  function ProrationFactor(start: Date): (f: real)
    requires ValidDate(start)
    ensures 0.0 < f <= 1.0
    ensures f == 1.0 <==> start.day == 1
  {
    var days := DaysInMonth(start.year, start.month);
    (days - start.day + 1) as real / days as real
  }

  /** The factor times the month's length is the number of days from the start day to the month's end. */
  lemma ProrationDaysWorked(start: Date)
    requires ValidDate(start)
    ensures ProrationFactor(start) * DaysInMonth(start.year, start.month) as real
            == (DaysInMonth(start.year, start.month) - start.day + 1) as real
  {
  }

  /** A later start day in the same month never gives a larger share. */
  lemma ProrationMonotone(a: Date, b: Date)
    requires ValidDate(a) && ValidDate(b)
    requires a.year == b.year && a.month == b.month && a.day <= b.day
    ensures ProrationFactor(b) <= ProrationFactor(a)
  {
    var days := DaysInMonth(a.year, a.month) as real;
    ProrationDaysWorked(a);
    ProrationDaysWorked(b);
    assert ProrationFactor(b) * days <= ProrationFactor(a) * days;
  }

  /** So a later start day never gives a larger prorated salary. */
  lemma ProratedSalaryMonotone(salary: real, a: Date, b: Date)
    requires salary >= 0.0
    requires ValidDate(a) && ValidDate(b)
    requires a.year == b.year && a.month == b.month && a.day <= b.day
    ensures salary * ProrationFactor(b) <= salary * ProrationFactor(a)
  {
    ProrationMonotone(a, b);
  }

  // ---------------------------------------------------------------------------
  // Carried balance

  /**
   What one iteration of the carry loops adds: the month's salary minus the
   month's advances, where the start month's salary is scaled by `share`
   (the proration factor in the loops that prorate, 1 in the loop that does
   not). Nothing is clamped at zero.
   */
  function MonthRemainder(e: Employee, db: Store, month: int, year: int, share: real): real
  {
    var salary := EffectiveSalary(e, db, month, year);
    var monthSalary := if month == e.startDate.month then salary * share else salary;
    monthSalary - TotalAdvancesForMonth(db.advances, e.id, month, year)
  }

  /** The sum of `MonthRemainder` over the months lo..hi-1 of one year (`range(lo, hi)`). */
  function RangeCarry(e: Employee, db: Store, lo: int, hi: int, year: int, share: real): real
    decreases hi - lo
  {
    if hi <= lo then 0.0 else RangeCarry(e, db, lo, hi - 1, year, share) + MonthRemainder(e, db, hi - 1, year, share)
  }

  /**
   The balance `carried_salary_for_month` accumulates: 0 for a month number
   outside 1..12 and for the start month of the start year; in the start
   year the months from the start month up to the target; in any other year
   the start year from the start month through December plus the current
   year's months before the target.
   */
  function CarriedBalance(e: Employee, db: Store, targetMonth: int, currentYear: int): (c: real)
    requires ValidDate(e.startDate)
    ensures targetMonth < 1 || targetMonth > 12 ==> c == 0.0
    ensures targetMonth == e.startDate.month && currentYear == e.startDate.year ==> c == 0.0
    ensures currentYear == e.startDate.year && targetMonth <= e.startDate.month ==> c == 0.0
  {
    var startMonth, startYear := e.startDate.month, e.startDate.year;
    if targetMonth < 1 || targetMonth > 12 then 0.0
    else if targetMonth == startMonth && currentYear == startYear then 0.0
    else if currentYear == startYear then RangeCarry(e, db, startMonth, targetMonth, currentYear, ProrationFactor(e.startDate))
    else RangeCarry(e, db, startMonth, 13, startYear, ProrationFactor(e.startDate)) + RangeCarry(e, db, 1, targetMonth, currentYear, 1.0)
  }

  /**
   One `for month in range(lo, hi)` loop of `carried_salary_for_month`: adds
   up each month's salary minus its advances, the start month's salary
   scaled by `share`. The loops over the start year pass the proration
   factor; the loop over the current year, which has no start-month case,
   passes 1.
   */
  method AccumulateMonths(e: Employee, db: Store, lo: int, hi: int, year: int, share: real) returns (sum: real)
    ensures sum == RangeCarry(e, db, lo, hi, year, share)
  {
    sum := 0.0;
    var month := lo;
    while month < hi
      invariant lo <= month && (month <= hi || month == lo)
      invariant sum == RangeCarry(e, db, lo, month, year, share)
    {
      var advances := TotalAdvancesForMonth(db.advances, e.id, month, year);
      var monthSalary;
      if month == e.startDate.month {
        monthSalary := EffectiveSalary(e, db, month, year) * share;
      } else {
        monthSalary := EffectiveSalary(e, db, month, year);
      }
      sum := sum + (monthSalary - advances);
      month := month + 1;
    }
  }

  /** `carried_salary_for_month`: its early returns and loops compute `CarriedBalance`. */
  method CarriedSalaryForMonth(e: Employee, db: Store, targetMonth: int, currentYear: int) returns (carry: real)
    requires ValidDate(e.startDate)
    ensures carry == CarriedBalance(e, db, targetMonth, currentYear)
  {
    if targetMonth < 1 || targetMonth > 12 {
      return 0.0;
    }
    if targetMonth == e.startDate.month && currentYear == e.startDate.year {
      return 0.0;
    }
    var startMonth, startYear := e.startDate.month, e.startDate.year;
    var proportion := ProrationFactor(e.startDate);
    if currentYear == startYear {
      carry := AccumulateMonths(e, db, startMonth, targetMonth, currentYear, proportion);
    } else {
      var startYearTail := AccumulateMonths(e, db, startMonth, 13, startYear, proportion);
      var currentYearHead := AccumulateMonths(e, db, 1, targetMonth, currentYear, 1.0);
      carry := startYearTail + currentYearHead;
    }
  }

  // ---------------------------------------------------------------------------
  // Remaining salary

  /**
   `remaining_salary_for_month`: in the start month of the start year the
   prorated salary minus that month's advances, with no carry; otherwise the
   carried balance plus the month's full salary minus its advances.
   */
  function RemainingSalary(e: Employee, db: Store, month: int, currentYear: int): (r: real)
    requires ValidDate(e.startDate)
    ensures month == e.startDate.month && currentYear == e.startDate.year
            ==> r == MonthRemainder(e, db, month, currentYear, ProrationFactor(e.startDate))
    ensures !(month == e.startDate.month && currentYear == e.startDate.year)
            ==> r == CarriedBalance(e, db, month, currentYear) + MonthRemainder(e, db, month, currentYear, 1.0)
  {
    var totalAdvance := TotalAdvancesForMonth(db.advances, e.id, month, currentYear);
    if month == e.startDate.month && currentYear == e.startDate.year then
      EffectiveSalary(e, db, month, currentYear) * ProrationFactor(e.startDate) - totalAdvance
    else
      CarriedBalance(e, db, month, currentYear) + EffectiveSalary(e, db, month, currentYear) - totalAdvance
  }

  // ---------------------------------------------------------------------------
  // Properties of the carry

  /** Summing months lo..hi-1 is summing lo..mid-1 and then mid..hi-1. */
  lemma {:induction false} RangeCarrySplit(e: Employee, db: Store, lo: int, mid: int, hi: int, year: int, share: real)
    requires lo <= mid <= hi
    ensures RangeCarry(e, db, lo, hi, year, share)
            == RangeCarry(e, db, lo, mid, year, share) + RangeCarry(e, db, mid, hi, year, share)
    decreases hi - mid
  {
    if mid < hi {
      RangeCarrySplit(e, db, lo, mid, hi - 1, year, share);
    }
  }

  /** A range that does not hold the start month sums the same whatever share the start month would get. */
  lemma {:induction false} RangeCarryWithoutStart(e: Employee, db: Store, lo: int, hi: int, year: int, share: real, share': real)
    requires e.startDate.month < lo
    ensures RangeCarry(e, db, lo, hi, year, share) == RangeCarry(e, db, lo, hi, year, share')
    decreases hi - lo
  {
    if lo < hi {
      RangeCarryWithoutStart(e, db, lo, hi - 1, year, share, share');
    }
  }

  /**
   In the start year, the carry into a later month is the start month's
   prorated remainder plus the full remainders of the months in between.
   */
  lemma SameYearCarry(e: Employee, db: Store, targetMonth: int)
    requires ValidDate(e.startDate)
    requires e.startDate.month < targetMonth <= 12
    ensures CarriedBalance(e, db, targetMonth, e.startDate.year)
            == MonthRemainder(e, db, e.startDate.month, e.startDate.year, ProrationFactor(e.startDate))
               + RangeCarry(e, db, e.startDate.month + 1, targetMonth, e.startDate.year, 1.0)
  {
    var sm, y := e.startDate.month, e.startDate.year;
    RangeCarrySplit(e, db, sm, sm + 1, targetMonth, y, ProrationFactor(e.startDate));
    RangeCarryWithoutStart(e, db, sm + 1, targetMonth, y, ProrationFactor(e.startDate), 1.0);
  }

  /**
   In any year other than the start year, the carry is the start year's
   months from the start month through December (the start month prorated)
   plus the current year's months before the target at full salary. No year
   between the two is summed.
   */
  lemma OtherYearCarry(e: Employee, db: Store, targetMonth: int, currentYear: int)
    requires ValidDate(e.startDate)
    requires 1 <= targetMonth <= 12 && currentYear != e.startDate.year
    ensures CarriedBalance(e, db, targetMonth, currentYear)
            == MonthRemainder(e, db, e.startDate.month, e.startDate.year, ProrationFactor(e.startDate))
               + RangeCarry(e, db, e.startDate.month + 1, 13, e.startDate.year, 1.0)
               + RangeCarry(e, db, 1, targetMonth, currentYear, 1.0)
  {
    var sm, y := e.startDate.month, e.startDate.year;
    RangeCarrySplit(e, db, sm, sm + 1, 13, y, ProrationFactor(e.startDate));
    RangeCarryWithoutStart(e, db, sm + 1, 13, y, ProrationFactor(e.startDate), 1.0);
  }

  /**
   Carry forward within the start year: what remains owed in a month from
   the start month on is exactly the balance carried into the next month.
   */
  lemma CarryForwardStartYear(e: Employee, db: Store, month: int)
    requires ValidDate(e.startDate)
    requires e.startDate.month <= month < 12
    ensures RemainingSalary(e, db, month, e.startDate.year) == CarriedBalance(e, db, month + 1, e.startDate.year)
  {
    var sm, y := e.startDate.month, e.startDate.year;
    assert CarriedBalance(e, db, month + 1, y)
        == RangeCarry(e, db, sm, month, y, ProrationFactor(e.startDate)) + MonthRemainder(e, db, month, y, ProrationFactor(e.startDate));
    if month > sm {
      assert MonthRemainder(e, db, month, y, ProrationFactor(e.startDate)) == MonthRemainder(e, db, month, y, 1.0);
    } else {
      assert RangeCarry(e, db, sm, month, y, ProrationFactor(e.startDate)) == 0.0;
    }
  }

  /** Carry forward in any other year: a month's remaining salary is the next month's carry. */
  lemma CarryForwardOtherYear(e: Employee, db: Store, month: int, currentYear: int)
    requires ValidDate(e.startDate)
    requires 1 <= month < 12 && currentYear != e.startDate.year
    ensures RemainingSalary(e, db, month, currentYear) == CarriedBalance(e, db, month + 1, currentYear)
  {
  }

  /**
   Carry across the year boundary: the carry into January of any year other
   than the start year is what remained owed in December of the start year.
   */
  lemma CarryIntoOtherYear(e: Employee, db: Store, currentYear: int)
    requires ValidDate(e.startDate)
    requires currentYear != e.startDate.year
    ensures CarriedBalance(e, db, 1, currentYear) == RemainingSalary(e, db, 12, e.startDate.year)
  {
    var sm, y := e.startDate.month, e.startDate.year;
    if sm < 12 {
      assert MonthRemainder(e, db, 12, y, ProrationFactor(e.startDate)) == MonthRemainder(e, db, 12, y, 1.0);
    }
  }

  /**
   The two-range carry skips every year after the start year and before the
   current one: two years after the start year, January carries exactly what
   it carries one year after it, whatever was owed during the year between.
   */
  lemma IntermediateYearIgnored(e: Employee, db: Store)
    requires ValidDate(e.startDate)
    ensures CarriedBalance(e, db, 1, e.startDate.year + 2) == CarriedBalance(e, db, 1, e.startDate.year + 1)
  {
    CarryIntoOtherYear(e, db, e.startDate.year + 2);
    CarryIntoOtherYear(e, db, e.startDate.year + 1);
  }

  /**
   Negative remainders are not clamped: outside the start month, the carry
   grows by the month's salary minus its advances, and it falls exactly when
   the advances exceed the salary.
   */
  lemma CarryStep(e: Employee, db: Store, month: int, currentYear: int)
    requires ValidDate(e.startDate)
    requires 1 <= month < 12
    requires currentYear != e.startDate.year || e.startDate.month < month
    ensures CarriedBalance(e, db, month + 1, currentYear)
            == CarriedBalance(e, db, month, currentYear)
               + EffectiveSalary(e, db, month, currentYear)
               - TotalAdvancesForMonth(db.advances, e.id, month, currentYear)
    ensures CarriedBalance(e, db, month + 1, currentYear) < CarriedBalance(e, db, month, currentYear)
            <==> TotalAdvancesForMonth(db.advances, e.id, month, currentYear) > EffectiveSalary(e, db, month, currentYear)
  {
    if currentYear == e.startDate.year {
      CarryForwardStartYear(e, db, month);
    } else {
      CarryForwardOtherYear(e, db, month, currentYear);
    }
  }

  // ---------------------------------------------------------------------------
  // An employee with no stored overrides and no advances

  /** The store holds no salary override and no advance of the employee. */
  predicate NoRecordsFor(e: Employee, db: Store)
  {
    && (forall k :: k in db.overrides ==> k.0 != e.id)
    && (forall a :: a in db.advances ==> a.employeeId != e.id)
  }

  /** `count` full months of a salary, added up month by month. */
  function FullMonths(count: nat, salary: real): real
  {
    if count == 0 then 0.0 else FullMonths(count - 1, salary) + salary
  }

  /** Adding up `count` months of a salary is multiplying it by `count`. */
  lemma {:induction false} FullMonthsIsProduct(count: nat, salary: real)
    ensures FullMonths(count, salary) == count as real * salary
  {
    if count > 0 {
      FullMonthsIsProduct(count - 1, salary);
    }
  }

  /** Without records, every month of a range adds the full base salary. */
  lemma {:induction false} UntouchedRange(e: Employee, db: Store, lo: int, hi: int, year: int)
    requires ValidDate(e.startDate) && NoRecordsFor(e, db)
    requires lo <= hi
    ensures RangeCarry(e, db, lo, hi, year, 1.0) == FullMonths(hi - lo, e.salary)
    decreases hi - lo
  {
    if lo < hi {
      UntouchedRange(e, db, lo, hi - 1, year);
      NoAdvancesTotalZero(db.advances, e.id, hi - 1, year);
    }
  }

  /** Without records, the start month's remainder is the prorated base salary. */
  lemma UntouchedStartMonth(e: Employee, db: Store)
    requires ValidDate(e.startDate) && NoRecordsFor(e, db)
    ensures MonthRemainder(e, db, e.startDate.month, e.startDate.year, ProrationFactor(e.startDate)) == e.salary * ProrationFactor(e.startDate)
  {
    NoAdvancesTotalZero(db.advances, e.id, e.startDate.month, e.startDate.year);
  }

  /**
   Without records, the salary owed in a month of the start year is the
   prorated first month plus one full salary for each later month so far:
   the carry makes it grow month by month rather than equal the base salary.
   */
  lemma UntouchedSalaryAccrues(e: Employee, db: Store, month: int)
    requires ValidDate(e.startDate) && NoRecordsFor(e, db)
    requires e.startDate.month <= month <= 12
    ensures RemainingSalary(e, db, month, e.startDate.year)
            == e.salary * ProrationFactor(e.startDate) + FullMonths(month - e.startDate.month, e.salary)
  {
    var sm, y := e.startDate.month, e.startDate.year;
    UntouchedStartMonth(e, db);
    if month > sm {
      SameYearCarry(e, db, month);
      UntouchedRange(e, db, sm + 1, month, y);
      NoAdvancesTotalZero(db.advances, e.id, month, y);
    }
  }
}
