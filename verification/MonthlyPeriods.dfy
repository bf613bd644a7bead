/** The calendar months the monthly run bills, and how they tile a database's life. */
module MonthlyPeriods {
  import opened UsageLog
  import opened UsageHours

  const TICKS_PER_DAY: int := 86_400 * TICKS_PER_SECOND

  // Months are numbered 12 * year + (month - 1); the clock starts with January 1970.
  const EPOCH_MONTH: int := 1970 * 12

  function MonthIndex(year: int, month: int): int {
    12 * year + month - 1
  }

  predicate LeapYear(year: int) {
    year % 4 == 0 && (year % 100 != 0 || year % 400 == 0)
  }

  function DaysInMonth(index: int): int {
    var year, month := index / 12, index % 12 + 1;
    if month == 2 then (if LeapYear(year) then 29 else 28)
    else if month == 4 || month == 6 || month == 9 || month == 11 then 30
    else 31
  }

  /** Midnight UTC on the first day of a month. */
  function MonthStart(index: int): int
    requires EPOCH_MONTH <= index
    decreases index
  {
    if index == EPOCH_MONTH then 0
    else MonthStart(index - 1) + DaysInMonth(index - 1) * TICKS_PER_DAY
  }

  /** The period a run made during (year, month) bills: the month before, back over New Year. */
  function PreviousMonthPeriod(year: int, month: int): (int, int)
    requires 1 <= month <= 12 && EPOCH_MONTH < MonthIndex(year, month)
  {
    var (y, m) := if month == 1 then (year - 1, 12) else (year, month - 1);
    (MonthStart(MonthIndex(y, m)), MonthStart(MonthIndex(year, month)))
  }

  /** A run bills from midnight on the first of the month before to midnight on the first of its own. */
  lemma RunBillsTheMonthBefore(year: int, month: int)
    requires 1970 <= year && 1 <= month <= 12 && EPOCH_MONTH < MonthIndex(year, month)
    ensures PreviousMonthPeriod(year, month).1 == DaysToFirst(year, month) * TICKS_PER_DAY
    ensures PreviousMonthPeriod(year, month).0
            == (if month == 1 then DaysToFirst(year - 1, 12) else DaysToFirst(year, month - 1)) * TICKS_PER_DAY
  {
    MonthsFollowTheCalendar(year, month);
    if month == 1 {
      MonthsFollowTheCalendar(year - 1, 12);
    } else {
      MonthsFollowTheCalendar(year, month - 1);
    }
    hide DaysToFirst, MonthStart;
  }

  /** Runs in consecutive months bill adjacent periods, in December as in any other month. */
  lemma ConsecutiveRunsBillAdjacentPeriods(year: int, month: int, nextYear: int, nextMonth: int)
    requires 1 <= month <= 12 && 1 <= nextMonth <= 12 && EPOCH_MONTH < MonthIndex(year, month)
    requires MonthIndex(nextYear, nextMonth) == MonthIndex(year, month) + 1
    ensures PreviousMonthPeriod(year, month).1 == PreviousMonthPeriod(nextYear, nextMonth).0
    ensures PreviousMonthPeriod(year, month).0 < PreviousMonthPeriod(year, month).1
  {
    hide MonthStart, DaysInMonth, PreviousMonthPeriod, MonthIndex;
    PeriodIsMonthBefore(year, month);
    PeriodIsMonthBefore(nextYear, nextMonth);
    MonthHasDays(MonthIndex(year, month));
  }

  lemma PeriodIsMonthBefore(year: int, month: int)
    requires 1 <= month <= 12 && EPOCH_MONTH < MonthIndex(year, month)
    ensures PreviousMonthPeriod(year, month)
            == (MonthStart(MonthIndex(year, month) - 1), MonthStart(MonthIndex(year, month)))
  {
    hide MonthStart, DaysInMonth;
  }

  lemma MonthHasDays(index: int)
    requires EPOCH_MONTH < index
    ensures MonthStart(index - 1) < MonthStart(index)
  {
    DaysPositive(index - 1);
    hide DaysInMonth;
  }

  lemma DaysPositive(index: int)
    ensures 28 <= DaysInMonth(index) <= 31
  {
    hide LeapYear;
  }

  // ---- The calendar ----

  /** Days from 1 January 1970 to the first of a month in the Gregorian calendar: years counted from March, so
      that the leap day comes last. */
  function DaysToFirst(year: int, month: int): int {
    var y, m := if month <= 2 then year - 1 else year, if month <= 2 then month + 9 else month - 3;
    365 * y + y / 4 - y / 100 + y / 400 + (153 * m + 2) / 5 - 719_468
  }

  lemma MonthLength(year: int, month: int)
    requires 1970 <= year && 1 <= month <= 12
    ensures DaysInMonth(MonthIndex(year, month))
            == if month == 12 then DaysToFirst(year + 1, 1) - DaysToFirst(year, month)
               else DaysToFirst(year, month + 1) - DaysToFirst(year, month)
  {
    assert MonthIndex(year, month) / 12 == year && MonthIndex(year, month) % 12 == month - 1;
    if month == 2 {
      LeapDay(year);
    }
    hide LeapYear;
  }

  // The year has a leap day exactly when its count of leap days moves.
  lemma LeapDay(year: int)
    requires 1970 <= year
    ensures (year / 4 - year / 100 + year / 400) - ((year - 1) / 4 - (year - 1) / 100 + (year - 1) / 400)
            == if LeapYear(year) then 1 else 0
  {
    QuotientsStep(year);
    Multiples(year / 400, year / 100);
    assert year % 400 == 0 ==> year == 400 * (year / 400);
    assert year % 100 == 0 ==> year == 100 * (year / 100);
  }

  lemma Multiples(p: int, q: int)
    ensures 400 * p % 100 == 0 && 100 * q % 4 == 0
  {
    assert 400 * p == 100 * (4 * p) && 100 * q == 4 * (25 * q);
    MultipleOf(4 * p, 25 * q);
  }

  lemma MultipleOf(a: int, b: int)
    ensures 100 * a % 100 == 0 && 4 * b % 4 == 0
  {
  }

  lemma QuotientsStep(n: int)
    ensures n / 4 - (n - 1) / 4 == if n % 4 == 0 then 1 else 0
    ensures n / 100 - (n - 1) / 100 == if n % 100 == 0 then 1 else 0
    ensures n / 400 - (n - 1) / 400 == if n % 400 == 0 then 1 else 0
  {
  }

  /** The clock agrees with the calendar: a month starts as many days after the epoch as the Gregorian calendar
      counts. */
  lemma {:induction false} MonthsFollowTheCalendar(year: int, month: int)
    requires 1970 <= year && 1 <= month <= 12
    ensures EPOCH_MONTH <= MonthIndex(year, month)
    ensures MonthStart(MonthIndex(year, month)) == DaysToFirst(year, month) * TICKS_PER_DAY
    decreases year, month
  {
    hide DaysInMonth, DaysToFirst;
    if year == 1970 && month == 1 {
      EpochDay();
    } else if month == 1 {
      MonthsFollowTheCalendar(year - 1, 12);
      MonthLength(year - 1, 12);
      DaysAdd(DaysToFirst(year - 1, 12), DaysInMonth(MonthIndex(year - 1, 12)));
    } else {
      MonthsFollowTheCalendar(year, month - 1);
      MonthLength(year, month - 1);
      DaysAdd(DaysToFirst(year, month - 1), DaysInMonth(MonthIndex(year, month - 1)));
    }
  }

  lemma EpochDay()
    ensures DaysToFirst(1970, 1) == 0
  {
  }

  lemma DaysAdd(a: int, b: int)
    ensures a * TICKS_PER_DAY + b * TICKS_PER_DAY == (a + b) * TICKS_PER_DAY
  {
  }

  /** The history query starts with the year 2000. */
  lemma HistoryStartsIn2000()
    ensures MonthStart(MonthIndex(2000, 1)) == SAFE_MIN
  {
    MonthsFollowTheCalendar(2000, 1);
    assert DaysToFirst(2000, 1) == 10_957;
  }

  lemma {:induction false} MonthsAreWholeSeconds(index: int)
    requires EPOCH_MONTH <= index
    ensures MonthStart(index) % TICKS_PER_SECOND == 0 && 0 <= MonthStart(index)
    decreases index
  {
    if EPOCH_MONTH < index {
      MonthsAreWholeSeconds(index - 1);
      WholeSecondsAdded(MonthStart(index - 1), DaysInMonth(index - 1) * 86_400);
    }
  }

  lemma WholeSecondsAdded(ticks: int, seconds: int)
    requires ticks % TICKS_PER_SECOND == 0
    ensures (ticks + seconds * TICKS_PER_SECOND) % TICKS_PER_SECOND == 0
  {
  }

  lemma {:induction false} MonthsAdvance(first: int, count: nat)
    requires EPOCH_MONTH <= first
    ensures MonthStart(first) <= MonthStart(first + count)
  {
    if 0 < count {
      MonthsAdvance(first, count - 1);
    }
  }

  /** Seconds billed by `count` monthly runs, the first of them billing month `first`. */
  function MonthlyUsage(history: seq<UsageEvent>, first: int, count: nat): int
    requires EPOCH_MONTH <= first
  {
    if count == 0 then 0
    else MonthlyUsage(history, first, count - 1)
         + Usage(history, MonthStart(first + count - 1), MonthStart(first + count), TICKS_PER_SECOND)
  }

  /** However many months are billed one by one, together they are the running time between
      the first and the last midnight. */
  lemma {:induction false} MonthsAddUp(history: seq<UsageEvent>, first: int, count: nat)
    requires EPOCH_MONTH <= first
    requires Sorted(history) && Since2000(history) && Alternating(history) && WholeSeconds(history)
    ensures MonthlyUsage(history, first, count) * TICKS_PER_SECOND
            == RunningTicks(history, MonthStart(first), MonthStart(first + count))
  {
    if 0 < count {
      var a, b, c := MonthStart(first), MonthStart(first + count - 1), MonthStart(first + count);
      MonthsAddUp(history, first, count - 1);
      MonthsAreWholeSeconds(first + count - 1);
      MonthsAreWholeSeconds(first + count);
      MonthsAdvance(first, count - 1);
      assert b <= c;
      WholeSecondUsageIsExact(history, b, c);
      RunningTicksAdd(history, a, b, c);
    }
  }
}
