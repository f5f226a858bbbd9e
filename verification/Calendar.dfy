/** Calendar dates of the proleptic Gregorian calendar, and the due dates of a payment plan. */
module Calendar {
  import M = Money

  datatype Date = Date(year: int, month: int, day: int)

  datatype Frequency = Monthly | Biweekly | Weekly

  predicate Leap(year: int) {
    year % 4 == 0 && (year % 100 != 0 || year % 400 == 0)
  }

  function MonthLength(year: int, month: int): (days: int)
    ensures 28 <= days <= 31
  {
    if month == 2 then (if Leap(year) then 29 else 28)
    else if month in {4, 6, 9, 11} then 30
    else 31
  }

  /** The twelve months of a year, in order. */
  lemma MonthLengths(year: int, month: int)
    requires 1 <= month <= 12
    ensures MonthLength(year, month)
         == [31, if Leap(year) then 29 else 28, 31, 30, 31, 30, 31, 31, 30, 31, 30, 31][month - 1]
  {}

  predicate Valid(d: Date) {
    d.year >= 1 && 1 <= d.month <= 12 && 1 <= d.day <= MonthLength(d.year, d.month)
  }

  predicate Before(a: Date, b: Date) {
    a.year < b.year
    || (a.year == b.year && (a.month < b.month || (a.month == b.month && a.day < b.day)))
  }

  /** Months since the start of the calendar: consecutive months have consecutive numbers. */
  function MonthNumber(d: Date): int {
    12 * d.year + d.month - 1
  }

  // ---- Whole days ----

  function NextDay(d: Date): Date {
    if d.day < MonthLength(d.year, d.month) then d.(day := d.day + 1)
    else if d.month < 12 then Date(d.year, d.month + 1, 1)
    else Date(d.year + 1, 1, 1)
  }

  /** The date a number of days later. */
  function AddDays(d: Date, days: nat): Date {
    if days == 0 then d else NextDay(AddDays(d, days - 1))
  }

  function DaysBeforeYear(year: int): int {
    var y := year - 1;
    365 * y + y / 4 - y / 100 + y / 400
  }

  function DaysBeforeMonth(year: int, month: int): int
    requires 1 <= month <= 12
  {
    if month == 1 then 0 else DaysBeforeMonth(year, month - 1) + MonthLength(year, month - 1)
  }

  /** The day's number, counted from the calendar's first day. */
  function Ordinal(d: Date): int
    requires Valid(d)
  {
    DaysBeforeYear(d.year) + DaysBeforeMonth(d.year, d.month) + d.day
  }

  lemma YearLength(year: int)
    requires year >= 1
    ensures DaysBeforeYear(year + 1) - DaysBeforeYear(year) == if Leap(year) then 366 else 365
  {
    NextMultiple(year - 1, 4);
    NextMultiple(year - 1, 100);
    NextMultiple(year - 1, 400);
    MultiplesNest(year, 4, 25);
    MultiplesNest(year, 100, 4);
  }

  lemma MultiplesNest(n: int, k: int, times: int)
    requires k > 1 && times > 0
    ensures k * times > 0 && (n % (k * times) == 0 ==> n % k == 0)
  {
    var whole := k * times;
    M.MulMonotone(1, times, k);
    if n % whole == 0 {
      var c := n / whole;
      assert n == c * whole == (c * times) * k;
      M.DivModOf(n, k, c * times, 0);
    }
  }

  lemma NextMultiple(n: int, k: int)
    requires k > 1
    ensures (n + 1) / k == n / k + if (n + 1) % k == 0 then 1 else 0
  {
    var q, r := n / k, n % k;
    assert n == q * k + r;
    if r + 1 == k {
      assert n + 1 == (q + 1) * k + 0;
      M.DivModOf(n + 1, k, q + 1, 0);
    } else {
      M.DivModOf(n + 1, k, q, r + 1);
    }
  }

  lemma DaysInYear(year: int)
    ensures DaysBeforeMonth(year, 12) + MonthLength(year, 12) == if Leap(year) then 366 else 365
  {
    assert DaysBeforeMonth(year, 2) == 31;
    assert DaysBeforeMonth(year, 4) == 62 + MonthLength(year, 2);
    assert DaysBeforeMonth(year, 6) == DaysBeforeMonth(year, 4) + 61;
    assert DaysBeforeMonth(year, 8) == DaysBeforeMonth(year, 6) + 61;
    assert DaysBeforeMonth(year, 10) == DaysBeforeMonth(year, 8) + 61;
    assert DaysBeforeMonth(year, 12) == DaysBeforeMonth(year, 10) + 61;
  }

  lemma NextDayIsNext(d: Date)
    requires Valid(d)
    ensures Valid(NextDay(d)) && Ordinal(NextDay(d)) == Ordinal(d) + 1
  {
    if d.day == MonthLength(d.year, d.month) && d.month == 12 {
      YearLength(d.year);
      DaysInYear(d.year);
    }
  }

  lemma {:induction false} AddDaysIsExact(d: Date, days: nat)
    requires Valid(d)
    ensures Valid(AddDays(d, days)) && Ordinal(AddDays(d, days)) == Ordinal(d) + days
  {
    if days > 0 {
      AddDaysIsExact(d, days - 1);
      NextDayIsNext(AddDays(d, days - 1));
    }
  }

  lemma {:induction false} MonthsAreOrdered(year: int, a: int, b: int)
    requires 1 <= a < b <= 12
    ensures DaysBeforeMonth(year, a) + MonthLength(year, a) <= DaysBeforeMonth(year, b)
  {
    if a < b - 1 { MonthsAreOrdered(year, a, b - 1); }
  }

  lemma {:induction false} YearsAreOrdered(a: int, b: int)
    requires 1 <= a < b
    ensures DaysBeforeYear(a) + (if Leap(a) then 366 else 365) <= DaysBeforeYear(b)
    decreases b - a
  {
    YearLength(a);
    if a + 1 < b { YearsAreOrdered(a + 1, b); }
  }

  lemma EarlierHasSmallerOrdinal(a: Date, b: Date)
    requires Valid(a) && Valid(b) && Before(a, b)
    ensures Ordinal(a) < Ordinal(b)
  {
    if a.year < b.year {
      YearsAreOrdered(a.year, b.year);
      DaysInYear(a.year);
      if a.month < 12 { MonthsAreOrdered(a.year, a.month, 12); }
      if b.month > 1 { MonthsAreOrdered(b.year, 1, b.month); }
    } else if a.month < b.month {
      MonthsAreOrdered(a.year, a.month, b.month);
    }
  }

  /** Day numbers order dates exactly as their years, months and days do. */
  lemma OrdinalOrders(a: Date, b: Date)
    requires Valid(a) && Valid(b)
    ensures Before(a, b) <==> Ordinal(a) < Ordinal(b)
  {
    if Before(a, b) {
      EarlierHasSmallerOrdinal(a, b);
    } else if a != b {
      EarlierHasSmallerOrdinal(b, a);
    }
  }

  // ---- Whole months ----

  /** The same day of the month that many months later, clamped to the month's last day. */
  function AddMonths(d: Date, months: nat): Date
    requires Valid(d)
  {
    var index := d.month - 1 + months;
    var year, month := d.year + index / 12, index % 12 + 1;
    Date(year, month, if d.day <= MonthLength(year, month) then d.day else MonthLength(year, month))
  }

  /** Exactly that many calendar months later, on the same day or the last of a shorter month. */
  lemma AddMonthsIsExact(d: Date, months: nat)
    requires Valid(d)
    ensures var m := AddMonths(d, months);
            && Valid(m)
            && MonthNumber(m) == MonthNumber(d) + months
            && (m.day == d.day <==> d.day <= MonthLength(m.year, m.month))
            && (m.day != d.day ==> m.day == MonthLength(m.year, m.month) < d.day)
  {}

  lemma MonthNumberIsUnique(a: Date, b: Date)
    requires Valid(a) && Valid(b) && MonthNumber(a) == MonthNumber(b)
    ensures a.year == b.year && a.month == b.month
  {}

  /**
   Stepping a month at a time from a clamped date is a different schedule: it agrees with
   counting from the first date exactly when the intermediate clamp did not cut the day further.
   */
  lemma SteppingAgreesWhenNotCut(d: Date, a: nat, b: nat)
    requires Valid(d)
    ensures AddMonths(AddMonths(d, a), b) == AddMonths(d, a + b)
       <==> AddMonths(d, a).day >= AddMonths(d, a + b).day
  {
    var m, n, direct := AddMonths(d, a), AddMonths(AddMonths(d, a), b), AddMonths(d, a + b);
    AddMonthsIsExact(d, a);
    AddMonthsIsExact(m, b);
    AddMonthsIsExact(d, a + b);
    MonthNumberIsUnique(n, direct);
  }

  // ---- Due dates ----

  function InstallmentDate(first: Date, n: nat, frequency: Frequency): Date
    requires Valid(first)
  {
    match frequency
    case Monthly => AddMonths(first, n)
    case Biweekly => AddDays(first, 14 * n)
    case Weekly => AddDays(first, 7 * n)
  }

  function InstallmentDates(first: Date, count: nat, frequency: Frequency): (dates: seq<Date>)
    requires Valid(first)
    ensures |dates| == count
    ensures forall n :: 0 <= n < count ==> dates[n] == InstallmentDate(first, n, frequency)
  {
    seq(count, n requires 0 <= n => InstallmentDate(first, n, frequency))
  }

  /** Every schedule is strictly increasing valid dates starting on the first due date. */
  lemma DatesAreIncreasing(first: Date, count: nat, frequency: Frequency)
    requires Valid(first)
    ensures var dates := InstallmentDates(first, count, frequency);
            && (count > 0 ==> dates[0] == first)
            && (forall n :: 0 <= n < count ==> Valid(dates[n]))
            && (forall m, n :: 0 <= m < n < count ==> Before(dates[m], dates[n]))
  {
    var dates := InstallmentDates(first, count, frequency);
    forall n | 0 <= n < count ensures Valid(dates[n]) { DateIsExact(first, n, frequency); }
    forall m, n | 0 <= m < n < count ensures Before(dates[m], dates[n]) {
      DateIsExact(first, m, frequency);
      DateIsExact(first, n, frequency);
      if !frequency.Monthly? { OrdinalOrders(dates[m], dates[n]); }
    }
  }

  /** The nth date is exactly n months, or n fortnights or weeks of days, after the first. */
  lemma DateIsExact(first: Date, n: nat, frequency: Frequency)
    requires Valid(first)
    ensures var d := InstallmentDate(first, n, frequency);
            && Valid(d)
            && match frequency
               case Monthly => MonthNumber(d) == MonthNumber(first) + n
                               && d.day == if first.day <= MonthLength(d.year, d.month) then first.day
                                           else MonthLength(d.year, d.month)
               case Biweekly => Ordinal(d) == Ordinal(first) + 14 * n
               case Weekly => Ordinal(d) == Ordinal(first) + 7 * n
  {
    match frequency
    case Monthly => AddMonthsIsExact(first, n);
    case Biweekly => AddDaysIsExact(first, 14 * n);
    case Weekly => AddDaysIsExact(first, 7 * n);
  }
}
